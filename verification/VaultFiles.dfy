/** The files of an exported vault: their names, and how an import finds them. */
module VaultFiles {
  import opened Wrappers
  import opened Keys
  import opened Decimal

  datatype Entry = Entry(name: string, isDir: bool)

  const PNG := ".png"
  const INDEX := "index.json"

  predicate HasSuffix(s: string, suffix: string) {
    |suffix| <= |s| && s[|s| - |suffix|..] == suffix
  }

  function FileName(rid: RID, title: string): string {
    Print(rid) + "_" + title
  }

  /** The position of the first underscore. */
  method IndexOfUnderscore(s: string) returns (i: int)
    ensures i == -1 ==> '_' !in s
    ensures i != -1 ==> 0 <= i < |s| && s[i] == '_' && '_' !in s[..i]
  {
    i := 0;
    while i < |s|
      invariant 0 <= i <= |s| && '_' !in s[..i]
    {
      if s[i] == '_' {
        return i;
      }
      i := i + 1;
    }
    assert s[..|s|] == s;
    i := -1;
  }

  /** The identifier in front of the first underscore, if the name has one. */
  function Prefix(s: string): Option<string> {
    if s == "" then None
    else if s[0] == '_' then Some("")
    else
      match Prefix(s[1..])
      case None => None
      case Some(p) => Some([s[0]] + p)
  }

  lemma {:induction false} PrefixIs(p: string, rest: string)
    requires '_' !in p
    ensures Prefix(p + "_" + rest) == Some(p)
  {
    if p != "" {
      PrefixIs(p[1..], rest);
      assert (p + "_" + rest)[1..] == p[1..] + "_" + rest;
      assert [p[0]] + p[1..] == p;
    } else {
      assert p + "_" + rest == "_" + rest;
    }
  }

  lemma {:induction false} NoPrefix(s: string)
    requires '_' !in s
    ensures Prefix(s) == None
  {
    if s != "" {
      NoPrefix(s[1..]);
    }
  }

  /** The card a directory entry belongs to; a negative number wraps around. */
  function CardOf(e: Entry): Option<RID> {
    if e.isDir || !HasSuffix(e.name, PNG) || Prefix(e.name).None? then None
    else
      match ParseInt(Prefix(e.name).value)
      case None => None
      case Some(n) => Some(ToUnsigned(n))
  }

  /** The last entry of each card, in directory order. */
  function CardFiles(entries: seq<Entry>): map<RID, string> {
    if entries == [] then map[]
    else
      var before, e := CardFiles(entries[..|entries| - 1]), entries[|entries| - 1];
      match CardOf(e)
      case None => before
      case Some(rid) => before[rid := e.name]
  }

  method BuildCardFileMap(entries: seq<Entry>) returns (cardFiles: map<RID, string>)
    ensures cardFiles == CardFiles(entries)
  {
    cardFiles := map[];
    for i := 0 to |entries|
      invariant cardFiles == CardFiles(entries[..i])
    {
      var rid := ReadEntry(entries[i]);
      assert entries[..i + 1][..i] == entries[..i];
      if rid.Some? {
        cardFiles := cardFiles[rid.value := entries[i].name];
      }
    }
    assert entries[..|entries|] == entries;
  }

  method ReadEntry(e: Entry) returns (rid: Option<RID>)
    ensures rid == CardOf(e)
  {
    if e.isDir || !HasSuffix(e.name, PNG) {
      return None;
    }
    var at := IndexOfUnderscore(e.name);
    if at == -1 {
      NoPrefix(e.name);
      return None;
    }
    PrefixIs(e.name[..at], e.name[at + 1..]);
    assert e.name == e.name[..at] + "_" + e.name[at + 1..];
    var n := ParseInt(e.name[..at]);
    rid := if n.Some? then Some(ToUnsigned(n.value)) else None;
  }

  // ---- names of exported cards

  /** An exported file is found again under its identifier exactly when that fits a
      signed word. */
  lemma ExportedNameIsFound(rid: RID, title: string)
    requires HasSuffix(title, PNG)
    ensures CardOf(Entry(FileName(rid, title), false)) == if rid < SIGN_BIT then Some(rid) else None
  {
    PrintValue(rid);
    PrintParses(rid);
    PrefixIs(Print(rid), title);
    var name := FileName(rid, title);
    assert name[|name| - |PNG|..] == title[|title| - |PNG|..];
  }

  /** Cards never share a file, whatever their titles. */
  lemma FileNamesDistinct(a: RID, x: string, b: RID, y: string)
    requires FileName(a, x) == FileName(b, y)
    ensures a == b && x == y
  {
    PrintValue(a);
    PrintValue(b);
    PrefixIs(Print(a), x);
    PrefixIs(Print(b), y);
    assert FileName(a, x)[|Print(a)| + 1..] == x && FileName(b, y)[|Print(b)| + 1..] == y;
  }

  lemma IndexIsSkipped()
    ensures CardOf(Entry(INDEX, false)) == None
  {
  }

  /** If each card has one file at most, the map is exact. */
  lemma {:induction false} CardFilesExact(entries: seq<Entry>, rid: RID)
    requires forall i, j :: 0 <= i < |entries| && 0 <= j < |entries| ==>
               CardOf(entries[i]).Some? && CardOf(entries[i]) == CardOf(entries[j]) ==> entries[i] == entries[j]
    ensures rid in CardFiles(entries) <==> exists e :: e in entries && CardOf(e) == Some(rid)
    ensures rid in CardFiles(entries) ==>
              && Entry(CardFiles(entries)[rid], false) in entries
              && CardOf(Entry(CardFiles(entries)[rid], false)) == Some(rid)
  {
    if entries != [] {
      CardFilesExact(entries[..|entries| - 1], rid);
      assert entries == entries[..|entries| - 1] + [entries[|entries| - 1]];
    }
  }
}
