/** pblob: a blob store over the sorted byte-key map, with an indexed batch for
    the open transaction. */
module PebbleBlobStore {
  import opened Wrappers
  import opened Bytes
  import opened Keys
  import opened Versions
  import opened BlobSpec
  import opened Kv

  const DEFAULT_MAX_VERSIONS := 5

  /** The keys an iterator over one card's images visits. */
  ghost predicate Scans(db: Db, rid: RID, ks: seq<seq<byte>>) {
    Sorted(ks) &&
    forall k :: k in ks <==>
      k in db && InBounds(k, Some(TypePrefix(rid, PNG_TYPE)), Some(TypePrefix(rid, PNG_TYPE + 1)))
  }

  ghost predicate KeysOf(rid: RID, vs: seq<Version>, ks: seq<seq<byte>>) {
    |vs| == |ks| && forall i :: 0 <= i < |ks| ==> ks[i] == PngKey(rid, vs[i])
  }

  /** The keys of one card's images, in key order, are its versions in time order. */
  lemma ScanOfVersions(db: Db, st: State, rid: RID, ks: seq<seq<byte>>, vs: seq<Version>)
    requires Represents(db, st) && Scans(db, rid, ks) && KeysOf(rid, vs, ks)
    ensures vs == Listed(VersionsOf(st, rid))
  {
    SortedVersions(rid, ks, vs);
    forall v: int ensures v in vs <==> v in VersionsOf(st, rid) {
      VersionIsScanned(db, st, rid, v, ks, vs);
    }
    ListsSet(vs, VersionsOf(st, rid));
  }

  lemma SortedVersions(rid: RID, ks: seq<seq<byte>>, vs: seq<Version>)
    requires Sorted(ks) && KeysOf(rid, vs, ks)
    ensures Ascending(vs)
  {
    forall i, j | 0 <= i < j < |vs| ensures vs[i] < vs[j] {
      KeyOrder(Logical(rid, PNG_TYPE, Some(vs[i])), Logical(rid, PNG_TYPE, Some(vs[j])));
    }
  }

  lemma VersionIsScanned(db: Db, st: State, rid: RID, v: int, ks: seq<seq<byte>>, vs: seq<Version>)
    requires Represents(db, st) && Scans(db, rid, ks) && KeysOf(rid, vs, ks)
    ensures v in vs <==> v in VersionsOf(st, rid)
  {
    if v in vs {
      var i :| 0 <= i < |vs| && vs[i] == v;
      assert ks[i] in ks;
      assert (rid, vs[i]) in st.cards;
    }
    if v in VersionsOf(st, rid) {
      HeldIsScanned(db, st, rid, v, ks, vs);
    }
  }

  lemma HeldIsScanned(db: Db, st: State, rid: RID, v: Version, ks: seq<seq<byte>>, vs: seq<Version>)
    requires Represents(db, st) && Scans(db, rid, ks) && KeysOf(rid, vs, ks) && (rid, v) in st.cards
    ensures v in vs
  {
    TypeRange(rid, PNG_TYPE, PNG_TYPE + 1);
    assert PngKey(rid, v) in ks;
    var i :| 0 <= i < |ks| && ks[i] == PngKey(rid, v);
    PngKeyStored(rid, v);
    PngKeyStored(rid, vs[i]);
  }

  method VersionColumn(rid: RID, ks: seq<seq<byte>>) returns (vs: seq<Version>)
    requires forall k :: k in ks ==> |k| == MAX_KEY_LENGTH && k == PngKey(rid, GetVersion(k))
    ensures KeysOf(rid, vs, ks)
  {
    vs := [];
    for i := 0 to |ks|
      invariant |vs| == i && forall j :: 0 <= j < i ==> ks[j] == PngKey(rid, vs[j])
    {
      assert ks[i] in ks;
      vs := vs + [GetVersion(ks[i])];
    }
  }

  lemma KeyInVersionRange(db: Db, st: State, rid: RID, k: seq<byte>)
    requires Represents(db, st) && k in db
    requires InBounds(k, Some(TypePrefix(rid, PNG_TYPE)), Some(TypePrefix(rid, PNG_TYPE + 1)))
    ensures |k| == MAX_KEY_LENGTH && k == PngKey(rid, GetVersion(k))
  {
    TypeRange(rid, PNG_TYPE, PNG_TYPE + 1);
    assert Stored(k);
  }

  lemma StoredKeyRid(db: Db, st: State, k: seq<byte>)
    requires Represents(db, st) && k in db
    ensures |k| >= TYPE_POSITION
    ensures GetRID(k) in RidsOf(Pebble(1), st)
  {
    assert Stored(k);
    if |k| == MAX_KEY_LENGTH {
      assert (GetRID(k), GetVersion(k)) in st.cards;
    }
  }

  lemma KeyOfRid(db: Db, st: State, r: RID) returns (k: seq<byte>)
    requires Represents(db, st) && r in RidsOf(Pebble(1), st)
    ensures k in db && |k| >= TYPE_POSITION && GetRID(k) == r
  {
    if p :| p in st.cards && p.0 == r {
      k := PngKey(p.0, p.1);
      PngKeyStored(p.0, p.1);
    } else {
      k := ThumbnailKey(r);
      ThumbnailKeyStored(r);
    }
  }

  lemma KeyOrderOfRids(a: seq<byte>, b: seq<byte>)
    requires Stored(a) && Stored(b) && Less(a, b)
    ensures GetRID(a) <= GetRID(b)
  {
    var la := if |a| == MAX_KEY_LENGTH then Logical(GetRID(a), PNG_TYPE, Some(GetVersion(a)))
              else Logical(GetRID(a), THUMBNAIL_TYPE, None);
    var lb := if |b| == MAX_KEY_LENGTH then Logical(GetRID(b), PNG_TYPE, Some(GetVersion(b)))
              else Logical(GetRID(b), THUMBNAIL_TYPE, None);
    KeyOrder(la, lb);
  }

  /** The RID of each key, in key order. */
  function RidColumn(ks: seq<seq<byte>>): seq<RID>
    requires forall i :: 0 <= i < |ks| ==> |ks[i]| >= TYPE_POSITION
  {
    seq(|ks|, i requires 0 <= i < |ks| => GetRID(ks[i]))
  }

  /** Neighbouring keys of one card are counted once. */
  method CollectRids(ks: seq<seq<byte>>) returns (rids: seq<RID>)
    requires forall i :: 0 <= i < |ks| ==> |ks[i]| >= TYPE_POSITION
    requires forall i :: 0 < i < |ks| ==> GetRID(ks[i - 1]) <= GetRID(ks[i])
    ensures Ascending(rids)
    ensures forall r :: r in rids <==> r in RidColumn(ks)
  {
    ghost var column := RidColumn(ks);
    if ks == [] {
      return [];
    }
    var rid := GetRID(ks[0]);
    rids := [rid];
    for i := 0 to |ks|
      invariant rids != [] && rids[|rids| - 1] == rid && Ascending(rids)
      invariant rid == if i == 0 then column[0] else column[i - 1]
      invariant forall r :: r in rids <==> r in column[..i] || r == column[0]
    {
      var currentRid := GetRID(ks[i]);
      assert currentRid == column[i] && column[..i + 1] == column[..i] + [column[i]];
      if rid != currentRid {
        rid := currentRid;
        rids := rids + [rid];
      }
    }
    assert column[..|ks|] == column;
  }

  class Store {
    const maxVersions: int
    var db: Db
    var batch: seq<Write>
    var isTransaction: bool
    ghost var committed: State
    ghost var current: State

    function View(): Db
      reads this
    {
      Replay(db, batch)
    }

    ghost predicate Valid()
      reads this
    {
      && maxVersions >= 1
      && Represents(db, committed)
      && Represents(View(), current)
      && (!isTransaction ==> batch == [] && current == committed)
    }

    ghost function Kind(): Backend {
      Pebble(maxVersions)
    }

    constructor (max: int)
      ensures Valid() && !isTransaction && committed == EMPTY
      ensures maxVersions == if max <= 0 then DEFAULT_MAX_VERSIONS else max
    {
      maxVersions := if max <= 0 then DEFAULT_MAX_VERSIONS else max;
      db := map[];
      batch := [];
      isTransaction := false;
      committed := EMPTY;
      current := EMPTY;
    }

    // ---- transactions

    /** Opens an indexed batch unless one is open already. */
    method BeginTx() returns (outer: bool)
      requires Valid()
      modifies this
      ensures Valid() && isTransaction && outer == !old(isTransaction)
      ensures current == old(current) && committed == old(committed)
    {
      outer := !isTransaction;
      isTransaction := true;
    }

    /** Whoever opened the batch commits it after success and drops it otherwise. */
    method EndTx(outer: bool, outcome: Outcome)
      requires Valid() && isTransaction
      modifies this
      ensures Valid() && isTransaction == !outer
      ensures !outer ==> current == old(current) && committed == old(committed)
      ensures outer ==> committed == if outcome == Done then old(current) else old(committed)
    {
      if outer {
        if outcome == Done {
          db := View();
          committed := current;
        }
        batch := [];
        current := committed;
        isTransaction := false;
      }
    }

    method Record(w: Write, ghost after: State)
      requires Valid() && Represents(Apply(View(), w), after)
      modifies this
      ensures Valid() && current == after && isTransaction == old(isTransaction)
      ensures isTransaction ==> committed == old(committed)
    {
      if isTransaction {
        ReplayAppend(db, batch, w);
        batch := batch + [w];
      } else {
        db := Apply(db, w);
        committed := after;
      }
      current := after;
    }

    // ---- reads

    method KeyExists(key: seq<byte>) returns (yes: bool)
      requires Valid()
      ensures yes <==> key in View()
    {
      var ks := Iterate(View(), Some(key), None);
      yes := ks != [] && ks[0] == key;
      LessIrreflexive(key);
      if key in View() {
        assert key in ks;
        var i :| 0 <= i < |ks| && ks[i] == key;
        assert ks[0] in ks;
        assert i == 0;
      }
    }

    method GetVersions(rid: RID) returns (vs: seq<Version>)
      requires Valid()
      ensures vs == Listed(VersionsOf(current, rid))
    {
      var lower := BuildPrefix(rid, PNG_TYPE);
      var upper := BuildPrefix(rid, PNG_TYPE + 1);
      var ks := Iterate(View(), Some(lower), Some(upper));
      forall k | k in ks ensures |k| == MAX_KEY_LENGTH && k == PngKey(rid, GetVersion(k)) {
        KeyInVersionRange(View(), current, rid, k);
      }
      vs := VersionColumn(rid, ks);
      ScanOfVersions(View(), current, rid, ks, vs);
    }

    method GetRIDs() returns (rids: seq<RID>)
      requires Valid()
      ensures rids == Listed(RidsOf(Kind(), current))
    {
      var ks := Iterate(View(), None, None);
      ghost var all := RidsOf(Kind(), current);
      forall i | 0 <= i < |ks| ensures |ks[i]| >= TYPE_POSITION && Stored(ks[i]) && GetRID(ks[i]) in all {
        assert ks[i] in ks;
        StoredKeyRid(View(), current, ks[i]);
      }
      forall i | 0 < i < |ks| ensures GetRID(ks[i - 1]) <= GetRID(ks[i]) {
        KeyOrderOfRids(ks[i - 1], ks[i]);
      }
      rids := CollectRids(ks);
      forall r | r in all ensures r in rids {
        var k := KeyOfRid(View(), current, r);
        assert k in ks;
        var i :| 0 <= i < |ks| && ks[i] == k;
        assert RidColumn(ks)[i] == r;
      }
      assert Elements(rids) == all;
      ListedUnique(rids);
    }

    method HasVersion(rid: RID, v: Version) returns (yes: bool)
      requires Valid()
      ensures yes <==> (rid, v) in current.cards
    {
      var key := BuildPngKey(rid, v);
      yes := KeyExists(key);
    }

    method GetRawCardBytes(rid: RID, v: Version) returns (card: Option<Card>)
      requires Valid()
      ensures card == if (rid, v) in current.cards then Some(current.cards[(rid, v)]) else None
    {
      var key := BuildPngKey(rid, v);
      card := if key in View() then Some(View()[key].card) else None;
    }

    method ThumbnailBytes(rid: RID) returns (image: Option<string>)
      requires Valid()
      ensures image == if rid in current.thumbs then Some(current.thumbs[rid]) else None
    {
      var key := BuildPrefix(rid, THUMBNAIL_TYPE);
      image := if key in View() then Some(View()[key].image) else None;
    }

    // ---- writes

    method PutVersion(rid: RID, v: Version, up: Upload) returns (outcome: Outcome)
      requires Valid()
      modifies this
      ensures Valid() && isTransaction == old(isTransaction)
      ensures isTransaction ==> committed == old(committed)
      ensures var (st, o) := Put(Kind(), old(current), rid, v, up);
              outcome == o && current == if isTransaction || o == Done then st else old(current)
    {
      var outer := BeginTx();
      outcome := InternalPut(rid, v, up);
      EndTx(outer, outcome);
    }

    method InternalPut(rid: RID, v: Version, up: Upload) returns (outcome: Outcome)
      requires Valid() && isTransaction
      modifies this
      ensures Valid() && isTransaction && committed == old(committed)
      ensures (current, outcome) == PebblePut(maxVersions, old(current), rid, v, up)
    {
      if !up.rawJson {
        return Failed;
      }
      var key := BuildPngKey(rid, v);
      var exists' := KeyExists(key);
      if !exists' {
        outcome := DeleteOldVersions(rid);
        if outcome != Done {
          return outcome;
        }
      }
      if up.thumbnail.None? {
        return Failed;
      }
      var thumbnailKey := BuildPrefix(rid, THUMBNAIL_TYPE);
      SetThumbnail(View(), current, rid, up.thumbnail.value);
      Record(Set(thumbnailKey, ThumbnailBlob(up.thumbnail.value)),
             current.(thumbs := current.thumbs[rid := up.thumbnail.value]));
      if !up.encodes {
        return Failed;
      }
      SetCard(View(), current, rid, v, up.card);
      Record(Set(key, PngBlob(up.card)), current.(cards := current.cards[(rid, v) := up.card]));
      outcome := Done;
    }

    method DeleteOldVersions(rid: RID) returns (outcome: Outcome)
      requires Valid()
      modifies this
      ensures Valid() && isTransaction == old(isTransaction)
      ensures isTransaction ==> committed == old(committed)
      ensures var held := VersionsOf(old(current), rid);
              if maxVersions == 1 && held != {} then outcome == Panicked && current == old(current)
              else outcome == Done && current == PebblePrune(maxVersions, old(current), rid)
    {
      var outer := BeginTx();
      var versions := GetVersions(rid);
      ghost var st := current;
      ElementCount(versions);
      if |versions| < maxVersions {
        outcome := Done;
      } else if |versions| - maxVersions + 1 >= |versions| {
        assert versions[0] in Elements(versions);
        outcome := Panicked;  // index out of range
      } else {
        var deleteUpTo := versions[|versions| - maxVersions + 1];
        NewestOfAscending(versions, maxVersions - 1);
        PruneIsDrop(st, rid, maxVersions, deleteUpTo);
        DeleteVersionsBetween(rid, 0, deleteUpTo);
        outcome := Done;
      }
      EndTx(outer, outcome);
    }

    method DeleteVersionsBetween(rid: RID, lower: Version, upper: Version)
      requires Valid()
      modifies this
      ensures Valid() && isTransaction == old(isTransaction)
      ensures isTransaction ==> committed == old(committed)
      ensures current == BlobSpec.DropVersions(old(current), rid, lower, upper)
    {
      var outer := BeginTx();
      var start := BuildPngKey(rid, lower);
      var end := BuildPngKey(rid, upper);
      DeleteVersionRange(View(), current, rid, lower, upper);
      Record(DeleteRange(start, end), BlobSpec.DropVersions(current, rid, lower, upper));
      EndTx(outer, Done);
    }

    method DeleteCard(rid: RID)
      requires Valid()
      modifies this
      ensures Valid() && isTransaction == old(isTransaction)
      ensures isTransaction ==> committed == old(committed)
      ensures current == DropCard(old(current), rid)
    {
      var start := BuildPrefix(rid, MIN_TYPE);
      var end := BuildPrefix(rid, MAX_TYPE);
      DeleteCardRange(View(), current, rid);
      Record(DeleteRange(start, end), DropCard(current, rid));
    }

    // ---- histories

    /** Any tree of calls on the byte-key store answers as its meaning does. */
    method Execute(c: Call) returns (answers: seq<Answer>, outcome: Outcome)
      requires Valid()
      modifies this
      ensures Valid() && isTransaction == old(isTransaction)
      ensures isTransaction ==> committed == old(committed)
      ensures Result(current, answers, outcome) ==
              if isTransaction then Inside(Kind(), old(current), c) else Outside(Kind(), old(current), c)
      decreases c, 1
    {
      match c
      case PutCard(rid, v, up) =>
        outcome := PutVersion(rid, v, up);
        answers := [Wrote(outcome)];
      case DeleteVersions(rid, lower, upper) =>
        DeleteVersionsBetween(rid, lower, upper);
        answers, outcome := [Wrote(Done)], Done;
      case Delete(rid) =>
        DeleteCard(rid);
        answers, outcome := [Wrote(Done)], Done;
      case Versions(rid) =>
        var vs := GetVersions(rid);
        answers, outcome := [VersionList(vs)], Done;
      case VersionExists(rid, v) =>
        var yes := HasVersion(rid, v);
        answers, outcome := [Exists(yes)], Done;
      case ListRIDs =>
        var rids := GetRIDs();
        answers, outcome := [RidList(rids)], Done;
      case WithTx(body) =>
        var outer := BeginTx();
        answers, outcome := ExecuteBody(body);
        EndTx(outer, outcome);
      case Ignoring(d) =>
        answers, outcome := Execute(d);
        outcome := Forgive(outcome);
    }

    method ExecuteBody(body: seq<Call>) returns (answers: seq<Answer>, outcome: Outcome)
      requires Valid() && isTransaction
      modifies this
      ensures Valid() && isTransaction && committed == old(committed)
      ensures Result(current, answers, outcome) == Body(Kind(), old(current), body)
      decreases body, 0
    {
      answers, outcome := [], Done;
      if body != [] {
        answers, outcome := Execute(body[0]);
        if outcome == Done {
          var more;
          more, outcome := ExecuteBody(body[1..]);
          answers := answers + more;
        }
      }
    }
  }

  /** Deleting versions from 0 up to the cut-off is the pruning that was meant. */
  lemma PruneIsDrop(st: State, rid: RID, max: int, cut: Version)
    requires |VersionsOf(st, rid)| >= max
    requires forall v :: v in Newest(VersionsOf(st, rid), max - 1) <==> v in VersionsOf(st, rid) && cut <= v
    ensures BlobSpec.DropVersions(st, rid, 0, cut) == PebblePrune(max, st, rid)
  {
    var held := VersionsOf(st, rid);
    assert (set v | v in held && !(0 <= v < cut)) == set v | v in held && (v < 0 || v in Newest(held, max - 1));
  }
}
