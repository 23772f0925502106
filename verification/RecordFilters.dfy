/** A whole record filter compiled to the predicates of one database query. */
module RecordFilters {
  import opened Wrappers
  import opened Fts
  import opened ContentFilters

  datatype TagFilter = TagFilter(names: seq<string>, mode: Mode)

  /** Text and boolean filters stay opaque: the database evaluates them. */
  datatype TextFilter = TextFilter(field: string, value: string, regex: bool, wholeWord: bool, caseSensitive: bool)
  datatype BooleanFilter = BooleanFilter(field: string, value: bool)

  datatype RecordFilter = RecordFilter(
    texts: seq<TextFilter>, booleans: seq<BooleanFilter>, sources: seq<string>, statuses: seq<string>,
    contents: seq<ContentFilter>, tags: TagFilter)

  datatype Predicate =
    | TextMatches(tf: TextFilter)
    | FlagIs(bf: BooleanFilter)
    | SourceIn(sources: seq<string>)
    | StatusIn(statuses: seq<string>)
    | FtsMatches(expression: string)
    | HasTagIn(names: seq<string>)
    | HasTag(name: string)
    | AllOf(ps: seq<Predicate>)

  // ---- compilation

  function TagPredicates(names: seq<string>): seq<Predicate> {
    seq(|names|, i requires 0 <= i < |names| => HasTag(names[i]))
  }

  method ApplyTagFilter(tf: TagFilter) returns (p: Option<Predicate>)
    ensures p == CompileTags(tf)
  {
    if |tf.names| == 0 {
      return None;
    }
    if tf.mode == ANY {
      return Some(HasTagIn(tf.names));
    }
    var tagPredicates := [];
    for i := 0 to |tf.names|
      invariant tagPredicates == TagPredicates(tf.names)[..i]
    {
      tagPredicates := tagPredicates + [HasTag(tf.names[i])];
    }
    assert tagPredicates == TagPredicates(tf.names);
    p := Some(AllOf(tagPredicates));
  }

  function CompileTags(tf: TagFilter): Option<Predicate> {
    if tf.names == [] then None
    else if tf.mode == ANY then Some(HasTagIn(tf.names))
    else Some(AllOf(TagPredicates(tf.names)))
  }

  function CompileContent(cf: ContentFilter): seq<Predicate> {
    if cf.values == [] || cf.fields == [] then [] else [FtsMatches(MatchExpression(cf))]
  }

  function CompileContents(cfs: seq<ContentFilter>): seq<Predicate> {
    if cfs == [] then [] else CompileContents(cfs[..|cfs| - 1]) + CompileContent(cfs[|cfs| - 1])
  }

  function CompileTexts(tfs: seq<TextFilter>): seq<Predicate> {
    seq(|tfs|, i requires 0 <= i < |tfs| => TextMatches(tfs[i]))
  }

  function CompileFlags(bfs: seq<BooleanFilter>): seq<Predicate> {
    seq(|bfs|, i requires 0 <= i < |bfs| => FlagIs(bfs[i]))
  }

  function CompileLists(f: RecordFilter): seq<Predicate> {
    (if f.sources != [] then [SourceIn(f.sources)] else [])
    + (if f.statuses != [] then [StatusIn(f.statuses)] else [])
  }

  function CompilePlain(f: RecordFilter): seq<Predicate> {
    CompileTexts(f.texts) + CompileFlags(f.booleans) + CompileLists(f)
  }

  function Compile(f: RecordFilter): seq<Predicate> {
    CompilePlain(f)
    + CompileContents(f.contents)
    + (if CompileTags(f.tags).Some? then [CompileTags(f.tags).value] else [])
  }

  /** The predicates on the record's own columns. */
  method ApplyPlainFilters(f: RecordFilter) returns (predicates: seq<Predicate>)
    ensures predicates == CompilePlain(f)
  {
    predicates := [];
    for i := 0 to |f.texts|
      invariant predicates == CompileTexts(f.texts)[..i]
    {
      predicates := predicates + [TextMatches(f.texts[i])];
    }
    var flags := [];
    for i := 0 to |f.booleans|
      invariant flags == CompileFlags(f.booleans)[..i]
    {
      flags := flags + [FlagIs(f.booleans[i])];
    }
    predicates := predicates + flags;
    if |f.sources| > 0 {
      predicates := predicates + [SourceIn(f.sources)];
    }
    if |f.statuses| > 0 {
      predicates := predicates + [StatusIn(f.statuses)];
    }
  }

  method ApplyFilter(f: RecordFilter) returns (predicates: seq<Predicate>)
    ensures predicates == Compile(f)
  {
    predicates := ApplyPlainFilters(f);
    for i := 0 to |f.contents|
      invariant predicates == CompilePlain(f) + CompileContents(f.contents[..i])
    {
      var expression := ApplyContentFilter(f.contents[i]);
      ContentsStep(f.contents, i);
      if expression.Some? {
        predicates := predicates + [FtsMatches(expression.value)];
      }
    }
    assert f.contents[..|f.contents|] == f.contents;
    var tags := ApplyTagFilter(f.tags);
    if tags.Some? {
      predicates := predicates + [tags.value];
    }
  }

  lemma ContentsStep(cfs: seq<ContentFilter>, i: nat)
    requires i < |cfs|
    ensures CompileContents(cfs[..i + 1]) == CompileContents(cfs[..i]) + CompileContent(cfs[i])
  {
    assert cfs[..i + 1][..i] == cfs[..i];
  }

  // ---- meaning

  /** One record, as far as filters look at it. */
  datatype View = View(
    text: TextFilter -> bool, flag: BooleanFilter -> bool, source: string, status: string,
    tags: set<string>, matches: (string, string) -> bool)

  predicate Holds(p: Predicate, r: View) {
    match p
    case TextMatches(tf) => r.text(tf)
    case FlagIs(bf) => r.flag(bf)
    case SourceIn(sources) => r.source in sources
    case StatusIn(statuses) => r.status in statuses
    case FtsMatches(expression) =>
      Parse(expression).Some? && Eval(Parse(expression).value, FTS_COLUMNS, r.matches)
    case HasTagIn(names) => exists n :: n in names && n in r.tags
    case HasTag(name) => name in r.tags
    case AllOf(ps) => forall q :: q in ps ==> Holds(q, r)
  }

  predicate TagsMatch(tf: TagFilter, r: View) {
    || tf.names == []
    || (if tf.mode == ANY then exists n :: n in tf.names && n in r.tags
        else forall n :: n in tf.names ==> n in r.tags)
  }

  predicate Selects(f: RecordFilter, r: View) {
    && (forall tf :: tf in f.texts ==> r.text(tf))
    && (forall bf :: bf in f.booleans ==> r.flag(bf))
    && (f.sources == [] || r.source in f.sources)
    && (f.statuses == [] || r.status in f.statuses)
    && (forall cf :: cf in f.contents ==> cf.values == [] || cf.fields == [] || ContentMatches(cf, r.matches))
    && TagsMatch(f.tags, r)
  }

  ghost predicate AllHold(ps: seq<Predicate>, r: View) {
    forall p :: p in ps ==> Holds(p, r)
  }

  lemma AllHoldAppend(a: seq<Predicate>, b: seq<Predicate>, r: View)
    ensures AllHold(a + b, r) <==> AllHold(a, r) && AllHold(b, r)
  {
    assert forall p :: p in a + b <==> p in a || p in b;
  }

  lemma TagsCompile(tf: TagFilter, r: View)
    ensures TagsMatch(tf, r) <==> CompileTags(tf).None? || Holds(CompileTags(tf).value, r)
  {
    if tf.names != [] && tf.mode == ALL {
      var ps := TagPredicates(tf.names);
      if Holds(AllOf(ps), r) {
        forall n | n in tf.names ensures n in r.tags {
          var i :| 0 <= i < |tf.names| && tf.names[i] == n;
          assert ps[i] in ps && Holds(ps[i], r);
        }
      }
    }
  }

  lemma {:induction false} ContentsCompile(cfs: seq<ContentFilter>, r: View)
    requires forall cf, f :: cf in cfs && f in cf.fields ==> f in CONTENT_FIELDS
    ensures AllHold(CompileContents(cfs), r) <==>
            forall cf :: cf in cfs ==> cf.values == [] || cf.fields == [] || ContentMatches(cf, r.matches)
  {
    if cfs != [] {
      var front, last := cfs[..|cfs| - 1], cfs[|cfs| - 1];
      assert cfs == front + [last];
      ContentsCompile(front, r);
      AllHoldAppend(CompileContents(front), CompileContent(last), r);
      if last.values != [] && last.fields != [] {
        ContentFilterCompiles(last, r.matches);
        assert CompileContent(last)[0] in CompileContent(last);
      }
    }
  }

  /** The compiled query selects exactly the records the filter asks for. */
  lemma FilterCompiles(f: RecordFilter, r: View)
    requires forall cf, name :: cf in f.contents && name in cf.fields ==> name in CONTENT_FIELDS
    ensures AllHold(Compile(f), r) <==> Selects(f, r)
  {
    var texts, flags, lists, contents :=
      CompileTexts(f.texts), CompileFlags(f.booleans), CompileLists(f), CompileContents(f.contents);
    var tags := if CompileTags(f.tags).Some? then [CompileTags(f.tags).value] else [];
    AllHoldAppend(texts, flags, r);
    AllHoldAppend(texts + flags, lists, r);
    AllHoldAppend(texts + flags + lists, contents, r);
    AllHoldAppend(texts + flags + lists + contents, tags, r);
    TextsCompile(f, texts, r);
    FlagsCompile(f, flags, r);
    ListsCompile(f, r);
    ContentsCompile(f.contents, r);
    TagsCompile(f.tags, r);
    assert tags != [] ==> tags[0] in tags;
  }

  lemma ListsCompile(f: RecordFilter, r: View)
    ensures AllHold(CompileLists(f), r) <==>
            (f.sources == [] || r.source in f.sources) && (f.statuses == [] || r.status in f.statuses)
  {
    var lists := CompileLists(f);
    assert f.sources != [] ==> lists[0] in lists;
    assert f.statuses != [] ==> lists[|lists| - 1] in lists;
  }

  lemma TextsCompile(f: RecordFilter, texts: seq<Predicate>, r: View)
    requires |texts| == |f.texts| && forall i :: 0 <= i < |texts| ==> texts[i] == TextMatches(f.texts[i])
    ensures AllHold(texts, r) <==> forall tf :: tf in f.texts ==> r.text(tf)
  {
    forall i | 0 <= i < |texts| ensures texts[i] in texts && f.texts[i] in f.texts {
    }
  }

  lemma FlagsCompile(f: RecordFilter, flags: seq<Predicate>, r: View)
    requires |flags| == |f.booleans| && forall i :: 0 <= i < |flags| ==> flags[i] == FlagIs(f.booleans[i])
    ensures AllHold(flags, r) <==> forall bf :: bf in f.booleans ==> r.flag(bf)
  {
    forall i | 0 <= i < |flags| ensures flags[i] in flags && f.booleans[i] in f.booleans {
    }
  }
}
