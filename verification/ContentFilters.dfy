/** The content filter compiled to an FTS5 MATCH string. */
module ContentFilters {
  import opened Wrappers
  import opened Fts

  datatype Mode = ALL | ANY

  datatype ContentFilter = ContentFilter(fieldMode: Mode, fields: seq<string>, valueMode: Mode, values: seq<string>)

  const CONTENT_FIELDS: seq<string> := [
    "description", "personality", "scenario", "first_mes", "mes_example", "creator_notes",
    "system_prompt", "post_history_instructions", "alternate_greetings", "depth_prompt"]

  /** The columns of the FTS table. */
  const FTS_COLUMNS: set<string> := {"id"} + set f | f in CONTENT_FIELDS

  // ---- building the MATCH string

  function Escape(value: string): string {
    if value == [] then [] else (if value[0] == '"' then "\"\"" else [value[0]]) + Escape(value[1..])
  }

  function ValueQuery(field: string, value: string): string {
    field + ": " + ("\"" + Escape(value) + "\"")
  }

  function Join(parts: seq<string>, separator: string): string {
    if parts == [] then "" else if |parts| == 1 then parts[0]
    else parts[0] + separator + Join(parts[1..], separator)
  }

  function Operator(mode: Mode): string {
    if mode == ALL then " AND " else " OR "
  }

  function ValueQueries(field: string, values: seq<string>): seq<string> {
    seq(|values|, i requires 0 <= i < |values| => ValueQuery(field, values[i]))
  }

  function FieldQuery(field: string, values: seq<string>, mode: Mode): string {
    var joined := Join(ValueQueries(field, values), Operator(mode));
    if |values| > 1 then "(" + joined + ")" else joined
  }

  function FieldQueries(cf: ContentFilter): seq<string> {
    seq(|cf.fields|, i requires 0 <= i < |cf.fields| => FieldQuery(cf.fields[i], cf.values, cf.valueMode))
  }

  function MatchExpression(cf: ContentFilter): string {
    Join(FieldQueries(cf), Operator(cf.fieldMode))
  }

  /** One column filter for each value, the value quoted. */
  method QuoteValues(field: string, values: seq<string>) returns (valueQueries: seq<string>)
    ensures valueQueries == ValueQueries(field, values)
  {
    valueQueries := [];
    for j := 0 to |values|
      invariant valueQueries == ValueQueries(field, values)[..j]
    {
      var escapedValue := "\"" + Escape(values[j]) + "\"";
      valueQueries := valueQueries + [field + ": " + escapedValue];
    }
  }

  method ApplyContentFilter(cf: ContentFilter) returns (expression: Option<string>)
    ensures expression == if cf.values == [] || cf.fields == [] then None else Some(MatchExpression(cf))
  {
    if |cf.values| == 0 || |cf.fields| == 0 {
      return None;
    }
    var valueQueryOperator;
    if cf.valueMode == ALL {
      valueQueryOperator := " AND ";
    } else {
      valueQueryOperator := " OR ";
    }
    var fieldQueries: seq<string> := [];
    for i := 0 to |cf.fields|
      invariant fieldQueries == FieldQueries(cf)[..i]
    {
      var field := cf.fields[i];
      var valueQueries := QuoteValues(field, cf.values);
      var fieldQuery := Join(valueQueries, valueQueryOperator);
      if |valueQueries| > 1 {
        fieldQuery := "(" + fieldQuery + ")";
      }
      assert fieldQuery == FieldQueries(cf)[i];
      fieldQueries := fieldQueries + [fieldQuery];
    }
    assert fieldQueries == FieldQueries(cf);
    if cf.fieldMode == ALL {
      expression := Some(Join(fieldQueries, " AND "));
    } else {
      expression := Some(Join(fieldQueries, " OR "));
    }
  }

  // ---- what a content filter is meant to say

  predicate ValuesMatch(cf: ContentFilter, field: string, matches: (string, string) -> bool) {
    if cf.valueMode == ALL then forall v :: v in cf.values ==> matches(field, v)
    else exists v :: v in cf.values && matches(field, v)
  }

  predicate ContentMatches(cf: ContentFilter, matches: (string, string) -> bool) {
    if cf.fieldMode == ALL then forall f :: f in cf.fields ==> ValuesMatch(cf, f, matches)
    else exists f :: f in cf.fields && ValuesMatch(cf, f, matches)
  }

  /** A column name that can be written without quotes. */
  predicate PlainName(f: string) {
    f != [] && (forall c :: c in f ==> IsBarewordChar(c)) && WordToken(f) == Word(f)
  }

  predicate LowerCase(f: string) {
    forall i :: 0 <= i < |f| ==> 'a' <= f[i] <= 'z' || f[i] == '_'
  }

  lemma LowerCaseIsPlain(f: string)
    requires f != [] && LowerCase(f)
    ensures PlainName(f)
  {
    assert IsBarewordChar(f[0]);
  }

  lemma ContentFieldsArePlain()
    ensures forall f :: f in CONTENT_FIELDS ==> PlainName(f)
  {
    forall f | f in CONTENT_FIELDS ensures PlainName(f) {
      ContentFieldIsLowerCase(f);
      LowerCaseIsPlain(f);
    }
  }

  lemma ContentFieldIsLowerCase(f: string)
    requires f in CONTENT_FIELDS
    ensures f != [] && LowerCase(f)
  {
    var i :| 0 <= i < |CONTENT_FIELDS| && CONTENT_FIELDS[i] == f;
  }

  // ---- from characters to tokens

  /** Doubling the quotes and reading the quoted string undo each other. */
  lemma {:induction false} QuotingRoundTrip(value: string, rest: string)
    requires rest == [] || rest[0] != '"'
    ensures ReadQuoted(Escape(value) + "\"" + rest) == Some((value, rest))
  {
    var s := Escape(value) + "\"" + rest;
    if value == [] {
      assert s == ['"'] + rest;
    } else {
      QuotingRoundTrip(value[1..], rest);
      var tail := Escape(value[1..]) + "\"" + rest;
      if value[0] == '"' {
        assert s == "\"\"" + tail;
        assert s[2..] == tail;
      } else {
        assert s == [value[0]] + tail;
        assert s[1..] == tail;
      }
      assert value == [value[0]] + value[1..];
    }
  }

  lemma {:induction false} WordRead(w: string, rest: string)
    requires forall c :: c in w ==> IsBarewordChar(c)
    requires rest == [] || !IsBarewordChar(rest[0])
    ensures WordLength(w + rest) == |w|
  {
    if w == [] {
      assert w + rest == rest;
    } else {
      assert (w + rest)[1..] == w[1..] + rest;
      WordRead(w[1..], rest);
    }
  }

  function ValueTokens(field: string, value: string): seq<Token> {
    [Word(field), Colon, Quoted(value)]
  }

  lemma LexSpace(rest: string)
    ensures Lex(" " + rest) == Lex(rest)
  {
    assert (" " + rest)[1..] == rest;
  }

  lemma LexColon(rest: string)
    ensures Lex(":" + rest) == Cons(Colon, Lex(rest))
  {
    assert (":" + rest)[1..] == rest;
  }

  lemma LexParenthesis(rest: string)
    ensures Lex("(" + rest) == Cons(Open, Lex(rest))
    ensures Lex(")" + rest) == Cons(Close, Lex(rest))
  {
    assert ("(" + rest)[1..] == rest && (")" + rest)[1..] == rest;
  }

  lemma LexWord(w: string, rest: string)
    requires w != [] && forall c :: c in w ==> IsBarewordChar(c)
    requires rest == [] || !IsBarewordChar(rest[0])
    ensures Lex(w + rest) == Cons(WordToken(w), Lex(rest))
  {
    WordRead(w, rest);
    var s := w + rest;
    assert s[0] == w[0] && w[0] in w;
    assert s[..|w|] == w && s[|w|..] == rest;
  }

  lemma LexQuoted(value: string, rest: string)
    requires rest == [] || rest[0] != '"'
    ensures Lex("\"" + (Escape(value) + "\"" + rest)) == Cons(Quoted(value), Lex(rest))
  {
    QuotingRoundTrip(value, rest);
    var quoted := Escape(value) + "\"" + rest;
    assert ("\"" + quoted)[1..] == quoted;
  }

  lemma LexColumnFilter(field: string, rest: string)
    requires PlainName(field)
    ensures Lex(field + (": " + rest)) == Prepend([Word(field), Colon], Lex(rest))
  {
    LexWord(field, ": " + rest);
    LexColonSpace(rest);
    ConsTwice(Word(field), Colon, Lex(rest));
  }

  lemma ConsTwice(t: Token, u: Token, ts: Option<seq<Token>>)
    ensures Cons(t, Cons(u, ts)) == Prepend([t, u], ts)
  {
    if ts.Some? {
      assert [t] + ([u] + ts.value) == [t, u] + ts.value;
    }
  }

  lemma LexColonSpace(rest: string)
    ensures Lex(": " + rest) == Cons(Colon, Lex(rest))
  {
    assert ": " + rest == ":" + (" " + rest);
    LexColon(" " + rest);
    LexSpace(rest);
  }

  lemma LexValueQuery(field: string, value: string, rest: string)
    requires PlainName(field) && (rest == [] || rest[0] != '"')
    ensures Lex(ValueQuery(field, value) + rest) == Prepend(ValueTokens(field, value), Lex(rest))
  {
    var quoted := "\"" + (Escape(value) + "\"" + rest);
    ValueQueryShape(field, value, rest);
    LexColumnFilter(field, quoted);
    LexQuoted(value, rest);
    PrependCons([Word(field), Colon], Quoted(value), Lex(rest));
    assert [Word(field), Colon] + [Quoted(value)] == ValueTokens(field, value);
  }

  lemma PrependCons(a: seq<Token>, t: Token, ts: Option<seq<Token>>)
    ensures Prepend(a, Cons(t, ts)) == Prepend(a + [t], ts)
  {
    if ts.Some? {
      assert a + ([t] + ts.value) == a + [t] + ts.value;
    }
  }

  lemma ValueQueryShape(field: string, value: string, rest: string)
    ensures ValueQuery(field, value) + rest == field + (": " + ("\"" + (Escape(value) + "\"" + rest)))
  {
  }

  function OperatorToken(mode: Mode): Token {
    if mode == ALL then AndOp else OrOp
  }

  lemma LexOperator(mode: Mode, rest: string)
    ensures Lex(Operator(mode) + rest) == Cons(OperatorToken(mode), Lex(rest))
  {
    var w := if mode == ALL then "AND" else "OR";
    assert Operator(mode) + rest == " " + (w + (" " + rest));
    LexSpace(w + (" " + rest));
    LexWord(w, " " + rest);
    LexSpace(rest);
  }

  function JoinTokens(parts: seq<seq<Token>>, op: Token): seq<Token> {
    if parts == [] then [] else if |parts| == 1 then parts[0]
    else parts[0] + [op] + JoinTokens(parts[1..], op)
  }

  /** A text whose tokens are ts wherever it stands before something that cannot
      be taken for its continuation. */
  ghost predicate Reads(s: string, ts: seq<Token>) {
    forall rest :: (rest == [] || rest[0] == ' ' || rest[0] == ')') ==> Lex(s + rest) == Prepend(ts, Lex(rest))
  }

  lemma {:induction false} JoinReads(parts: seq<string>, tokens: seq<seq<Token>>, mode: Mode)
    requires |parts| == |tokens| > 0
    requires forall i :: 0 <= i < |parts| ==> Reads(parts[i], tokens[i])
    ensures Reads(Join(parts, Operator(mode)), JoinTokens(tokens, OperatorToken(mode)))
  {
    if |parts| > 1 {
      JoinReads(parts[1..], tokens[1..], mode);
      var rest := Join(parts[1..], Operator(mode));
      PairReads(parts[0], tokens[0], rest, JoinTokens(tokens[1..], OperatorToken(mode)), mode);
    }
  }

  lemma PairReads(a: string, aTokens: seq<Token>, b: string, bTokens: seq<Token>, mode: Mode)
    requires Reads(a, aTokens) && Reads(b, bTokens)
    ensures Reads(a + Operator(mode) + b, aTokens + [OperatorToken(mode)] + bTokens)
  {
    forall rest | rest == [] || rest[0] == ' ' || rest[0] == ')'
      ensures Lex(a + Operator(mode) + b + rest) == Prepend(aTokens + [OperatorToken(mode)] + bTokens, Lex(rest))
    {
      ReadsAt(a, aTokens, Operator(mode) + (b + rest));
      ReadsAt(b, bTokens, rest);
      PairLex(a, aTokens, b, bTokens, mode, rest);
    }
  }

  lemma ReadsAt(s: string, ts: seq<Token>, rest: string)
    requires Reads(s, ts) && (rest == [] || rest[0] == ' ' || rest[0] == ')')
    ensures Lex(s + rest) == Prepend(ts, Lex(rest))
  {
  }

  lemma PairLex(a: string, aTokens: seq<Token>, b: string, bTokens: seq<Token>, mode: Mode, rest: string)
    requires Lex(a + (Operator(mode) + (b + rest))) == Prepend(aTokens, Lex(Operator(mode) + (b + rest)))
    requires Lex(b + rest) == Prepend(bTokens, Lex(rest))
    ensures Lex(a + Operator(mode) + b + rest) == Prepend(aTokens + [OperatorToken(mode)] + bTokens, Lex(rest))
  {
    assert a + Operator(mode) + b + rest == a + (Operator(mode) + (b + rest));
    LexOperator(mode, b + rest);
    PrependTwice(aTokens, OperatorToken(mode), bTokens, Lex(rest));
  }

  lemma PrependTwice(a: seq<Token>, op: Token, b: seq<Token>, rest: Option<seq<Token>>)
    ensures Prepend(a, Prepend([op], Prepend(b, rest))) == Prepend(a + [op] + b, rest)
  {
    if rest.Some? {
      assert a + ([op] + (b + rest.value)) == a + [op] + b + rest.value;
    }
  }

  lemma ReadsWhole(s: string, ts: seq<Token>)
    requires Reads(s, ts)
    ensures Lex(s) == Some(ts)
  {
    assert s + "" == s && ts + [] == ts;
    assert Lex("") == Some([]);
  }

  function ValueTokenLists(field: string, values: seq<string>): seq<seq<Token>> {
    seq(|values|, i requires 0 <= i < |values| => ValueTokens(field, values[i]))
  }

  function FieldTokens(field: string, values: seq<string>, mode: Mode): seq<Token> {
    var joined := JoinTokens(ValueTokenLists(field, values), OperatorToken(mode));
    if |values| > 1 then [Open] + joined + [Close] else joined
  }

  lemma FieldQueryReads(field: string, values: seq<string>, mode: Mode)
    requires PlainName(field) && values != []
    ensures Reads(FieldQuery(field, values, mode), FieldTokens(field, values, mode))
  {
    forall i | 0 <= i < |values| ensures Reads(ValueQuery(field, values[i]), ValueTokens(field, values[i])) {
      forall rest | rest == [] || rest[0] == ' ' || rest[0] == ')'
        ensures Lex(ValueQuery(field, values[i]) + rest) == Prepend(ValueTokens(field, values[i]), Lex(rest))
      {
        LexValueQuery(field, values[i], rest);
      }
    }
    JoinReads(ValueQueries(field, values), ValueTokenLists(field, values), mode);
    if |values| > 1 {
      ParenthesesRead(Join(ValueQueries(field, values), Operator(mode)),
                      JoinTokens(ValueTokenLists(field, values), OperatorToken(mode)));
    }
  }

  lemma ParenthesesRead(s: string, ts: seq<Token>)
    requires Reads(s, ts)
    ensures Reads("(" + s + ")", [Open] + ts + [Close])
  {
    forall rest | rest == [] || rest[0] == ' ' || rest[0] == ')'
      ensures Lex("(" + s + ")" + rest) == Prepend([Open] + ts + [Close], Lex(rest))
    {
      var closed := ")" + rest;
      assert "(" + s + ")" + rest == "(" + (s + closed);
      LexParenthesis(s + closed);
      LexParenthesis(rest);
      assert closed[0] == ')';
      PrependCons(ts, Close, Lex(rest));
      ConsPrepend(Open, ts + [Close], Lex(rest));
      assert [Open] + (ts + [Close]) == [Open] + ts + [Close];
    }
  }

  lemma ConsPrepend(t: Token, a: seq<Token>, ts: Option<seq<Token>>)
    ensures Cons(t, Prepend(a, ts)) == Prepend([t] + a, ts)
  {
    if ts.Some? {
      assert [t] + (a + ts.value) == [t] + a + ts.value;
    }
  }

  function FieldTokenLists(cf: ContentFilter): seq<seq<Token>> {
    seq(|cf.fields|, i requires 0 <= i < |cf.fields| => FieldTokens(cf.fields[i], cf.values, cf.valueMode))
  }

  lemma LexMatchExpression(cf: ContentFilter)
    requires cf.fields != [] && cf.values != [] && forall f :: f in cf.fields ==> PlainName(f)
    ensures Lex(MatchExpression(cf)) == Some(JoinTokens(FieldTokenLists(cf), OperatorToken(cf.fieldMode)))
  {
    forall i | 0 <= i < |cf.fields| ensures Reads(FieldQueries(cf)[i], FieldTokenLists(cf)[i]) {
      assert cf.fields[i] in cf.fields;
      FieldQueryReads(cf.fields[i], cf.values, cf.valueMode);
    }
    JoinReads(FieldQueries(cf), FieldTokenLists(cf), cf.fieldMode);
    ReadsWhole(MatchExpression(cf), JoinTokens(FieldTokenLists(cf), OperatorToken(cf.fieldMode)));
  }

  // ---- from tokens to queries

  /** Operators group to the left. */
  function Chain(mode: Mode, left: Query, more: seq<Query>): Query
    decreases |more|
  {
    if more == [] then left
    else Chain(mode, if mode == ALL then And(left, more[0]) else Or(left, more[0]), more[1..])
  }

  /** Tokens that read as one operand, whatever follows. */
  ghost predicate Operand(ts: seq<Token>, q: Query) {
    forall rest :: ParsePrimary(ts + rest) == Some((q, rest))
  }

  predicate EndsChain(ts: seq<Token>) {
    ts == [] || ts[0] == Close
  }

  lemma {:induction false} OperandAlone(ts: seq<Token>, q: Query, rest: seq<Token>)
    requires Operand(ts, q) && !StartsWith(rest, NotOp)
    ensures ParseNot(ts + rest) == Some((q, rest))
    ensures !StartsWith(rest, AndOp) ==> ParseAnd(ts + rest) == Some((q, rest))
  {
    assert ParsePrimary(ts + rest) == Some((q, rest));
  }

  function AfterFirst(tokens: seq<seq<Token>>, op: Token, rest: seq<Token>): seq<Token>
    requires tokens != []
  {
    if |tokens| == 1 then rest else [op] + JoinTokens(tokens[1..], op) + rest
  }

  lemma JoinTokensFirst(tokens: seq<seq<Token>>, op: Token, rest: seq<Token>)
    requires tokens != []
    ensures JoinTokens(tokens, op) + rest == tokens[0] + AfterFirst(tokens, op, rest)
  {
  }

  lemma {:induction false} ChainParses(mode: Mode, left: Query, tokens: seq<seq<Token>>, qs: seq<Query>,
                                       rest: seq<Token>)
    requires |tokens| == |qs| > 0 && EndsChain(rest)
    requires forall i :: 0 <= i < |qs| ==> Operand(tokens[i], qs[i])
    ensures var ts := [OperatorToken(mode)] + JoinTokens(tokens, OperatorToken(mode)) + rest;
            (if mode == ALL then MoreAnd(left, ts) else MoreOr(left, ts)) == Some((Chain(mode, left, qs), rest))
    decreases |qs|
  {
    var op := OperatorToken(mode);
    var ts := [op] + JoinTokens(tokens, op) + rest;
    var after := AfterFirst(tokens, op, rest);
    JoinTokensFirst(tokens, op, rest);
    assert ts[1..] == JoinTokens(tokens, op) + rest;
    OperandAlone(tokens[0], qs[0], after);
    var left' := if mode == ALL then And(left, qs[0]) else Or(left, qs[0]);
    if |qs| == 1 {
      assert qs[1..] == [];
      assert Chain(mode, left', []) == left';
    } else {
      ChainParses(mode, left', tokens[1..], qs[1..], rest);
    }
  }

  /** A joined list of operands parses to their chain. */
  lemma JoinParses(mode: Mode, tokens: seq<seq<Token>>, qs: seq<Query>, rest: seq<Token>)
    requires |tokens| == |qs| > 0 && EndsChain(rest)
    requires forall i :: 0 <= i < |qs| ==> Operand(tokens[i], qs[i])
    ensures ParseOr(JoinTokens(tokens, OperatorToken(mode)) + rest) == Some((Chain(mode, qs[0], qs[1..]), rest))
  {
    var op := OperatorToken(mode);
    var after := AfterFirst(tokens, op, rest);
    JoinTokensFirst(tokens, op, rest);
    OperandAlone(tokens[0], qs[0], after);
    if |qs| > 1 {
      ChainParses(mode, qs[0], tokens[1..], qs[1..], rest);
    }
  }

  function ValueAst(field: string, value: string): Query {
    Column(field, Phrase(value))
  }

  function ValueAsts(field: string, values: seq<string>): seq<Query> {
    seq(|values|, i requires 0 <= i < |values| => ValueAst(field, values[i]))
  }

  function FieldAst(field: string, values: seq<string>, mode: Mode): Query
    requires values != []
  {
    Chain(mode, ValueAsts(field, values)[0], ValueAsts(field, values)[1..])
  }

  lemma ValueIsOperand(field: string, value: string)
    ensures Operand(ValueTokens(field, value), ValueAst(field, value))
  {
    forall rest ensures ParsePrimary(ValueTokens(field, value) + rest) == Some((ValueAst(field, value), rest)) {
      var ts := ValueTokens(field, value) + rest;
      assert ts[2..] == [Quoted(value)] + rest;
      assert ts[2..][1..] == rest;
    }
  }

  lemma FieldIsOperand(field: string, values: seq<string>, mode: Mode)
    requires values != []
    ensures Operand(FieldTokens(field, values, mode), FieldAst(field, values, mode))
  {
    var lists, qs := ValueTokenLists(field, values), ValueAsts(field, values);
    forall i | 0 <= i < |values| ensures Operand(lists[i], qs[i]) {
      ValueIsOperand(field, values[i]);
    }
    if |values| == 1 {
      assert qs[1..] == [];
    } else {
      forall rest
        ensures ParsePrimary(FieldTokens(field, values, mode) + rest) == Some((FieldAst(field, values, mode), rest))
      {
        JoinParses(mode, lists, qs, [Close] + rest);
        Parenthesised(JoinTokens(lists, OperatorToken(mode)), FieldAst(field, values, mode), rest);
        assert FieldTokens(field, values, mode) + rest ==
               [Open] + JoinTokens(lists, OperatorToken(mode)) + [Close] + rest;
      }
    }
  }

  lemma Parenthesised(inner: seq<Token>, q: Query, rest: seq<Token>)
    requires ParseOr(inner + ([Close] + rest)) == Some((q, [Close] + rest))
    ensures ParsePrimary([Open] + inner + [Close] + rest) == Some((q, rest))
  {
    var ts := [Open] + inner + [Close] + rest;
    assert ts[1..] == inner + ([Close] + rest);
    assert ([Close] + rest)[1..] == rest;
  }

  function FieldAsts(cf: ContentFilter): seq<Query>
    requires cf.values != []
  {
    seq(|cf.fields|, i requires 0 <= i < |cf.fields| => FieldAst(cf.fields[i], cf.values, cf.valueMode))
  }

  function FilterAst(cf: ContentFilter): Query
    requires cf.fields != [] && cf.values != []
  {
    Chain(cf.fieldMode, FieldAsts(cf)[0], FieldAsts(cf)[1..])
  }

  lemma MatchExpressionParses(cf: ContentFilter)
    requires cf.fields != [] && cf.values != [] && forall f :: f in cf.fields ==> PlainName(f)
    ensures Parse(MatchExpression(cf)) == Some(FilterAst(cf))
  {
    LexMatchExpression(cf);
    var lists, qs := FieldTokenLists(cf), FieldAsts(cf);
    forall i | 0 <= i < |cf.fields| ensures Operand(lists[i], qs[i]) {
      FieldIsOperand(cf.fields[i], cf.values, cf.valueMode);
    }
    JoinParses(cf.fieldMode, lists, qs, []);
    var ts := JoinTokens(lists, OperatorToken(cf.fieldMode));
    assert ts + [] == ts;
  }

  // ---- from queries to meaning

  lemma {:induction false} ChainEval(mode: Mode, left: Query, more: seq<Query>, columns: set<string>,
                                     matches: (string, string) -> bool)
    ensures Eval(Chain(mode, left, more), columns, matches) <==>
            if mode == ALL
            then Eval(left, columns, matches) && forall i :: 0 <= i < |more| ==> Eval(more[i], columns, matches)
            else Eval(left, columns, matches) || exists i :: 0 <= i < |more| && Eval(more[i], columns, matches)
    decreases |more|
  {
    if more != [] {
      var left' := if mode == ALL then And(left, more[0]) else Or(left, more[0]);
      ChainEval(mode, left', more[1..], columns, matches);
      if mode == ALL {
        assert forall i :: 0 < i < |more| ==> more[i] == more[1..][i - 1];
        assert forall i :: 0 <= i < |more| - 1 ==> more[1..][i] == more[i + 1];
      } else if i :| 0 <= i < |more| && Eval(more[i], columns, matches) {
        assert i > 0 ==> more[1..][i - 1] == more[i];
      }
    }
  }

  lemma ChainEvalAll(mode: Mode, qs: seq<Query>, columns: set<string>, matches: (string, string) -> bool)
    requires qs != []
    ensures Eval(Chain(mode, qs[0], qs[1..]), columns, matches) <==>
            if mode == ALL then forall i :: 0 <= i < |qs| ==> Eval(qs[i], columns, matches)
            else exists i :: 0 <= i < |qs| && Eval(qs[i], columns, matches)
  {
    ChainEval(mode, qs[0], qs[1..], columns, matches);
    assert forall i :: 0 < i < |qs| ==> qs[i] == qs[1..][i - 1];
    assert forall i :: 0 <= i < |qs| - 1 ==> qs[1..][i] == qs[i + 1];
  }

  lemma FieldEval(cf: ContentFilter, field: string, matches: (string, string) -> bool)
    requires cf.values != [] && field in FTS_COLUMNS
    ensures Eval(FieldAst(field, cf.values, cf.valueMode), FTS_COLUMNS, matches) <==> ValuesMatch(cf, field, matches)
  {
    var qs := ValueAsts(field, cf.values);
    ChainEvalAll(cf.valueMode, qs, FTS_COLUMNS, matches);
    assert FTS_COLUMNS * {field} == {field};
    forall i | 0 <= i < |qs| ensures Eval(qs[i], FTS_COLUMNS, matches) <==> matches(field, cf.values[i]) {
    }
  }

  /** The compiled MATCH string always parses, and a row matches it exactly when
      all or any of the fields match all or any of the values, whatever characters
      the values hold. */
  lemma ContentFilterCompiles(cf: ContentFilter, matches: (string, string) -> bool)
    requires cf.fields != [] && cf.values != [] && forall f :: f in cf.fields ==> f in CONTENT_FIELDS
    ensures Parse(MatchExpression(cf)).Some?
    ensures Eval(Parse(MatchExpression(cf)).value, FTS_COLUMNS, matches) <==> ContentMatches(cf, matches)
  {
    ContentFieldsArePlain();
    MatchExpressionParses(cf);
    var qs := FieldAsts(cf);
    ChainEvalAll(cf.fieldMode, qs, FTS_COLUMNS, matches);
    forall i | 0 <= i < |qs| ensures Eval(qs[i], FTS_COLUMNS, matches) <==> ValuesMatch(cf, cf.fields[i], matches) {
      assert cf.fields[i] in cf.fields && cf.fields[i] in FTS_COLUMNS;
      FieldEval(cf, cf.fields[i], matches);
    }
  }
}
