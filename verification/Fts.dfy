/** The FTS5 query language, as far as column filters, strings, parentheses and
    the boolean operators go: tokens, parser and meaning (sections 3.1, 3.6 and
    3.7 of the SQLite FTS5 documentation). */
module Fts {
  import opened Wrappers

  datatype Token = Word(text: string) | Quoted(text: string) | Colon | Open | Close | AndOp | OrOp | NotOp

  // ---- tokens

  predicate IsBarewordChar(c: char) {
    || 'A' <= c <= 'Z' || 'a' <= c <= 'z' || '0' <= c <= '9'
    || c == '_' || c as int == 26 || c as int > 127
  }

  predicate IsSpace(c: char) {
    c == ' ' || c == '\t' || c == '\n' || c == '\r'
  }

  /** How many of the leading characters belong to one bareword. */
  function WordLength(s: string): (n: nat)
    ensures n <= |s|
    ensures forall i :: 0 <= i < n ==> IsBarewordChar(s[i])
    ensures n < |s| ==> !IsBarewordChar(s[n])
  {
    if s != [] && IsBarewordChar(s[0]) then 1 + WordLength(s[1..]) else 0
  }

  /** Operators are case-sensitive barewords. */
  function WordToken(w: string): Token {
    if w == "AND" then AndOp else if w == "OR" then OrOp else if w == "NOT" then NotOp else Word(w)
  }

  /** The text up to the closing quote, a doubled quote standing for one, and what
      follows the closing quote. */
  function ReadQuoted(s: string): (r: Option<(string, string)>)
    ensures r.Some? ==> |r.value.1| < |s|
  {
    if s == [] then None
    else if s[0] == '"' && (|s| == 1 || s[1] != '"') then Some(("", s[1..]))
    else
      var skip := if s[0] == '"' then 2 else 1;
      match ReadQuoted(s[skip..])
      case None => None
      case Some((text, rest)) => Some(([s[0]] + text, rest))
  }

  function Cons(t: Token, ts: Option<seq<Token>>): Option<seq<Token>> {
    if ts.Some? then Some([t] + ts.value) else None
  }

  function Prepend(a: seq<Token>, ts: Option<seq<Token>>): Option<seq<Token>> {
    if ts.Some? then Some(a + ts.value) else None
  }

  function Lex(s: string): Option<seq<Token>>
    decreases |s|
  {
    if s == [] then Some([])
    else if IsSpace(s[0]) then Lex(s[1..])
    else if s[0] == ':' then Cons(Colon, Lex(s[1..]))
    else if s[0] == '(' then Cons(Open, Lex(s[1..]))
    else if s[0] == ')' then Cons(Close, Lex(s[1..]))
    else if s[0] == '"' then
      match ReadQuoted(s[1..])
      case None => None
      case Some((text, rest)) => Cons(Quoted(text), Lex(rest))
    else
      var n := WordLength(s);
      if n == 0 then None else Cons(WordToken(s[..n]), Lex(s[n..]))
  }

  // ---- queries

  datatype Query =
    | Phrase(text: string)
    | Column(name: string, query: Query)
    | And(left: Query, right: Query)
    | Or(left: Query, right: Query)
    | Not(left: Query, right: Query)

  type Parsed = Option<(Query, seq<Token>)>

  predicate StartsWith(ts: seq<Token>, t: Token) {
    ts != [] && ts[0] == t
  }

  predicate IsText(ts: seq<Token>, i: nat) {
    i < |ts| && (ts[i].Word? || ts[i].Quoted?)
  }

  /** NOT binds tighter than AND, AND tighter than OR; all group to the left. */
  function ParseOr(ts: seq<Token>): (r: Parsed)
    ensures r.Some? ==> |r.value.1| < |ts|
    decreases |ts|, 3
  {
    match ParseAnd(ts)
    case None => None
    case Some((q, rest)) => MoreOr(q, rest)
  }

  function MoreOr(left: Query, ts: seq<Token>): (r: Parsed)
    ensures r.Some? ==> |r.value.1| <= |ts|
    decreases |ts|, 4
  {
    if !StartsWith(ts, OrOp) then Some((left, ts))
    else match ParseAnd(ts[1..])
    case None => None
    case Some((q, rest)) => MoreOr(Or(left, q), rest)
  }

  function ParseAnd(ts: seq<Token>): (r: Parsed)
    ensures r.Some? ==> |r.value.1| < |ts|
    decreases |ts|, 2
  {
    match ParseNot(ts)
    case None => None
    case Some((q, rest)) => MoreAnd(q, rest)
  }

  function MoreAnd(left: Query, ts: seq<Token>): (r: Parsed)
    ensures r.Some? ==> |r.value.1| <= |ts|
    decreases |ts|, 4
  {
    if !StartsWith(ts, AndOp) then Some((left, ts))
    else match ParseNot(ts[1..])
    case None => None
    case Some((q, rest)) => MoreAnd(And(left, q), rest)
  }

  function ParseNot(ts: seq<Token>): (r: Parsed)
    ensures r.Some? ==> |r.value.1| < |ts|
    decreases |ts|, 1
  {
    match ParsePrimary(ts)
    case None => None
    case Some((q, rest)) => MoreNot(q, rest)
  }

  function MoreNot(left: Query, ts: seq<Token>): (r: Parsed)
    ensures r.Some? ==> |r.value.1| <= |ts|
    decreases |ts|, 4
  {
    if !StartsWith(ts, NotOp) then Some((left, ts))
    else match ParsePrimary(ts[1..])
    case None => None
    case Some((q, rest)) => MoreNot(Not(left, q), rest)
  }

  /** A string, a parenthesised query, or either of them behind a column filter. */
  function ParsePrimary(ts: seq<Token>): (r: Parsed)
    ensures r.Some? ==> |r.value.1| < |ts|
    decreases |ts|, 0
  {
    if IsText(ts, 0) && |ts| > 1 && ts[1] == Colon then
      match ParseUnfiltered(ts[2..])
      case None => None
      case Some((q, rest)) => Some((Column(ts[0].text, q), rest))
    else ParseUnfiltered(ts)
  }

  function ParseUnfiltered(ts: seq<Token>): (r: Parsed)
    ensures r.Some? ==> |r.value.1| < |ts|
    decreases |ts|, 0, 0
  {
    if IsText(ts, 0) then Some((Phrase(ts[0].text), ts[1..]))
    else if StartsWith(ts, Open) then
      match ParseOr(ts[1..])
      case None => None
      case Some((q, rest)) => if StartsWith(rest, Close) then Some((q, rest[1..])) else None
    else None
  }

  /** The whole text must be one query. */
  function Parse(s: string): Option<Query> {
    match Lex(s)
    case None => None
    case Some(ts) =>
      match ParseOr(ts)
      case None => None
      case Some((q, rest)) => if rest == [] then Some(q) else None
  }

  // ---- meaning

  /** Whether a row matches, given the columns searched and which column of the
      row matches which string. */
  predicate Eval(q: Query, columns: set<string>, matches: (string, string) -> bool) {
    match q
    case Phrase(text) => exists c :: c in columns && matches(c, text)
    case Column(name, q) => Eval(q, columns * {name}, matches)
    case And(l, r) => Eval(l, columns, matches) && Eval(r, columns, matches)
    case Or(l, r) => Eval(l, columns, matches) || Eval(r, columns, matches)
    case Not(l, r) => Eval(l, columns, matches) && !Eval(r, columns, matches)
  }
}
