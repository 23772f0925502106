/** What a blob store means: the versions and the thumbnail held for each card,
    and the answers its operations give, for both backends and for any tree of
    nested transactions. */
module BlobSpec {
  import opened Wrappers
  import opened Keys
  import opened Versions

  /** A card image; only its embedded tags are ever looked into. */
  datatype Card = Card(body: string, tags: seq<string>)

  /** A card handed to Put, with what the image library will make of it. */
  datatype Upload = Upload(card: Card, rawJson: bool, thumbnail: Option<string>, encodes: bool)

  datatype State = State(cards: map<(RID, Version), Card>, thumbs: map<RID, string>)

  const EMPTY := State(map[], map[])

  datatype Backend = Pebble(max: int) | Sqlite(max: int)

  /** SQLite's driver refuses unsigned integers whose top bit is set. */
  predicate Accepts(be: Backend, rid: RID) {
    be.Pebble? || rid < SIGN_BIT
  }

  ghost function VersionsOf(st: State, rid: RID): set<int> {
    set p | p in st.cards && p.0 == rid :: p.1
  }

  /** The RIDs a backend lists: pblob meets a card at any of its keys, sqlblob
      looks at the cards table only. */
  ghost function RidsOf(be: Backend, st: State): set<int> {
    (set p | p in st.cards :: p.0) + (if be.Pebble? then st.thumbs.Keys else {})
  }

  ghost function KeepVersions(st: State, rid: RID, keep: set<int>): State {
    st.(cards := map p | p in st.cards && (p.0 != rid || p.1 in keep) :: st.cards[p])
  }

  ghost function DropVersions(st: State, rid: RID, lower: Version, upper: Version): State {
    KeepVersions(st, rid, set v | v in VersionsOf(st, rid) && !(lower <= v < upper))
  }

  ghost function DropCard(st: State, rid: RID): State {
    State(map p | p in st.cards && p.0 != rid :: st.cards[p], st.thumbs - {rid})
  }

  // ---- Put

  /** Pruning before the insert: pblob keeps the newest max - 1 versions, and any
      negative one, because its range delete starts at version 0. */
  ghost function PebblePrune(max: int, st: State, rid: RID): State {
    var held := VersionsOf(st, rid);
    if |held| < max then st
    else KeepVersions(st, rid, set v | v in held && (v < 0 || v in Newest(held, max - 1)))
  }

  ghost function PebblePut(max: int, st: State, rid: RID, v: Version, up: Upload): (State, Outcome) {
    if !up.rawJson then (st, Failed)
    else if (rid, v) !in st.cards && max == 1 && VersionsOf(st, rid) != {} then (st, Panicked)
    else
      var pruned := if (rid, v) in st.cards then st else PebblePrune(max, st, rid);
      Store(pruned, rid, v, up)
  }

  /** The thumbnail is written first, the image only when it can be encoded. */
  ghost function Store(st: State, rid: RID, v: Version, up: Upload): (State, Outcome) {
    if up.thumbnail.None? then (st, Failed)
    else
      var shown := st.(thumbs := st.thumbs[rid := up.thumbnail.value]);
      if !up.encodes then (shown, Failed)
      else (shown.(cards := shown.cards[(rid, v) := up.card]), Done)
  }

  /** sqlblob inserts first and then keeps the newest max versions. */
  ghost function SqlitePut(max: int, st: State, rid: RID, v: Version, up: Upload): (State, Outcome) {
    if !up.rawJson || rid >= SIGN_BIT then (st, Failed)
    else
      var (stored, outcome) := Store(st, rid, v, up);
      if outcome == Done
      then (KeepVersions(stored, rid, Newest(VersionsOf(stored, rid), max)), Done)
      else (stored, outcome)
  }

  ghost function Put(be: Backend, st: State, rid: RID, v: Version, up: Upload): (State, Outcome) {
    match be
    case Pebble(max) => PebblePut(max, st, rid, v, up)
    case Sqlite(max) => SqlitePut(max, st, rid, v, up)
  }

  predicate Storable(up: Upload) {
    up.rawJson && up.thumbnail.Some? && up.encodes
  }

  /** Put succeeds exactly on storable cards the backend accepts, unless pblob is
      configured to hold one version only and already holds a different one. */
  lemma PutOutcome(be: Backend, st: State, rid: RID, v: Version, up: Upload)
    requires be.max >= 1
    ensures Put(be, st, rid, v, up).1 == Done <==>
            Storable(up) && Accepts(be, rid) && !(be == Pebble(1) && VersionsOf(st, rid) != {} && (rid, v) !in st.cards)
    ensures Put(be, st, rid, v, up).1 == Panicked <==>
            be == Pebble(1) && up.rawJson && VersionsOf(st, rid) != {} && (rid, v) !in st.cards
  {
  }

  lemma KeptVersions(st: State, rid: RID, keep: set<int>)
    ensures VersionsOf(KeepVersions(st, rid, keep), rid) == VersionsOf(st, rid) * keep
    ensures forall r: RID :: r != rid ==> VersionsOf(KeepVersions(st, rid, keep), r) == VersionsOf(st, r)
  {
    var st' := KeepVersions(st, rid, keep);
    forall v | v in VersionsOf(st, rid) * keep ensures v in VersionsOf(st', rid) {
      assert (rid, v) in st'.cards;
    }
    forall r: RID | r != rid ensures VersionsOf(st', r) == VersionsOf(st, r) {
      forall v | v in VersionsOf(st, r) ensures v in VersionsOf(st', r) {
        assert (r, v) in st'.cards;
      }
    }
  }

  lemma StoredVersions(st: State, rid: RID, v: Version, up: Upload)
    requires Store(st, rid, v, up).1 == Done
    ensures VersionsOf(Store(st, rid, v, up).0, rid) == VersionsOf(st, rid) + {v}
    ensures forall r: RID :: r != rid ==> VersionsOf(Store(st, rid, v, up).0, r) == VersionsOf(st, r)
  {
    var st' := Store(st, rid, v, up).0;
    assert (rid, v) in st'.cards;
    forall w | w in VersionsOf(st, rid) ensures w in VersionsOf(st', rid) {
      assert (rid, w) in st'.cards;
    }
    forall r: RID | r != rid ensures VersionsOf(st', r) == VersionsOf(st, r) {
      forall w | w in VersionsOf(st, r) ensures w in VersionsOf(st', r) {
        assert (r, w) in st'.cards;
      }
    }
  }

  /** The part of pblob's pruning that its range delete cannot reach. */
  ghost predicate PruningReaches(be: Backend, st: State, rid: RID) {
    be.Pebble? ==> forall w :: w in VersionsOf(st, rid) && w < 0 ==> w in Newest(VersionsOf(st, rid), be.max - 1)
  }

  ghost function Policy(be: Backend, held: set<int>, v: int): set<int> {
    match be
    case Pebble(max) => PruneThenAdd(held, max, v)
    case Sqlite(max) => AddThenPrune(held, max, v)
  }

  /** The version set a successful Put leaves: sqlblob always follows its pruning
      policy, pblob follows its own exactly when the version was known (nothing is
      pruned then) or no negative version was due to go. */
  lemma PutVersions(be: Backend, st: State, rid: RID, v: Version, up: Upload)
    requires be.max >= 1 && Put(be, st, rid, v, up).1 == Done
    ensures var st' := Put(be, st, rid, v, up).0;
            VersionsOf(st', rid) == Policy(be, VersionsOf(st, rid), v)
            <==> (rid, v) in st.cards || PruningReaches(be, st, rid)
    ensures forall r: RID :: r != rid ==> VersionsOf(Put(be, st, rid, v, up).0, r) == VersionsOf(st, r)
    ensures be.Pebble? ==> v in VersionsOf(Put(be, st, rid, v, up).0, rid)
  {
    match be
    case Sqlite(max) => SqlitePutVersions(max, st, rid, v, up);
    case Pebble(max) => PebblePutVersions(max, st, rid, v, up);
  }

  lemma SqlitePutVersions(max: int, st: State, rid: RID, v: Version, up: Upload)
    requires SqlitePut(max, st, rid, v, up).1 == Done
    ensures VersionsOf(SqlitePut(max, st, rid, v, up).0, rid) == AddThenPrune(VersionsOf(st, rid), max, v)
    ensures forall r: RID :: r != rid ==> VersionsOf(SqlitePut(max, st, rid, v, up).0, r) == VersionsOf(st, r)
  {
    StoredVersions(st, rid, v, up);
    KeptVersions(Store(st, rid, v, up).0, rid, AddThenPrune(VersionsOf(st, rid), max, v));
  }

  lemma PrunedVersions(max: int, st: State, rid: RID)
    requires max >= 1
    ensures var held := VersionsOf(st, rid);
            VersionsOf(PebblePrune(max, st, rid), rid) == Newest(held, max - 1) + set w | w in held && w < 0
    ensures forall r: RID :: r != rid ==> VersionsOf(PebblePrune(max, st, rid), r) == VersionsOf(st, r)
  {
    var held := VersionsOf(st, rid);
    if |held| < max {
      NewestCount(held, max - 1);
    } else {
      KeptVersions(st, rid, set w | w in held && (w < 0 || w in Newest(held, max - 1)));
    }
  }

  lemma PebblePutVersions(max: int, st: State, rid: RID, v: Version, up: Upload)
    requires max >= 1 && PebblePut(max, st, rid, v, up).1 == Done
    ensures var held := VersionsOf(st, rid);
            VersionsOf(PebblePut(max, st, rid, v, up).0, rid) == PruneThenAdd(held, max, v)
            <==> (rid, v) in st.cards || forall w :: w in held && w < 0 ==> w in Newest(held, max - 1)
    ensures forall r: RID :: r != rid ==> VersionsOf(PebblePut(max, st, rid, v, up).0, r) == VersionsOf(st, r)
    ensures v in VersionsOf(PebblePut(max, st, rid, v, up).0, rid)
  {
    var held := VersionsOf(st, rid);
    if (rid, v) in st.cards {
      assert v in held;
      StoredVersions(st, rid, v, up);
    } else {
      assert v !in held;
      PrunedVersions(max, st, rid);
      StoredVersions(PebblePrune(max, st, rid), rid, v, up);
      var after := VersionsOf(PebblePut(max, st, rid, v, up).0, rid);
      assert after == Newest(held, max - 1) + (set w | w in held && w < 0) + {v};
      forall w | w in held && w < 0 ensures w in after {
      }
    }
  }

  /** The versions a successful Put of version v leaves of those held before. */
  ghost function Kept(be: Backend, held: set<int>, v: int): set<int> {
    match be
    case Sqlite(max) => AddThenPrune(held, max, v)
    case Pebble(max) =>
      if v in held || |held| < max then held + {v}
      else Newest(held, max - 1) + (set w | w in held && w < 0) + {v}
  }

  lemma PutKeeps(be: Backend, st: State, rid: RID, v: Version, up: Upload)
    requires be.max >= 1 && Put(be, st, rid, v, up).1 == Done
    ensures VersionsOf(Put(be, st, rid, v, up).0, rid) == Kept(be, VersionsOf(st, rid), v)
    ensures forall r: RID :: r != rid ==> VersionsOf(Put(be, st, rid, v, up).0, r) == VersionsOf(st, r)
  {
    PutVersions(be, st, rid, v, up);
    var held := VersionsOf(st, rid);
    assert (rid, v) in st.cards <==> v in held;
    if be.Pebble? {
      var pruned := if v in held then st else PebblePrune(be.max, st, rid);
      StoredVersions(pruned, rid, v, up);
      if v !in held && |held| >= be.max {
        PrunedVersions(be.max, st, rid);
      }
    }
  }

  /** Every other card's images and thumbnail survive a Put, and so does every
      version of this card that is still listed. */
  lemma PutFrame(be: Backend, st: State, rid: RID, v: Version, up: Upload)
    ensures var st' := Put(be, st, rid, v, up).0;
            && (forall p :: p in st'.cards && p != (rid, v) ==> p in st.cards && st'.cards[p] == st.cards[p])
            && (forall p :: p in st.cards && p.0 != rid ==> p in st'.cards)
            && (forall r :: r != rid ==> (r in st'.thumbs <==> r in st.thumbs))
            && (forall r :: r != rid && r in st.thumbs ==> st'.thumbs[r] == st.thumbs[r])
    ensures var (st', outcome) := Put(be, st, rid, v, up);
            outcome == Done ==>
              && rid in st'.thumbs && st'.thumbs[rid] == up.thumbnail.value
              && ((rid, v) in st'.cards ==> st'.cards[(rid, v)] == up.card)
  {
  }

  /** When the backends leave the same versions, by a test on what is held before. */
  ghost predicate SameVersionsKept(max: int, held: set<int>, v: int) {
    || v in held || |held| < max
    || (if max == 1 then forall w :: w in held ==> v < w
        else (exists w :: w in held && w < v) && forall w :: w in held ==> w >= 0)
  }

  /** Started from the same at most max versions, a Put leaves the same versions in
      both backends exactly when the version was known, or there was room, or it is
      newer than the oldest one held and none held is negative. With one version
      configured pblob panics and keeps what it has; sqlblob keeps the same only if
      the new version is older. */
  lemma BackendsAgree(max: int, st: State, rid: RID, v: Version, up: Upload)
    requires max >= 1 && |VersionsOf(st, rid)| <= max && Storable(up) && rid < SIGN_BIT
    ensures VersionsOf(Put(Pebble(max), st, rid, v, up).0, rid) == VersionsOf(Put(Sqlite(max), st, rid, v, up).0, rid)
            <==> SameVersionsKept(max, VersionsOf(st, rid), v)
  {
    var held := VersionsOf(st, rid);
    assert (rid, v) in st.cards <==> v in held;
    PutVersions(Sqlite(max), st, rid, v, up);
    if v in held || |held| < max {
      PutVersions(Pebble(max), st, rid, v, up);
      RoomOrKnown(max, held, v);
    } else if max == 1 {
      OneVersionHeld(held, v);
    } else {
      PutKeeps(Pebble(max), st, rid, v, up);
      FullPolicies(max, held, v);
    }
  }

  lemma RoomOrKnown(max: int, held: set<int>, v: int)
    requires max >= 1 && |held| <= max && (v in held || |held| < max)
    ensures PruneThenAdd(held, max, v) == AddThenPrune(held, max, v)
    ensures v in held || Newest(held, max - 1) == held
  {
    if v in held {
      assert held + {v} == held;
      NewestCount(held, max);
    } else {
      NewestCount(held, max - 1);
      NewestCount(held + {v}, max);
    }
  }

  lemma OneVersionHeld(held: set<int>, v: int)
    requires |held| == 1 && v !in held
    ensures held == AddThenPrune(held, 1, v) <==> forall w :: w in held ==> v < w
  {
    SavedVersionSurvives(held, 1, v);
    if forall w :: w in held ==> v < w {
      TooOldIsDropped(held, 1, v);
    }
  }

  lemma FullPolicies(max: int, held: set<int>, v: int)
    requires max >= 2 && |held| == max && v !in held
    ensures Newest(held, max - 1) + (set w | w in held && w < 0) + {v} == AddThenPrune(held, max, v)
            <==> (exists w :: w in held && w < v) && forall w :: w in held ==> w >= 0
  {
    PoliciesAgree(held, max, v);
    if negative :| negative in held && negative < 0 {
      NegativeStays(max, held, negative);
      NewestCount(held + {v}, max);
    } else {
      assert (set w | w in held && w < 0) == {};
      assert Newest(held, max - 1) + {} == Newest(held, max - 1);
    }
  }

  /** A negative version in a full set makes the set that pblob keeps one too large. */
  lemma NegativeStays(max: int, held: set<int>, negative: int)
    requires max >= 2 && |held| == max && negative in held && negative < 0
    ensures Newest(held, max - 1) + (set w | w in held && w < 0) == held
  {
    LeastExists(held);
    var oldest :| oldest in held && forall w :: w in held ==> oldest <= w;
    forall w | w in held && w != oldest ensures w in Newest(held, max - 1) {
      AboveOldest(held, oldest, w);
    }
  }

  /** The two backends do differ: saving a version older than a full set. */
  lemma BackendsDiffer(st: State, rid: RID, up: Upload)
    requires VersionsOf(st, rid) == {5, 6} && Storable(up) && rid < SIGN_BIT
    ensures VersionsOf(Put(Sqlite(2), st, rid, 4, up).0, rid) == {5, 6}
    ensures VersionsOf(Put(Pebble(2), st, rid, 4, up).0, rid) == {4, 6}
  {
    var held := VersionsOf(st, rid);
    assert (rid, 4) in st.cards ==> 4 in held;
    PutVersions(Pebble(2), st, rid, 4, up);
    PutVersions(Sqlite(2), st, rid, 4, up);
    TooOldIsDropped(held, 2, 4);
    NewestOfFiveSix();
  }

  lemma NewestOfFiveSix()
    ensures Newest({5, 6}, 1) == {6}
  {
    assert Ascending([5, 6]) && Elements([5, 6]) == {5, 6};
    NewestOfAscending([5, 6], 1);
    assert [5, 6][1..] == [6];
  }

  /** It happens: a full pblob card with a negative version keeps it, and holds one
      version more than configured. */
  lemma NegativeVersionStays(st: State, rid: RID, up: Upload)
    requires VersionsOf(st, rid) == {-1, 5} && Storable(up)
    ensures VersionsOf(Put(Pebble(2), st, rid, 6, up).0, rid) == {-1, 5, 6}
  {
    var held := VersionsOf(st, rid);
    assert (rid, 6) in st.cards ==> 6 in held;
    PutOutcome(Pebble(2), st, rid, 6, up);
    PutKeeps(Pebble(2), st, rid, 6, up);
    NegativeStays(2, held, -1);
  }

  /** A Put leaves a card with more versions than configured exactly when pblob adds
      to a full card that holds a negative version. */
  lemma PutStaysBounded(be: Backend, st: State, rid: RID, v: Version, up: Upload)
    requires be.max >= 1 && |VersionsOf(st, rid)| <= be.max && Put(be, st, rid, v, up).1 == Done
    ensures |VersionsOf(Put(be, st, rid, v, up).0, rid)| <= be.max
            <==> be.Sqlite? || (rid, v) in st.cards || |VersionsOf(st, rid)| < be.max
                 || forall w :: w in VersionsOf(st, rid) ==> w >= 0
  {
    PutKeeps(be, st, rid, v, up);
    PutOutcome(be, st, rid, v, up);
    assert (rid, v) in st.cards <==> v in VersionsOf(st, rid);
    KeptBounded(be, VersionsOf(st, rid), v);
  }

  lemma KeptBounded(be: Backend, held: set<int>, v: int)
    requires be.max >= 1 && |held| <= be.max && (be == Pebble(1) ==> held == {} || v in held)
    ensures |Kept(be, held, v)| <= be.max
            <==> be.Sqlite? || v in held || |held| < be.max || forall w :: w in held ==> w >= 0
  {
    PoliciesBounded(held, be.max, v);
    if be.Pebble? {
      if v in held {
        assert held + {v} == held;
      } else if |held| == be.max {
        FullCardGrows(be.max, held, v);
      }
    }
  }

  lemma FullCardGrows(max: int, held: set<int>, v: int)
    requires max >= 2 && |held| == max && v !in held
    ensures |Newest(held, max - 1) + (set w | w in held && w < 0) + {v}| <= max <==> forall w :: w in held ==> w >= 0
  {
    if negative :| negative in held && negative < 0 {
      NegativeStays(max, held, negative);
    } else {
      NewestCount(held, max - 1);
      assert (set w | w in held && w < 0) == {};
      assert Newest(held, max - 1) + {} == Newest(held, max - 1);
    }
  }

  // ---- histories: any tree of calls

  datatype Call =
    | PutCard(rid: RID, version: Version, up: Upload)
    | DeleteVersions(rid: RID, lower: Version, upper: Version)
    | Delete(rid: RID)
    | Versions(rid: RID)
    | VersionExists(rid: RID, version: Version)
    | ListRIDs
    | WithTx(body: seq<Call>)  // the calls its function makes, stopping at the first error
    | Ignoring(call: Call)     // a call whose error the function does not pass on

  predicate IsLeaf(c: Call) {
    !c.WithTx? && !c.Ignoring?
  }

  datatype Answer =
    | Wrote(outcome: Outcome)
    | VersionList(versions: seq<int>)
    | Exists(yes: bool)
    | ReadError
    | RidList(rids: seq<int>)

  datatype Result = Result(state: State, answers: seq<Answer>, outcome: Outcome)

  function Forgive(outcome: Outcome): Outcome {
    if outcome == Failed then Done else outcome
  }

  ghost function Leaf(be: Backend, st: State, c: Call): Result
    requires IsLeaf(c)
  {
    match c
    case PutCard(rid, v, up) =>
      var (st', outcome) := Put(be, st, rid, v, up);
      Result(st', [Wrote(outcome)], outcome)
    case DeleteVersions(rid, lower, upper) =>
      if Accepts(be, rid) then Result(DropVersions(st, rid, lower, upper), [Wrote(Done)], Done)
      else Result(st, [Wrote(Failed)], Failed)
    case Delete(rid) =>
      if Accepts(be, rid) then Result(DropCard(st, rid), [Wrote(Done)], Done)
      else Result(st, [Wrote(Failed)], Failed)
    case Versions(rid) =>
      Result(st, [VersionList(if Accepts(be, rid) then Listed(VersionsOf(st, rid)) else [])], Done)
    case VersionExists(rid, v) =>
      if Accepts(be, rid) then Result(st, [Exists((rid, v) in st.cards)], Done)
      else Result(st, [ReadError], Failed)
    case ListRIDs =>
      Result(st, [RidList(Listed(RidsOf(be, st)))], Done)
  }

  /** A call made inside an open transaction: nested WithTx adds no boundary. */
  ghost function Inside(be: Backend, st: State, c: Call): Result
    decreases c, 1
  {
    match c
    case WithTx(body) => Body(be, st, body)
    case Ignoring(d) => var r := Inside(be, st, d); r.(outcome := Forgive(r.outcome))
    case _ => Leaf(be, st, c)
  }

  ghost function Body(be: Backend, st: State, body: seq<Call>): Result
    decreases body, 0
  {
    if body == [] then Result(st, [], Done)
    else
      var first := Inside(be, st, body[0]);
      if first.outcome != Done then first
      else
        var rest := Body(be, first.state, body[1..]);
        rest.(answers := first.answers + rest.answers)
  }

  /** A call made outside any transaction commits as a whole or not at all. */
  ghost function Outside(be: Backend, st: State, c: Call): Result
    decreases c
  {
    if c.Ignoring? then
      var r := Outside(be, st, c.call);
      r.(outcome := Forgive(r.outcome))
    else
      var r := Inside(be, st, c);
      if r.outcome == Done then r else r.(state := st)
  }

  // ---- nesting leaves no trace

  /** The leaf calls a tree makes, in order, up to the first error that is passed on. */
  ghost function Trace(be: Backend, st: State, c: Call): seq<Call>
    decreases c, 1
  {
    match c
    case WithTx(body) => BodyTrace(be, st, body)
    case Ignoring(d) => Trace(be, st, d)
    case _ => [c]
  }

  ghost function BodyTrace(be: Backend, st: State, body: seq<Call>): seq<Call>
    decreases body, 0
  {
    if body == [] then []
    else
      var first := Inside(be, st, body[0]);
      Trace(be, st, body[0]) +
      if first.outcome == Done then BodyTrace(be, first.state, body[1..]) else []
  }

  ghost predicate AllLeaves(cs: seq<Call>) {
    forall c :: c in cs ==> IsLeaf(c)
  }

  ghost function RunLeaves(be: Backend, st: State, cs: seq<Call>): State
    requires AllLeaves(cs)
    decreases |cs|
  {
    if cs == [] then st else RunLeaves(be, Leaf(be, st, cs[0]).state, cs[1..])
  }

  /** What leaf calls answer, each run on the state the earlier ones left. */
  ghost function LeafAnswers(be: Backend, st: State, cs: seq<Call>): seq<Answer>
    requires AllLeaves(cs)
    decreases |cs|
  {
    if cs == [] then []
    else
      var first := Leaf(be, st, cs[0]);
      first.answers + LeafAnswers(be, first.state, cs[1..])
  }

  lemma {:induction false} RunLeavesAppend(be: Backend, st: State, a: seq<Call>, b: seq<Call>)
    requires AllLeaves(a) && AllLeaves(b)
    ensures AllLeaves(a + b)
    ensures RunLeaves(be, st, a + b) == RunLeaves(be, RunLeaves(be, st, a), b)
    decreases |a|
  {
    if a == [] {
      assert a + b == b;
    } else {
      assert (a + b)[1..] == a[1..] + b;
      RunLeavesAppend(be, Leaf(be, st, a[0]).state, a[1..], b);
    }
  }

  lemma {:induction false} LeafAnswersAppend(be: Backend, st: State, a: seq<Call>, b: seq<Call>)
    requires AllLeaves(a) && AllLeaves(b)
    ensures AllLeaves(a + b)
    ensures LeafAnswers(be, st, a + b) == LeafAnswers(be, st, a) + LeafAnswers(be, RunLeaves(be, st, a), b)
    decreases |a|
  {
    if a == [] {
      assert a + b == b;
    } else {
      var first := Leaf(be, st, a[0]);
      assert (a + b)[1..] == a[1..] + b && (a + b)[0] == a[0];
      LeafAnswersAppend(be, first.state, a[1..], b);
      assert LeafAnswers(be, st, a + b) == first.answers + LeafAnswers(be, first.state, a[1..] + b);
    }
  }

  lemma {:induction false} TraceRuns(be: Backend, st: State, c: Call)
    ensures AllLeaves(Trace(be, st, c))
    ensures Inside(be, st, c).state == RunLeaves(be, st, Trace(be, st, c))
    ensures Inside(be, st, c).answers == LeafAnswers(be, st, Trace(be, st, c))
    decreases c, 1
  {
    match c
    case WithTx(body) => BodyTraceRuns(be, st, body);
    case Ignoring(d) => TraceRuns(be, st, d);
    case _ =>
      assert [c][1..] == [];
      assert RunLeaves(be, Leaf(be, st, c).state, []) == Leaf(be, st, c).state;
      assert LeafAnswers(be, Leaf(be, st, c).state, []) == [];
  }

  lemma {:induction false} BodyTraceRuns(be: Backend, st: State, body: seq<Call>)
    ensures AllLeaves(BodyTrace(be, st, body))
    ensures Body(be, st, body).state == RunLeaves(be, st, BodyTrace(be, st, body))
    ensures Body(be, st, body).answers == LeafAnswers(be, st, BodyTrace(be, st, body))
    decreases body, 0
  {
    if body != [] {
      var first := Inside(be, st, body[0]);
      TraceRuns(be, st, body[0]);
      if first.outcome == Done {
        BodyTraceRuns(be, first.state, body[1..]);
        RunLeavesAppend(be, st, Trace(be, st, body[0]), BodyTrace(be, first.state, body[1..]));
        LeafAnswersAppend(be, st, Trace(be, st, body[0]), BodyTrace(be, first.state, body[1..]));
      } else {
        assert BodyTrace(be, st, body) == Trace(be, st, body[0]);
      }
    }
  }

  /** For any tree of nested transactions: if the outermost function succeeds the
      committed state is that of running its leaf calls in order, and otherwise it is
      the state before; either way every call inside answers on what the earlier
      calls of the tree have written. */
  lemma NestedTransactions(be: Backend, st: State, body: seq<Call>)
    ensures AllLeaves(BodyTrace(be, st, body))
    ensures Outside(be, st, WithTx(body)).state ==
            if Body(be, st, body).outcome == Done then RunLeaves(be, st, BodyTrace(be, st, body)) else st
    ensures Outside(be, st, WithTx(body)).answers == LeafAnswers(be, st, BodyTrace(be, st, body))
  {
    BodyTraceRuns(be, st, body);
  }
}
