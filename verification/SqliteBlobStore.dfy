/** sqlblob: a blob store over two tables, one row per (rid, version) and one
    thumbnail per rid. */
module SqliteBlobStore {
  import opened Wrappers
  import opened Keys
  import opened Versions
  import opened BlobSpec

  const DEFAULT_MAX_VERSIONS := 5

  /** SELECT DISTINCT column ... ORDER BY column, given the values selected. */
  method SelectOrdered(column: set<int>) returns (rows: seq<int>)
    ensures rows == Listed(column)
  {
    var rest := column;
    rows := [];
    while rest != {}
      invariant Ascending(rows)
      invariant forall v :: v in column <==> v in rows || v in rest
      invariant forall i, v :: 0 <= i < |rows| && v in rest ==> rows[i] < v
      decreases |rest|
    {
      LeastExists(rest);
      var least :| least in rest && forall v :: v in rest ==> least <= v;
      rows := rows + [least];
      rest := rest - {least};
    }
    forall v ensures v in Elements(rows) <==> v in column {
    }
    assert Elements(rows) == column;
    ListedUnique(rows);
  }

  lemma VersionIsHeld(st: State, rid: RID)
    ensures forall p :: p in st.cards && p.0 == rid ==> p.1 in VersionsOf(st, rid)
  {
  }

  lemma CutKeepsNewest(st: State, rid: RID, max: int, cut: int)
    requires forall v :: v in Newest(VersionsOf(st, rid), max) <==> v in VersionsOf(st, rid) && cut <= v
    ensures KeepVersions(st, rid, Newest(VersionsOf(st, rid), max)) ==
            st.(cards := map p | p in st.cards && !(p.0 == rid && p.1 < cut) :: st.cards[p])
  {
    VersionIsHeld(st, rid);
  }

  lemma NothingToPrune(st: State, rid: RID, max: int)
    requires 0 <= max && |VersionsOf(st, rid)| <= max
    ensures KeepVersions(st, rid, Newest(VersionsOf(st, rid), max)) == st
  {
    VersionIsHeld(st, rid);
    NewestCount(VersionsOf(st, rid), max);
    assert KeepVersions(st, rid, VersionsOf(st, rid)).cards == st.cards;
  }

  class Store {
    const maxVersions: int
    var db: State   // what is committed
    var tx: State   // what the open transaction sees
    var isTransaction: bool

    ghost predicate Valid()
      reads this
    {
      maxVersions >= 1
    }

    function Current(): State
      reads this
    {
      if isTransaction then tx else db
    }

    ghost function Kind(): Backend {
      Sqlite(maxVersions)
    }

    constructor (max: int)
      ensures Valid() && !isTransaction && db == EMPTY
      ensures maxVersions == if max <= 0 then DEFAULT_MAX_VERSIONS else max
    {
      maxVersions := if max <= 0 then DEFAULT_MAX_VERSIONS else max;
      db := EMPTY;
      tx := EMPTY;
      isTransaction := false;
    }

    method BeginTx() returns (outer: bool)
      requires Valid()
      modifies this
      ensures isTransaction && outer == !old(isTransaction)
      ensures Current() == old(Current()) && db == old(db)
    {
      outer := !isTransaction;
      if outer {
        tx := db;
        isTransaction := true;
      }
    }

    method EndTx(outer: bool, outcome: Outcome)
      requires Valid() && isTransaction
      modifies this
      ensures isTransaction == !outer
      ensures !outer ==> tx == old(tx) && db == old(db)
      ensures outer ==> db == if outcome == Done then old(tx) else old(db)
    {
      if outer {
        if outcome == Done {
          db := tx;
        }
        isTransaction := false;
      }
    }

    // ---- reads

    method GetVersions(rid: RID) returns (vs: seq<int>)
      requires Valid()
      ensures vs == if Accepts(Kind(), rid) then Listed(VersionsOf(Current(), rid)) else []
    {
      if rid >= SIGN_BIT {
        return [];
      }
      var column: set<int> := set p | p in Current().cards && p.0 == rid :: p.1;
      vs := SelectOrdered(column);
    }

    method GetRIDs() returns (rids: seq<int>)
      requires Valid()
      ensures rids == Listed(RidsOf(Kind(), Current()))
    {
      var column: set<int> := set p | p in Current().cards :: p.0;
      assert column == RidsOf(Kind(), Current());
      rids := SelectOrdered(column);
    }

    method HasVersion(rid: RID, v: Version) returns (yes: Option<bool>)
      requires Valid()
      ensures yes == if Accepts(Kind(), rid) then Some((rid, v) in Current().cards) else None
    {
      yes := if rid >= SIGN_BIT then None else Some((rid, v) in Current().cards);
    }

    method GetRawCardBytes(rid: RID, v: Version) returns (card: Option<Card>)
      requires Valid()
      ensures card == if Accepts(Kind(), rid) && (rid, v) in Current().cards
                      then Some(Current().cards[(rid, v)]) else None
    {
      card := if rid < SIGN_BIT && (rid, v) in Current().cards then Some(Current().cards[(rid, v)]) else None;
    }

    method ThumbnailBytes(rid: RID) returns (image: Option<string>)
      requires Valid()
      ensures image == if Accepts(Kind(), rid) && rid in Current().thumbs then Some(Current().thumbs[rid]) else None
    {
      image := if rid < SIGN_BIT && rid in Current().thumbs then Some(Current().thumbs[rid]) else None;
    }

    // ---- writes

    method PutVersion(rid: RID, v: Version, up: Upload) returns (outcome: Outcome)
      requires Valid()
      modifies this
      ensures isTransaction == old(isTransaction)
      ensures isTransaction ==> db == old(db)
      ensures var (st, o) := Put(Kind(), old(Current()), rid, v, up);
              outcome == o && Current() == if isTransaction || o == Done then st else old(Current())
    {
      var outer := BeginTx();
      outcome := InternalPut(rid, v, up);
      EndTx(outer, outcome);
    }

    method InternalPut(rid: RID, v: Version, up: Upload) returns (outcome: Outcome)
      requires Valid() && isTransaction
      modifies this`tx
      ensures (tx, outcome) == SqlitePut(maxVersions, old(tx), rid, v, up)
    {
      if !up.rawJson || up.thumbnail.None? || rid >= SIGN_BIT {
        return Failed;
      }
      tx := tx.(thumbs := tx.thumbs[rid := up.thumbnail.value]);
      if !up.encodes {
        return Failed;
      }
      tx := tx.(cards := tx.cards[(rid, v) := up.card]);
      DeleteOldVersions(rid);
      outcome := Done;
    }

    method DeleteOldVersions(rid: RID)
      requires Valid() && isTransaction && rid < SIGN_BIT
      modifies this`tx
      ensures tx == KeepVersions(old(tx), rid, Newest(VersionsOf(old(tx), rid), maxVersions))
    {
      var versions := GetVersions(rid);
      if |versions| > maxVersions {
        var deleteUpTo := versions[|versions| - maxVersions];
        NewestOfAscending(versions, maxVersions);
        CutKeepsNewest(tx, rid, maxVersions, deleteUpTo);
        tx := tx.(cards := map p | p in tx.cards && !(p.0 == rid && p.1 < deleteUpTo) :: tx.cards[p]);
      } else {
        ElementCount(versions);
        NothingToPrune(tx, rid, maxVersions);
      }
    }

    method DeleteVersionsBetween(rid: RID, lower: Version, upper: Version) returns (outcome: Outcome)
      requires Valid()
      modifies this
      ensures isTransaction == old(isTransaction)
      ensures isTransaction ==> db == old(db)
      ensures outcome == if Accepts(Kind(), rid) then Done else Failed
      ensures Current() == if outcome == Done then BlobSpec.DropVersions(old(Current()), rid, lower, upper)
                           else old(Current())
    {
      var outer := BeginTx();
      ghost var before := tx;
      if rid >= SIGN_BIT {
        outcome := Failed;
      } else {
        assert forall p :: p in tx.cards && p.0 == rid ==> p.1 in VersionsOf(tx, rid);
        tx := tx.(cards := map p | p in tx.cards && !(p.0 == rid && lower <= p.1 < upper) :: tx.cards[p]);
        assert tx.cards == BlobSpec.DropVersions(before, rid, lower, upper).cards;
        outcome := Done;
      }
      EndTx(outer, outcome);
    }

    method DeleteCard(rid: RID) returns (outcome: Outcome)
      requires Valid()
      modifies this
      ensures isTransaction == old(isTransaction)
      ensures isTransaction ==> db == old(db)
      ensures outcome == if Accepts(Kind(), rid) then Done else Failed
      ensures Current() == if outcome == Done then DropCard(old(Current()), rid) else old(Current())
    {
      var outer := BeginTx();
      if rid >= SIGN_BIT {
        outcome := Failed;
      } else {
        tx := tx.(cards := map p | p in tx.cards && p.0 != rid :: tx.cards[p]);
        tx := tx.(thumbs := tx.thumbs - {rid});
        outcome := Done;
      }
      EndTx(outer, outcome);
    }

    // ---- histories

    /** Any tree of calls on the tables answers as its meaning does. */
    method Execute(c: Call) returns (answers: seq<Answer>, outcome: Outcome)
      requires Valid()
      modifies this
      ensures isTransaction == old(isTransaction)
      ensures isTransaction ==> db == old(db)
      ensures Result(Current(), answers, outcome) ==
              if isTransaction then Inside(Kind(), old(Current()), c) else Outside(Kind(), old(Current()), c)
      decreases c, 1
    {
      match c
      case PutCard(rid, v, up) =>
        outcome := PutVersion(rid, v, up);
        answers := [Wrote(outcome)];
      case DeleteVersions(rid, lower, upper) =>
        outcome := DeleteVersionsBetween(rid, lower, upper);
        answers := [Wrote(outcome)];
      case Delete(rid) =>
        outcome := DeleteCard(rid);
        answers := [Wrote(outcome)];
      case Versions(rid) =>
        var vs := GetVersions(rid);
        answers, outcome := [VersionList(vs)], Done;
      case VersionExists(rid, v) =>
        var yes := HasVersion(rid, v);
        answers := [if yes.Some? then Exists(yes.value) else ReadError];
        outcome := if yes.Some? then Done else Failed;
      case ListRIDs =>
        var rids := GetRIDs();
        answers, outcome := [RidList(rids)], Done;
      case WithTx(body) =>
        var outer := BeginTx();
        answers, outcome := ExecuteBody(body);
        EndTx(outer, outcome);
      case Ignoring(d) =>
        answers, outcome := Execute(d);
        outcome := Forgive(outcome);
    }

    method ExecuteBody(body: seq<Call>) returns (answers: seq<Answer>, outcome: Outcome)
      requires Valid() && isTransaction
      modifies this
      ensures isTransaction && db == old(db)
      ensures Result(tx, answers, outcome) == Body(Kind(), old(tx), body)
      decreases body, 0
    {
      answers, outcome := [], Done;
      if body != [] {
        answers, outcome := Execute(body[0]);
        if outcome == Done {
          var more;
          more, outcome := ExecuteBody(body[1..]);
          answers := answers + more;
        }
      }
    }
  }
}
