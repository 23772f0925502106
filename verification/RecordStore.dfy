/** erecord: the record tables in place, behind one transaction at a time. */
module RecordStore {
  import opened Wrappers
  import opened Bytes
  import opened Keys
  import opened Records

  /** A record's tags, ordered by slug. */
  method JoinTags(names: map<TID, string>, ids: set<TID>) returns (tags: seq<Tag>)
    requires ids <= names.Keys
    ensures tags == TagList(names, ids)
  {
    var sorted := SortKeys(ids);
    SortedUnique(sorted, SortedList(ids));
    tags := [];
    for i := 0 to |sorted|
      invariant |tags| == i && forall j :: 0 <= j < i ==> tags[j] == Tag(sorted[j], names[sorted[j]])
    {
      assert sorted[i] in ids;
      tags := tags + [Tag(sorted[i], names[sorted[i]])];
    }
  }

  predicate NoDuplicates(s: seq<RID>) {
    forall i, j :: 0 <= i < j < |s| ==> s[i] != s[j]
  }

  /** The members of a set, each once, in some order. */
  method Enumerate(rids: set<RID>) returns (s: seq<RID>)
    ensures |s| == |rids| && NoDuplicates(s)
    ensures forall r :: r in s <==> r in rids
  {
    var rest := rids;
    s := [];
    while rest != {}
      invariant forall r :: r in rids <==> r in s || r in rest
      invariant forall r :: r in s ==> r !in rest
      invariant NoDuplicates(s)
      invariant |s| + |rest| == |rids|
      decreases |rest|
    {
      var r :| r in rest;
      s := s + [r];
      rest := rest - {r};
    }
  }

  lemma RemovedCount<K, V>(m: map<K, V>, gone: set<K>)
    ensures |m - gone| == |m| - |m.Keys * gone|
  {
    assert m.Keys == (m - gone).Keys + m.Keys * gone;
  }

  lemma CleaningRemoves(t: Tables, idle: set<CID>)
    requires idle == set cid | cid in t.creators && !HasRecords(t, cid)
    ensures CleanCreators(t) == t.(creators := t.creators - idle)
    ensures |idle| == |t.creators| - |CleanCreators(t).creators|
  {
    RemovedCount(t.creators, idle);
    assert t.creators.Keys * idle == idle;
    assert CleanCreators(t).creators == t.creators - idle;
  }

  class Store {
    var db: Tables   // what is committed
    var tx: Tables   // what the open transaction sees
    var isTransaction: bool

    ghost predicate Valid()
      reads this
    {
      Sound(db) && Sound(tx)
    }

    function Current(): Tables
      reads this
    {
      if isTransaction then tx else db
    }

    constructor ()
      ensures Valid() && !isTransaction && db == NO_RECORDS
    {
      db, tx, isTransaction := NO_RECORDS, NO_RECORDS, false;
    }

    // ---- transactions

    method BeginTx() returns (outer: bool)
      requires Valid()
      modifies this
      ensures Valid() && isTransaction && outer == !old(isTransaction)
      ensures tx == old(Current()) && db == old(db)
    {
      outer := !isTransaction;
      if outer {
        tx := db;
        isTransaction := true;
      }
    }

    /** Whoever opened the transaction commits it after success and rolls it back
        otherwise; `commits` says whether the database accepts the commit. */
    method EndTx(outer: bool, outcome: Outcome, commits: bool) returns (result: Outcome)
      requires Valid() && isTransaction
      modifies this
      ensures Valid() && isTransaction == !outer
      ensures !outer ==> tx == old(tx) && db == old(db) && result == outcome
      ensures outer ==> db == if outcome == Done && commits then old(tx) else old(db)
      ensures outer ==> result == if outcome == Done && !commits then Failed else outcome
    {
      result := outcome;
      if outer {
        if outcome == Done {
          if commits {
            db := tx;
          } else {
            result := Failed;
          }
        }
        isTransaction := false;
      }
    }

    // ---- reads

    method FindRecord(rid: RID) returns (rec: Option<Record>)
      requires Valid()
      ensures rec == Records.FindRecord(Current(), rid)
    {
      var t := Current();
      if rid !in t.records {
        return None;
      }
      var row := t.records[rid];
      var tags := JoinTags(t.tags, row.tags);
      rec := Some(Record(rid, row.imported, row.source, row.info, tags, t.creators[row.creatorID],
                         row.sync, row.exported, row.favorite));
    }

    /** Every record identifier, each once; the unfiltered query. */
    method FindRIDs() returns (rids: seq<RID>)
      requires Valid()
      ensures |rids| == |Current().records| && NoDuplicates(rids)
      ensures forall r :: r in rids <==> r in Current().records
    {
      rids := Enumerate(Current().records.Keys);
    }

    // ---- writing a record

    method UpsertTags(tags: seq<Tag>)
      requires Valid() && isTransaction
      modifies this`tx
      ensures Valid() && tx == WithTags(old(tx), tags)
    {
      WithTagsSound(tx, tags);
      var names := tx.tags;
      for i := 0 to |tags|
        invariant names == InsertTags(tx.tags, tags[..i])
      {
        assert tags[..i + 1][..i] == tags[..i];
        if tags[i].id !in names {
          names := names[tags[i].id := tags[i].name];
        }
      }
      assert tags[..|tags|] == tags;
      tx := tx.(tags := names);
    }

    method UpsertCreator(c: Creator) returns (cid: Option<CID>)
      requires Valid() && isTransaction
      modifies this`tx
      ensures Valid()
      ensures cid == if ValidSource(c.source) then Some(CreatorId(c.source, c.info.platformID)) else None
      ensures tx == if ValidSource(c.source) then WithCreator(old(tx), c) else old(tx)
    {
      if !ValidSource(c.source) {
        return None;
      }
      WithCreatorSound(tx, c);
      var id := CreatorId(c.source, c.info.platformID);
      tx := tx.(creators := tx.creators[id := c]);
      cid := Some(id);
    }

    method UpsertRow(incoming: Row, restoring: bool) returns (rid: Option<RID>)
      requires Valid() && isTransaction && incoming.creatorID in tx.creators
      modifies this`tx
      ensures Valid()
      ensures var written := Upsert(old(tx), incoming, restoring);
              if written.None? then rid == None && tx == old(tx) else rid.Some? && written == Some((tx, rid.value))
      ensures rid.Some? ==> rid.value in tx.records && tx.tags == old(tx).tags
    {
      if !ValidSource(incoming.source) || !ValidStatus(incoming.sync.status) {
        return None;
      }
      ghost var before := tx;
      var same := set r | r in tx.records && tx.records[r].info.normalizedURL == incoming.info.normalizedURL;
      assert same == WithUrl(tx, incoming.info.normalizedURL);
      if same == {} {
        if tx.lastRid == SIGN_BIT - 1 || ClashesWithOther(tx, tx.lastRid + 1, incoming) {
          return None;
        }
        var next := tx.lastRid + 1;
        tx := tx.(records := tx.records[next := incoming.(tags := {})], lastRid := next);
        rid := Some(next);
      } else {
        var known :| known in same;
        forall r | r in same ensures r == known {
          OneRowPerUrl(tx, r, known);
        }
        var row := Merged(tx.records[known], incoming, restoring);
        if ClashesWithOther(tx, known, row) {
          return None;
        }
        tx := tx.(records := tx.records[known := row]);
        rid := Some(known);
      }
      assert Upsert(before, incoming, restoring) == Some((tx, rid.value));
      UpsertSound(before, incoming, restoring);
    }

    /** The steps shared by a save and a restore. */
    method Write(tags: seq<Tag>, c: Creator, incoming: Row, restoring: bool) returns (rid: Option<RID>)
      requires Valid() && isTransaction && incoming.creatorID == CreatorId(c.source, c.info.platformID)
      modifies this`tx
      ensures Valid()
      ensures var written := WriteRecord(old(tx), tags, c, incoming, restoring);
              rid.Some? == written.Some? && (rid.Some? ==> written == Some((tx, rid.value)))
      ensures rid.Some? ==> rid.value in tx.records
    {
      InsertTagsMeaning(tx.tags, tags);
      UpsertTags(tags);
      var cid := UpsertCreator(c);
      if cid.None? {
        return None;
      }
      rid := UpsertRow(incoming, restoring);
      if rid.None? {
        return None;
      }
      SetTagsSound(tx, rid.value, Ids(tags));
      tx := SetTags(tx, rid.value, Ids(tags));
    }

    method SaveRecord(meta: Metadata, time: int, index: int) returns (rid: Option<RID>)
      requires Valid() && isTransaction
      modifies this`tx
      ensures Valid()
      ensures var written := Records.SaveRecord(old(tx), meta, time, index);
              rid.Some? == written.Some? && (rid.Some? ==> written == Some((tx, rid.value)) && rid.value in tx.records)
    {
      rid := Write(meta.tags, Creator(meta.source, meta.creator), SavedRow(meta, time, index), false);
    }

    method RestoreRecord(rec: Record) returns (rid: Option<RID>)
      requires Valid() && isTransaction
      modifies this`tx
      ensures Valid()
      ensures var written := Records.RestoreRecord(old(tx), rec);
              rid.Some? == written.Some? && (rid.Some? ==> written == Some((tx, rid.value)) && rid.value in tx.records)
    {
      rid := Write(rec.tags, rec.creator, RestoredRow(rec), true);
    }

    // ---- the other writes

    /** The driver refuses identifiers whose top bit is set. */
    method Delete(rids: seq<RID>) returns (deleted: Option<nat>)
      requires Valid() && isTransaction
      modifies this`tx
      ensures Valid()
      ensures deleted.Some? <==> !Refused(rids)
      ensures tx == if deleted.Some? then DeleteRecords(old(tx), Members(rids)) else old(tx)
      ensures deleted.Some? ==> deleted.value == |old(tx).records| - |tx.records|
    {
      if Refused(rids) {
        return None;
      }
      var gone := Members(rids);
      RemovedCount(tx.records, gone);
      DeleteSound(tx, gone);
      deleted := Some(|tx.records.Keys * gone|);
      tx := DeleteRecords(tx, gone);
    }

    method CleanupCreators() returns (removed: nat)
      requires Valid()
      modifies this
      ensures Valid() && isTransaction == old(isTransaction)
      ensures isTransaction ==> db == old(db)
      ensures Current() == CleanCreators(old(Current()))
      ensures removed == |old(Current()).creators| - |Current().creators|
    {
      var outer := BeginTx();
      CleanCreatorsSound(tx);
      var idle := set cid | cid in tx.creators && !HasRecords(tx, cid);
      CleaningRemoves(tx, idle);
      removed := |idle|;
      tx := tx.(creators := tx.creators - idle);
      var result := EndTx(outer, Done, true);
    }

    method UpdateSyncData(rid: RID, sync: SyncData) returns (outcome: Outcome)
      requires Valid()
      modifies this
      ensures Valid() && isTransaction == old(isTransaction)
      ensures isTransaction ==> db == old(db)
      ensures var set' := SetSync(old(Current()), rid, sync);
              outcome == (if set'.Some? then Done else Failed)
              && Current() == if set'.Some? then set'.value else old(Current())
    {
      var outer := BeginTx();
      if rid in tx.records && ValidStatus(sync.status) {
        RowUpdateSound(tx, rid, tx.records[rid].(sync := sync));
        tx := tx.(records := tx.records[rid := tx.records[rid].(sync := sync)]);
        outcome := Done;
      } else {
        outcome := Failed;
      }
      outcome := EndTx(outer, outcome, true);
    }

    method UpdateExportData(rid: RID, exported: ExportData) returns (outcome: Outcome)
      requires Valid()
      modifies this
      ensures Valid() && isTransaction == old(isTransaction)
      ensures isTransaction ==> db == old(db)
      ensures var set' := SetExported(old(Current()), rid, exported);
              outcome == (if set'.Some? then Done else Failed)
              && Current() == if set'.Some? then set'.value else old(Current())
    {
      var outer := BeginTx();
      if rid in tx.records {
        RowUpdateSound(tx, rid, tx.records[rid].(exported := exported));
        tx := tx.(records := tx.records[rid := tx.records[rid].(exported := exported)]);
        outcome := Done;
      } else {
        outcome := Failed;
      }
      outcome := EndTx(outer, outcome, true);
    }

    method UpdateFavoriteData(favorite: bool, rids: seq<RID>) returns (outcome: Outcome)
      requires Valid()
      modifies this
      ensures Valid() && isTransaction == old(isTransaction)
      ensures isTransaction ==> db == old(db)
      ensures outcome == if Refused(rids) then Failed else Done
      ensures Current() == if outcome == Done then SetFavorite(old(Current()), Members(rids), favorite)
                           else old(Current())
    {
      var outer := BeginTx();
      if Refused(rids) {
        outcome := Failed;
      } else {
        FavoriteSound(tx, Members(rids), favorite);
        tx := SetFavorite(tx, Members(rids), favorite);
        outcome := Done;
      }
      outcome := EndTx(outer, outcome, true);
    }
  }
}
