/** What single operations on the record tables mean, field by field and row by row. */
module RecordLaws {
  import opened Wrappers
  import opened Bytes
  import opened Keys
  import opened Records

  // ---- reading

  /** Tags in strictly ascending slug order, each once, with the names in the table. */
  ghost predicate ListedBySlug(tags: seq<Tag>, ids: set<TID>, names: map<TID, string>) {
    && (forall i, j :: 0 <= i < j < |tags| ==> Less(tags[i].id, tags[j].id))
    && (forall i :: 0 <= i < |tags| ==> tags[i].id in ids && tags[i].id in names && tags[i].name == names[tags[i].id])
    && forall id :: id in ids ==> exists i :: 0 <= i < |tags| && tags[i].id == id
  }

  /** A record is found exactly if it is in the table, and holds its row's data, its
      creator, and its tags in slug order. */
  lemma FoundRecord(t: Tables, r: RID)
    requires Sound(t)
    ensures FindRecord(t, r).Some? <==> r in t.records
    ensures r in t.records ==>
              var rec, row := FindRecord(t, r).value, t.records[r];
              && rec.id == r && rec.source == row.source && rec.info == row.info && rec.imported == row.imported
              && rec.sync == row.sync && rec.exported == row.exported && rec.favorite == row.favorite
              && row.creatorID in t.creators && rec.creator == t.creators[row.creatorID]
              && ListedBySlug(rec.tags, row.tags, t.tags)
  {
    if r in t.records {
      var tags, ids := FindRecord(t, r).value.tags, t.records[r].tags;
      TagListIds(t.tags, ids);
      forall i | 0 <= i < |tags|
        ensures tags[i].id in ids && tags[i].id in t.tags && tags[i].name == t.tags[tags[i].id]
      {
        assert tags[i] in tags && tags[i].id in Ids(tags);
      }
      forall id | id in ids ensures exists i :: 0 <= i < |tags| && tags[i].id == id {
        assert id in Ids(tags);
      }
    }
  }

  // ---- writing single columns

  /** One row has changed, and nothing else. */
  ghost predicate OneRowChanged(t: Tables, rid: RID, t': Tables) {
    && t'.records.Keys == t.records.Keys && (forall r :: r in t.records && r != rid ==> t'.records[r] == t.records[r])
    && t'.creators == t.creators && t'.tags == t.tags && t'.lastRid == t.lastRid
  }

  lemma SyncDataWritten(t: Tables, rid: RID, sync: SyncData)
    ensures SetSync(t, rid, sync).Some? <==> rid in t.records && ValidStatus(sync.status)
    ensures SetSync(t, rid, sync).Some? ==>
              var t' := SetSync(t, rid, sync).value;
              && OneRowChanged(t, rid, t') && t'.records[rid].sync == sync
              && t'.records[rid].(sync := t.records[rid].sync) == t.records[rid]
  {
  }

  lemma ExportDataWritten(t: Tables, rid: RID, exported: ExportData)
    ensures SetExported(t, rid, exported).Some? <==> rid in t.records
    ensures SetExported(t, rid, exported).Some? ==>
              var t' := SetExported(t, rid, exported).value;
              && OneRowChanged(t, rid, t') && t'.records[rid].exported == exported
              && t'.records[rid].(exported := t.records[rid].exported) == t.records[rid]
  {
  }

  /** The given records get the flag, no other record and no other column changes. */
  lemma FavoritesWritten(t: Tables, rids: set<RID>, favorite: bool)
    ensures var t' := SetFavorite(t, rids, favorite);
            && t'.records.Keys == t.records.Keys
            && (forall r :: r in t.records && r in rids ==>
                  t'.records[r].favorite == favorite
                  && t'.records[r].(favorite := t.records[r].favorite) == t.records[r])
            && (forall r :: r in t.records && r !in rids ==> t'.records[r] == t.records[r])
            && t'.creators == t.creators && t'.tags == t.tags && t'.lastRid == t.lastRid
  {
  }

  // ---- removing

  /** The given records are gone, every other row is the very same, and no creator,
      tag or identifier is touched. */
  lemma RecordsDeleted(t: Tables, rids: set<RID>)
    ensures var t' := DeleteRecords(t, rids);
            && (forall r :: r in t'.records <==> r in t.records && r !in rids)
            && (forall r :: r in t'.records ==> t'.records[r] == t.records[r])
            && t'.creators == t.creators && t'.tags == t.tags && t'.lastRid == t.lastRid
  {
  }

  /** Exactly the creators with a record remain, as they are; no row is touched. */
  lemma CreatorsCleaned(t: Tables)
    ensures var t' := CleanCreators(t);
            && (forall c :: c in t'.creators <==>
                  c in t.creators && exists r :: r in t.records && t.records[r].creatorID == c)
            && (forall c :: c in t'.creators ==> t'.creators[c] == t.creators[c])
            && t'.records == t.records && t'.tags == t.tags && t'.lastRid == t.lastRid
  {
  }
}
