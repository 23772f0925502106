/** Importing an exported vault gives back its records, renumbered. */
module VaultRoundTrip {
  import opened Wrappers
  import opened Keys
  import opened Versions
  import opened Records
  import opened BlobSpec
  import opened CatalogSpec
  import opened VaultFiles
  import opened VaultTransfer
  import opened RecordStore

  // ---- the record tables

  /** The records of a vault, picked in an order without repetition. */
  ghost predicate Picks(v: Vault, order: seq<RID>) {
    NoDuplicates(order) && forall i :: 0 <= i < |order| ==> order[i] in v.tables.records
  }

  /** Tables that hold exactly the picked records, numbered from 1, with the creators
      and tags they refer to and nothing else. */
  ghost predicate RecordsImported(t: Tables, order: seq<RID>, u: Tables) {
    RowsImported(t, order, u) && CreatorsImported(t, order, u) && TagsImported(t, order, u)
  }

  ghost predicate RowsImported(t: Tables, order: seq<RID>, u: Tables) {
    && u.lastRid == |order| < SIGN_BIT
    && (forall r :: r in u.records <==> 1 <= r <= |order|)
    && (forall i :: 0 <= i < |order| ==> order[i] in t.records && u.records[i + 1] == t.records[order[i]])
  }

  ghost predicate PickedCreator(t: Tables, order: seq<RID>, c: CID) {
    exists i :: 0 <= i < |order| && order[i] in t.records && t.records[order[i]].creatorID == c
  }

  ghost predicate CreatorsImported(t: Tables, order: seq<RID>, u: Tables) {
    && (forall c :: c in u.creators <==> PickedCreator(t, order, c))
    && (forall c :: c in u.creators ==> c in t.creators && u.creators[c] == t.creators[c])
  }

  ghost predicate PickedTag(t: Tables, order: seq<RID>, id: TID) {
    exists i :: 0 <= i < |order| && order[i] in t.records && id in t.records[order[i]].tags
  }

  ghost predicate TagsImported(t: Tables, order: seq<RID>, u: Tables) {
    && (forall id :: id in u.tags <==> PickedTag(t, order, id))
    && (forall id :: id in u.tags ==> id in t.tags && u.tags[id] == t.tags[id])
  }

  lemma {:induction false} InsertKnownNames(names: map<TID, string>, tags: seq<Tag>, all: map<TID, string>)
    requires forall id :: id in names ==> id in all && names[id] == all[id]
    requires forall tag :: tag in tags ==> tag.id in all && tag.name == all[tag.id]
    ensures forall id :: id in InsertTags(names, tags) ==> id in all && InsertTags(names, tags)[id] == all[id]
  {
    if tags != [] {
      InsertKnownNames(names, tags[..|tags| - 1], all);
    }
  }

  lemma PickedIsUnknown(v: Vault, order: seq<RID>, r: RID, u: Tables)
    requires Sound(v.tables) && RecordsImported(v.tables, order, u) && r in v.tables.records && r !in order
    ensures Unknown(u, v.tables.records[r])
  {
    forall q | q in u.records
      ensures u.records[q].info.normalizedURL != v.tables.records[r].info.normalizedURL
      ensures !Clashes(u.records[q], v.tables.records[r])
    {
      assert order[q - 1] in order;
      assert Distinct(v.tables.records[order[q - 1]], v.tables.records[r]);
    }
  }

  lemma RowsStep(t: Tables, order: seq<RID>, r: RID, u: Tables, u': Tables)
    requires RowsImported(t, order, u) && r in t.records && |order| < SIGN_BIT - 1
    requires u'.records == u.records[u.lastRid + 1 := t.records[r]] && u'.lastRid == u.lastRid + 1
    ensures RowsImported(t, order + [r], u')
  {
    var order' := order + [r];
    assert order'[|order|] == r && forall i :: 0 <= i < |order| ==> order'[i] == order[i];
  }

  lemma CreatorsStep(t: Tables, order: seq<RID>, r: RID, u: Tables, u': Tables)
    requires CreatorsImported(t, order, u) && r in t.records && ReferencesOk(t)
    requires u'.creators == u.creators[t.records[r].creatorID := t.creators[t.records[r].creatorID]]
    ensures CreatorsImported(t, order + [r], u')
  {
    var order' := order + [r];
    forall c ensures PickedCreator(t, order', c) <==> PickedCreator(t, order, c) || t.records[r].creatorID == c {
      assert order'[|order|] == r;
      if i :| 0 <= i < |order| && order[i] in t.records && t.records[order[i]].creatorID == c {
        assert order'[i] == order[i];
      }
    }
  }

  lemma TagsStep(t: Tables, order: seq<RID>, r: RID, u: Tables, u': Tables)
    requires TagsImported(t, order, u) && r in t.records && Sound(t)
    requires u'.tags == InsertTags(u.tags, FindRecord(t, r).value.tags)
    ensures TagsImported(t, order + [r], u')
  {
    var tags := FindRecord(t, r).value.tags;
    TagListIds(t.tags, t.records[r].tags);
    InsertTagsMeaning(u.tags, tags);
    InsertKnownNames(u.tags, tags, t.tags);
    var order' := order + [r];
    forall id ensures PickedTag(t, order', id) <==> PickedTag(t, order, id) || id in t.records[r].tags {
      assert order'[|order|] == r;
      if i :| 0 <= i < |order| && order[i] in t.records && id in t.records[order[i]].tags {
        assert order'[i] == order[i];
      }
    }
  }

  lemma RecordsStep(v: Vault, order: seq<RID>, r: RID, u: Tables)
    requires Sound(v.tables) && Sound(u) && RecordsImported(v.tables, order, u)
    requires r in v.tables.records && r !in order && |order| < SIGN_BIT - 1
    ensures var restored := RestoreRecord(u, FindRecord(v.tables, r).value);
            && restored.Some? && restored.value.1 == |order| + 1
            && RecordsImported(v.tables, order + [r], restored.value.0)
  {
    PickedIsUnknown(v, order, r, u);
    RestoreIsFaithful(v.tables, r, u);
    var u' := RestoreRecord(u, FindRecord(v.tables, r).value).value.0;
    RowsStep(v.tables, order, r, u, u');
    CreatorsStep(v.tables, order, r, u, u');
    TagsStep(v.tables, order, r, u, u');
  }

  // ---- the images

  /** Blobs that hold the current image of each picked record, and no other. */
  ghost predicate ImagesImported(v: Vault, order: seq<RID>, st: State)
    requires ReferencesOk(v.tables)
  {
    && |order| < SIGN_BIT
    && (forall p :: p in st.cards ==> 1 <= p.0 <= |order|)
    && forall i :: 0 <= i < |order| ==> order[i] in v.tables.records && ImageImported(v, order[i], i + 1, st)
  }

  /** One image: the source's bytes, tagged with the record's tags. */
  ghost predicate ImageImported(v: Vault, r: RID, rid: RID, st: State)
    requires ReferencesOk(v.tables) && r in v.tables.records
  {
    var version := v.tables.records[r].info.updateTime;
    && (rid, version) in st.cards && (r, version) in v.blobs.cards
    && st.cards[(rid, version)] ==
       Card(v.blobs.cards[(r, version)].body, TagNames(FindRecord(v.tables, r).value.tags))
  }

  /** A first Put of a card keeps it, in either backend. */
  lemma FirstPut(be: Backend, st: State, rid: RID, version: Version, up: Upload)
    requires be.max >= 1 && Storable(up) && rid < SIGN_BIT && VersionsOf(st, rid) == {}
    ensures var (st', outcome) := Put(be, st, rid, version, up);
            outcome == Done && (rid, version) in st'.cards && st'.cards[(rid, version)] == up.card
  {
    PutOutcome(be, st, rid, version, up);
    PutVersions(be, st, rid, version, up);
    PutFrame(be, st, rid, version, up);
    var st' := Put(be, st, rid, version, up).0;
    HeldIffListed(st', rid, version);
    if be.Sqlite? {
      SavedVersionSurvives({}, be.max, version);
      assert VersionsOf(st', rid) == AddThenPrune({}, be.max, version);
    }
  }

  lemma ImagesStep(be: Backend, v: Vault, order: seq<RID>, r: RID, st: State, up: Upload)
    requires be.max >= 1 && ReferencesOk(v.tables) && ImagesImported(v, order, st)
    requires r in v.tables.records && |order| < SIGN_BIT - 1 && Storable(up)
    requires (r, v.tables.records[r].info.updateTime) in v.blobs.cards
    requires up.card.body == v.blobs.cards[(r, v.tables.records[r].info.updateTime)].body
    ensures var rec := FindRecord(v.tables, r).value;
            var (st', outcome) := Put(be, st, |order| + 1, rec.info.updateTime, Tagged(up, rec.tags));
            outcome == Done && ImagesImported(v, order + [r], st')
  {
    var rec := FindRecord(v.tables, r).value;
    var rid := |order| + 1;
    assert VersionsOf(st, rid) == {};
    FirstPut(be, st, rid, rec.info.updateTime, Tagged(up, rec.tags));
    PutFrame(be, st, rid, rec.info.updateTime, Tagged(up, rec.tags));
    var st' := Put(be, st, rid, rec.info.updateTime, Tagged(up, rec.tags)).0;
    var order' := order + [r];
    forall i | 0 <= i < |order'| ensures order'[i] in v.tables.records && ImageImported(v, order'[i], i + 1, st') {
      if i < |order| {
        assert ImageImported(v, order[i], i + 1, st);
      }
    }
  }

  // ---- one restored card

  /** The index entry and the file of a record, and what is decoded from the file. */
  ghost predicate Carries(v: Vault, files: map<string, Card>, decode: Decoder, r: RID, item: Item)
    requires ReferencesOk(v.tables) && r in v.tables.records
  {
    var at := (r, v.tables.records[r].info.updateTime);
    && item.rec == FindRecord(v.tables, r).value && item.path in files
    && at in v.blobs.cards && files[item.path] == v.blobs.cards[at]
    && decode(files[item.path]).Some? && Storable(decode(files[item.path]).value)
    && decode(files[item.path]).value.card.body == v.blobs.cards[at].body
  }

  ghost predicate Imported(v: Vault, order: seq<RID>, w: Vault)
    requires ReferencesOk(v.tables)
  {
    RecordsImported(v.tables, order, w.tables) && ImagesImported(v, order, w.blobs)
  }

  lemma ImportStep(be: Backend, v: Vault, order: seq<RID>, r: RID, w: Vault,
                   files: map<string, Card>, decode: Decoder, item: Item)
    requires be.max >= 1 && Sound(v.tables) && Sound(w.tables) && Imported(v, order, w)
    requires r in v.tables.records && r !in order && |order| < SIGN_BIT - 1 && Carries(v, files, decode, r, item)
    ensures Imported(v, order + [r], ImportOne(be, w, files, decode, item))
  {
    RecordsStep(v, order, r, w.tables);
    var up := decode(files[item.path]).value;
    ImagesStep(be, v, order, r, w.blobs, up);
    var e := RestoreCard(item.rec, up);
    WrittenSound(w.tables, e);
  }

  // ---- how many records there can be

  lemma {:induction false} PickedCount(v: Vault, order: seq<RID>, n: int)
    requires NoDuplicates(order) && n >= 0 && forall i :: 0 <= i < |order| ==> 1 <= order[i] <= n
    ensures |order| <= n
  {
    if order != [] {
      assert 1 <= order[0] <= n;
      if i :| 0 <= i < |order| && order[i] == n {
        PickedCount(v, order[..i] + order[i + 1..], n - 1);
      } else {
        PickedCount(v, order, n - 1);
      }
    }
  }

  lemma PicksFit(v: Vault, order: seq<RID>)
    requires RowsOk(v.tables) && Picks(v, order)
    ensures |order| < SIGN_BIT
  {
    PickedCount(v, order, v.tables.lastRid);
  }

  ghost predicate AllCarry(v: Vault, files: map<string, Card>, decode: Decoder, order: seq<RID>, items: seq<Item>)
    requires ReferencesOk(v.tables)
  {
    |items| == |order| &&
    forall i :: 0 <= i < |order| ==> order[i] in v.tables.records && Carries(v, files, decode, order[i], items[i])
  }

  lemma FrontCarries(v: Vault, files: map<string, Card>, decode: Decoder, order: seq<RID>, items: seq<Item>)
    requires ReferencesOk(v.tables) && order != [] && Picks(v, order) && AllCarry(v, files, decode, order, items)
    ensures var n := |order| - 1;
            && Picks(v, order[..n]) && AllCarry(v, files, decode, order[..n], items[..n])
            && order == order[..n] + [order[n]] && order[n] !in order[..n]
            && Carries(v, files, decode, order[n], items[n])
  {
  }

  /** Importing the items of distinct records, in any order, into an empty vault. */
  lemma {:induction false} ImportIsFaithful(be: Backend, v: Vault, order: seq<RID>, files: map<string, Card>,
                                            decode: Decoder, items: seq<Item>)
    requires be.max >= 1 && Sound(v.tables) && Picks(v, order)
    requires AllCarry(v, files, decode, order, items)
    ensures Imported(v, order, ImportAll(be, files, decode, items))
    decreases |order|
  {
    if order == [] {
      assert ImportAll(be, files, decode, items) == EMPTY_VAULT;
    } else {
      var n := |order| - 1;
      FrontCarries(v, files, decode, order, items);
      ImportIsFaithful(be, v, order[..n], files, decode, items[..n]);
      PicksFit(v, order);
      ImportStep(be, v, order[..n], order[n], ImportAll(be, files, decode, items[..n]), files, decode, items[n]);
    }
  }

  /** None of those restores fails. */
  lemma AllRestored(be: Backend, v: Vault, order: seq<RID>, files: map<string, Card>, decode: Decoder,
                    items: seq<Item>, i: nat)
    requires be.max >= 1 && Sound(v.tables) && Picks(v, order)
    requires AllCarry(v, files, decode, order, items) && i < |items|
    ensures Restores(be, ImportAll(be, files, decode, items[..i]), files, decode, items[i])
  {
    PicksFit(v, order);
    ImportIsFaithful(be, v, order[..i], files, decode, items[..i]);
    var w := ImportAll(be, files, decode, items[..i]);
    var up := decode(files[items[i].path]).value;
    assert Carries(v, files, decode, order[i], items[i]) && order[i] !in order[..i];
    RecordsStep(v, order[..i], order[i], w.tables);
    ImagesStep(be, v, order[..i], order[i], w.blobs, up);
    WrittenSound(w.tables, RestoreCard(items[i].rec, up));
  }

  /** So the import reports every item as a success and no title as failed. */
  lemma NoneFails(be: Backend, v: Vault, order: seq<RID>, files: map<string, Card>, decode: Decoder,
                  items: seq<Item>, oks: seq<bool>, report: Report)
    requires be.max >= 1 && Sound(v.tables) && Picks(v, order)
    requires AllCarry(v, files, decode, order, items)
    requires WereRestored(be, files, decode, items, oks) && Reports(report, RecordsOf(items), oks)
    ensures report == Report(|items|, |items|, 0, [])
  {
    forall i | 0 <= i < |items| ensures oks[i] {
      AllRestored(be, v, order, files, decode, items, i);
    }
    AllSucceed(RecordsOf(items), oks);
  }

  lemma {:induction false} AllSucceed(recs: seq<Record>, oks: seq<bool>)
    requires |oks| == |recs| && forall i :: 0 <= i < |oks| ==> oks[i]
    ensures Successes(oks) == |oks| && FailedOf(recs, oks) == []
  {
    if oks != [] {
      AllSucceed(recs[..|recs| - 1], oks[..|oks| - 1]);
    }
  }

  // ---- the folder an export leaves

  /** Exactly the exportable records are in the index, each with its file. */
  ghost predicate Exported(be: Backend, v: Vault, template: Template, recs: seq<Record>, f: Folder) {
    && (forall i :: 0 <= i < |recs| && Exportable(be, v, recs[i]) ==> HasCard(v, template, recs[i], f))
    && (forall r :: r in f.index ==> ExportedId(be, v, recs, r))
    && (forall name :: name in f.files ==> ExportedFile(be, v, template, recs, name))
  }

  ghost predicate ExportedId(be: Backend, v: Vault, recs: seq<Record>, r: RID) {
    exists i :: 0 <= i < |recs| && Exportable(be, v, recs[i]) && recs[i].id == r
  }

  ghost predicate ExportedFile(be: Backend, v: Vault, template: Template, recs: seq<Record>, name: string) {
    exists i :: 0 <= i < |recs| && Exportable(be, v, recs[i]) && CardFile(template, recs[i]) == name
  }

  ghost predicate HasCard(v: Vault, template: Template, rec: Record, f: Folder) {
    && rec.id in f.index && f.index[rec.id] == rec
    && CardFile(template, rec) in f.files && (rec.id, rec.info.updateTime) in v.blobs.cards
    && f.files[CardFile(template, rec)] == v.blobs.cards[(rec.id, rec.info.updateTime)]
  }

  lemma {:induction false} ExportLeaves(be: Backend, v: Vault, template: Template, recs: seq<Record>)
    requires DistinctIds(recs)
    ensures Exported(be, v, template, recs, ExportAll(be, v, template, recs))
  {
    if recs != [] {
      var n := |recs| - 1;
      var f := ExportAll(be, v, template, recs[..n]);
      ExportLeaves(be, v, template, recs[..n]);
      ExportStep(be, v, template, recs, f);
    }
  }

  lemma CardStays(be: Backend, v: Vault, template: Template, f: Folder, rec: Record, last: Record)
    requires HasCard(v, template, rec, f) && rec.id != last.id
    ensures HasCard(v, template, rec, ExportOne(be, v, template, f, last))
  {
    if CardFile(template, rec) == CardFile(template, last) {
      FileNamesDistinct(rec.id, template(rec), last.id, template(last));
    }
  }

  /** What was exported before the last record is still accounted for. */
  lemma FrontExported(be: Backend, v: Vault, template: Template, recs: seq<Record>, r: RID, name: string)
    requires recs != []
    ensures ExportedId(be, v, recs[..|recs| - 1], r) ==> ExportedId(be, v, recs, r)
    ensures ExportedFile(be, v, template, recs[..|recs| - 1], name) ==> ExportedFile(be, v, template, recs, name)
  {
    var front := recs[..|recs| - 1];
    assert forall i :: 0 <= i < |front| ==> front[i] == recs[i];
  }

  lemma CardsStep(be: Backend, v: Vault, template: Template, recs: seq<Record>, f: Folder, i: nat)
    requires recs != [] && DistinctIds(recs) && Exported(be, v, template, recs[..|recs| - 1], f)
    requires i < |recs| && Exportable(be, v, recs[i])
    ensures HasCard(v, template, recs[i], ExportOne(be, v, template, f, recs[|recs| - 1]))
  {
    var n := |recs| - 1;
    if i < n {
      assert recs[..n][i] == recs[i];
      CardStays(be, v, template, f, recs[i], recs[n]);
    }
  }

  lemma ExportStep(be: Backend, v: Vault, template: Template, recs: seq<Record>, f: Folder)
    requires recs != [] && DistinctIds(recs) && Exported(be, v, template, recs[..|recs| - 1], f)
    ensures Exported(be, v, template, recs, ExportOne(be, v, template, f, recs[|recs| - 1]))
  {
    var last := recs[|recs| - 1];
    var f' := ExportOne(be, v, template, f, last);
    forall i | 0 <= i < |recs| && Exportable(be, v, recs[i]) ensures HasCard(v, template, recs[i], f') {
      CardsStep(be, v, template, recs, f, i);
    }
    forall r | r in f'.index ensures ExportedId(be, v, recs, r) {
      FrontExported(be, v, template, recs, r, "");
    }
    forall name | name in f'.files ensures ExportedFile(be, v, template, recs, name) {
      FrontExported(be, v, template, recs, 0, name);
    }
  }

  // ---- what the import finds in it

  /** The directory's listing: the card files and the index. */
  ghost predicate Lists(f: Folder, entries: seq<Entry>) {
    forall e :: e in entries <==> !e.isDir && (e.name == INDEX || e.name in f.files)
  }

  ghost predicate PngTemplate(template: Template) {
    forall rec :: HasSuffix(template(rec), PNG)
  }

  lemma EntryOfCard(be: Backend, v: Vault, template: Template, recs: seq<Record>, f: Folder, e: Entry) returns (i: int)
    requires Exported(be, v, template, recs, f) && PngTemplate(template)
    requires forall k :: 0 <= k < |recs| ==> recs[k].id < SIGN_BIT
    requires !e.isDir && (e.name == INDEX || e.name in f.files) && CardOf(e).Some?
    ensures 0 <= i < |recs| && Exportable(be, v, recs[i]) && e.name == CardFile(template, recs[i])
    ensures CardOf(e) == Some(recs[i].id)
  {
    IndexIsSkipped();
    assert ExportedFile(be, v, template, recs, e.name);
    i :| 0 <= i < |recs| && Exportable(be, v, recs[i]) && CardFile(template, recs[i]) == e.name;
    ExportedNameIsFound(recs[i].id, template(recs[i]));
    assert e == Entry(FileName(recs[i].id, template(recs[i])), false);
  }

  /** The import finds the very file of each record in the index. */
  lemma CardFilesMatch(be: Backend, v: Vault, template: Template, recs: seq<Record>, f: Folder, entries: seq<Entry>,
                       k: int)
    requires Exported(be, v, template, recs, f) && PngTemplate(template) && DistinctIds(recs) && Lists(f, entries)
    requires forall i :: 0 <= i < |recs| ==> recs[i].id < SIGN_BIT
    requires 0 <= k < |recs| && Exportable(be, v, recs[k])
    ensures recs[k].id in CardFiles(entries) && CardFiles(entries)[recs[k].id] == CardFile(template, recs[k])
  {
    var rid := recs[k].id;
    forall i, j | && 0 <= i < |entries| && 0 <= j < |entries|
                  && CardOf(entries[i]).Some? && CardOf(entries[i]) == CardOf(entries[j])
      ensures entries[i] == entries[j]
    {
      assert entries[i] in entries && entries[j] in entries;
      var p := EntryOfCard(be, v, template, recs, f, entries[i]);
      var q := EntryOfCard(be, v, template, recs, f, entries[j]);
      assert p == q;
    }
    CardFilesExact(entries, rid);
    ExportedNameIsFound(rid, template(recs[k]));
    assert HasCard(v, template, recs[k], f);
    var e := Entry(CardFile(template, recs[k]), false);
    assert e in entries && CardOf(e) == Some(rid);
    var found := EntryOfCard(be, v, template, recs, f, Entry(CardFiles(entries)[rid], false));
    assert found == k;
  }

  // ---- the round trip

  /** The image library reads every stored card back and can store it again. */
  ghost predicate Decodes(v: Vault, decode: Decoder) {
    forall p :: p in v.blobs.cards ==>
      && decode(v.blobs.cards[p]).Some? && Storable(decode(v.blobs.cards[p]).value)
      && decode(v.blobs.cards[p]).value.card.body == v.blobs.cards[p].body
  }

  /** All records of a vault as a query returns them, in some order. */
  ghost predicate AllRecords(v: Vault, recs: seq<Record>)
    requires ReferencesOk(v.tables)
  {
    && DistinctIds(recs)
    && (forall i :: 0 <= i < |recs| ==>
          recs[i].id in v.tables.records && FindRecord(v.tables, recs[i].id) == Some(recs[i]))
    && forall r :: r in v.tables.records ==> exists i :: 0 <= i < |recs| && recs[i].id == r
  }

  /** Exporting a vault and importing the folder, with the workers on either side in
      any order, gives a vault that holds exactly the records whose current version
      could be read, each equal to the original but for its number, with their
      creators, tags and current images. */
  lemma RoundTrip(be: Backend, v: Vault, template: Template, recs: seq<Record>, entries: seq<Entry>,
                  be': Backend, decode: Decoder, rids: seq<RID>, items: seq<Item>)
    requires be'.max >= 1 && Sound(v.tables) && AllRecords(v, recs) && PngTemplate(template) && Decodes(v, decode)
    requires Lists(ExportAll(be, v, template, recs), entries)
    requires NoDuplicates(rids)
    requires IsItems(ExportAll(be, v, template, recs).index, CardFiles(entries), rids, items)
    ensures forall r :: r in rids <==> r in v.tables.records && Readable(v, r)
    ensures Imported(v, rids, ImportAll(be', ExportAll(be, v, template, recs).files, decode, items))
  {
    var f := ExportAll(be, v, template, recs);
    ExportLeaves(be, v, template, recs);
    forall r ensures r in rids <==> r in v.tables.records && Readable(v, r) {
      ItemExists(be, v, template, recs, f, entries, r);
    }
    forall k | 0 <= k < |rids|
      ensures rids[k] in v.tables.records && Carries(v, f.files, decode, rids[k], items[k])
    {
      ItemExists(be, v, template, recs, f, entries, rids[k]);
    }
    ImportIsFaithful(be', v, rids, f.files, decode, items);
  }

  /** A record has both an index entry and a file exactly if it could be read, and they are its own. */
  lemma ItemExists(be: Backend, v: Vault, template: Template, recs: seq<Record>, f: Folder, entries: seq<Entry>, r: RID)
    requires Sound(v.tables) && AllRecords(v, recs) && PngTemplate(template)
    requires Exported(be, v, template, recs, f) && Lists(f, entries)
    ensures r in f.index && r in CardFiles(entries) <==> r in v.tables.records && Readable(v, r)
    ensures r in v.tables.records && Readable(v, r) ==>
              && f.index[r] == FindRecord(v.tables, r).value && CardFiles(entries)[r] in f.files
              && f.files[CardFiles(entries)[r]] == v.blobs.cards[(r, v.tables.records[r].info.updateTime)]
  {
    assert r in f.index ==> ExportedId(be, v, recs, r);
    if r in v.tables.records && Readable(v, r) {
      var i :| 0 <= i < |recs| && recs[i].id == r;
      assert Exportable(be, v, recs[i]);
      assert HasCard(v, template, recs[i], f);
      CardFilesMatch(be, v, template, recs, f, entries, i);
    }
  }

  /** What a reader of the imported vault sees. */
  lemma ImportedRecord(v: Vault, order: seq<RID>, w: Vault, i: nat)
    requires Sound(v.tables) && Sound(w.tables) && Imported(v, order, w) && i < |order|
    ensures i + 1 < SIGN_BIT && order[i] in v.tables.records
    ensures FindRecord(w.tables, i + 1) == Some(FindRecord(v.tables, order[i]).value.(id := i + 1))
    ensures i + 1 in w.tables.records && Readable(w, i + 1)
  {
    assert ImageImported(v, order[i], i + 1, w.blobs);
    TagListAgrees(v.tables.tags, w.tables.tags, v.tables.records[order[i]].tags);
  }

  /** Every vault that a run has led to, with either backend and whatever commits
      failed, comes back but for the records whose current version the run has lost. */
  lemma EveryVaultComesBack(from: Backend, steps: seq<Step>, template: Template, recs: seq<Record>,
                            entries: seq<Entry>, be: Backend, decode: Decoder, rids: seq<RID>, items: seq<Item>)
    requires from.max >= 1 && be.max >= 1
    requires AllRecords(Run(from, steps), recs) && PngTemplate(template) && Decodes(Run(from, steps), decode)
    requires Lists(ExportAll(from, Run(from, steps), template, recs), entries)
    requires NoDuplicates(rids)
    requires IsItems(ExportAll(from, Run(from, steps), template, recs).index, CardFiles(entries), rids, items)
    ensures var v := Run(from, steps);
            && Imported(v, rids, ImportAll(be, ExportAll(from, v, template, recs).files, decode, items))
            && forall r :: r in rids <==> r in v.tables.records && r !in Lost(from, steps)
  {
    CurrentVersionsReadable(from, steps);
    RoundTrip(from, Run(from, steps), template, recs, entries, be, decode, rids, items);
  }

  /** With pblob and committing transactions nothing is lost. */
  lemma PebbleVaultComesBackWhole(max: int, steps: seq<Step>, template: Template, recs: seq<Record>,
                                  entries: seq<Entry>, be: Backend, decode: Decoder, rids: seq<RID>, items: seq<Item>)
    requires max >= 1 && be.max >= 1 && AllCommit(steps)
    requires AllRecords(Run(Pebble(max), steps), recs) && PngTemplate(template)
    requires Decodes(Run(Pebble(max), steps), decode)
    requires Lists(ExportAll(Pebble(max), Run(Pebble(max), steps), template, recs), entries)
    requires NoDuplicates(rids)
    requires IsItems(ExportAll(Pebble(max), Run(Pebble(max), steps), template, recs).index, CardFiles(entries),
                     rids, items)
    ensures forall r :: r in rids <==> r in Run(Pebble(max), steps).tables.records
  {
    CommittingRunsLose(Pebble(max), steps);
    EveryVaultComesBack(Pebble(max), steps, template, recs, entries, be, decode, rids, items);
  }
}
