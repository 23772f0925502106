/** Exporting a vault into a folder of files and importing that folder into a new vault. */
module VaultTransfer {
  import opened Wrappers
  import opened Keys
  import opened Records
  import opened BlobSpec
  import opened CatalogSpec
  import opened VaultFiles
  import Catalog
  import RecordStore

  /** The export folder: card files by name, and the contents of its index file. */
  datatype Folder = Folder(files: map<string, Card>, index: map<RID, Record>)

  datatype Report = Report(progress: nat, successes: nat, failures: nat, failed: seq<string>)

  /** The file name template, already made safe for a file system. */
  type Template = Record -> string

  // ---- export

  function CardFile(template: Template, rec: Record): string {
    FileName(rec.id, template(rec))
  }

  ghost predicate Exportable(be: Backend, v: Vault, rec: Record) {
    Accepts(be, rec.id) && (rec.id, rec.info.updateTime) in v.blobs.cards
  }

  ghost function ExportOne(be: Backend, v: Vault, template: Template, f: Folder, rec: Record): Folder {
    if !Exportable(be, v, rec) then f
    else Folder(f.files[CardFile(template, rec) := v.blobs.cards[(rec.id, rec.info.updateTime)]],
                f.index[rec.id := rec])
  }

  /** Workers finish their cards in some order. */
  ghost function ExportAll(be: Backend, v: Vault, template: Template, recs: seq<Record>): Folder {
    if recs == [] then Folder(map[], map[])
    else ExportOne(be, v, template, ExportAll(be, v, template, recs[..|recs| - 1]), recs[|recs| - 1])
  }

  /** The shared state of the export workers. */
  class VaultExport {
    const template: Template
    var files: map<string, Card>
    var index: map<RID, Record>
    var report: Report

    constructor (template: Template)
      ensures this.template == template && files == map[] && index == map[] && report == Report(0, 0, 0, [])
    {
      this.template := template;
      files, index, report := map[], map[], Report(0, 0, 0, []);
    }

    method ExportVaultCard(cat: Catalog.Catalog, rec: Record)
      requires cat.Valid() && cat.blobs.Repr() != this
      modifies this
      ensures Folder(files, index) ==
              ExportOne(cat.blobs.Kind(), cat.Contents(), template, Folder(old(files), old(index)), rec)
      ensures report == Counted(old(report), rec, Exportable(cat.blobs.Kind(), cat.Contents(), rec))
    {
      var card := cat.GetCardBytes(rec.id, rec.info.updateTime);
      if card.None? {
        report := Counted(report, rec, false);
        return;
      }
      var filename := FileName(rec.id, template(rec));
      files := files[filename := card.value];
      index := index[rec.id := rec];
      report := Counted(report, rec, true);
    }
  }

  predicate DistinctIds(recs: seq<Record>) {
    forall i, j :: 0 <= i < j < |recs| ==> recs[i].id != recs[j].id
  }

  /** Which records were exported. */
  ghost predicate WereExported(be: Backend, v: Vault, recs: seq<Record>, oks: seq<bool>) {
    |oks| == |recs| && forall i :: 0 <= i < |recs| ==> (oks[i] <==> Exportable(be, v, recs[i]))
  }

  lemma OneMoreExported(be: Backend, v: Vault, template: Template, recs: seq<Record>, oks: seq<bool>, rec: Record)
    requires WereExported(be, v, recs, oks)
    ensures WereExported(be, v, recs + [rec], oks + [Exportable(be, v, rec)])
    ensures ExportAll(be, v, template, recs + [rec])
            == ExportOne(be, v, template, ExportAll(be, v, template, recs), rec)
  {
    assert (recs + [rec])[..|recs|] == recs;
  }

  /** Workers take the records in some order; each exports its own. */
  method RunExport(cat: Catalog.Catalog, template: Template, recs: seq<Record>)
      returns (f: Folder, report: Report, ghost oks: seq<bool>)
    requires cat.Valid()
    ensures f == ExportAll(cat.blobs.Kind(), cat.Contents(), template, recs)
    ensures WereExported(cat.blobs.Kind(), cat.Contents(), recs, oks)
    ensures Reports(report, recs, oks)
  {
    var worker := new VaultExport(template);
    ghost var be, v := cat.blobs.Kind(), cat.Contents();
    oks := [];
    NothingReported();
    for i := 0 to |recs|
      invariant fresh(worker) && cat.Valid() && worker.template == template
      invariant Folder(worker.files, worker.index) == ExportAll(be, v, template, recs[..i])
      invariant WereExported(be, v, recs[..i], oks)
      invariant Reports(worker.report, recs[..i], oks)
    {
      ghost var ok := Exportable(be, v, recs[i]);
      OneMoreExported(be, v, template, recs[..i], oks, recs[i]);
      OneMoreReported(worker.report, recs[..i], oks, recs[i], ok);
      worker.ExportVaultCard(cat, recs[i]);
      oks := oks + [ok];
      assert recs[..i + 1] == recs[..i] + [recs[i]];
    }
    assert recs[..|recs|] == recs;
    f, report := Folder(worker.files, worker.index), worker.report;
  }

  /** An export of distinct records reports as many successes as the index has entries. */
  lemma SuccessesAreEntries(be: Backend, v: Vault, template: Template, recs: seq<Record>, oks: seq<bool>,
                            report: Report)
    requires DistinctIds(recs) && WereExported(be, v, recs, oks) && Reports(report, recs, oks)
    ensures report.successes == |ExportAll(be, v, template, recs).index|
  {
    ExportedCount(be, v, template, recs, oks);
  }

  lemma {:induction false} ExportedCount(be: Backend, v: Vault, template: Template, recs: seq<Record>, oks: seq<bool>)
    requires DistinctIds(recs) && WereExported(be, v, recs, oks)
    ensures |ExportAll(be, v, template, recs).index| == Successes(oks)
  {
    if recs != [] {
      var n := |recs| - 1;
      ExportedCount(be, v, template, recs[..n], oks[..n]);
      var index := ExportAll(be, v, template, recs[..n]).index;
      assert recs[n].id !in index by {
        IndexIsOfRecords(be, v, template, recs[..n], recs[n].id);
      }
      if oks[n] {
        assert index[recs[n].id := recs[n]].Keys == index.Keys + {recs[n].id};
      }
    }
  }

  lemma {:induction false} IndexIsOfRecords(be: Backend, v: Vault, template: Template, recs: seq<Record>, r: RID)
    requires forall i :: 0 <= i < |recs| ==> recs[i].id != r
    ensures r !in ExportAll(be, v, template, recs).index
  {
    if recs != [] {
      IndexIsOfRecords(be, v, template, recs[..|recs| - 1], r);
    }
  }

  // ---- reports

  function Counted(r: Report, rec: Record, success: bool): Report {
    if success then r.(progress := r.progress + 1, successes := r.successes + 1)
    else r.(progress := r.progress + 1, failures := r.failures + 1, failed := r.failed + [rec.info.title])
  }

  function Successes(oks: seq<bool>): nat {
    if oks == [] then 0 else Successes(oks[..|oks| - 1]) + if oks[|oks| - 1] then 1 else 0
  }

  /** The titles of the records that failed, in order. */
  function FailedOf(recs: seq<Record>, oks: seq<bool>): seq<string>
    requires |oks| == |recs|
  {
    if recs == [] then []
    else
      var n := |recs| - 1;
      FailedOf(recs[..n], oks[..n]) + if oks[n] then [] else [recs[n].info.title]
  }

  /** A report counts each record once, as a success or as a failure with its title. */
  predicate Reports(r: Report, recs: seq<Record>, oks: seq<bool>) {
    && |oks| == |recs| == r.progress && r.successes == Successes(oks)
    && r.failed == FailedOf(recs, oks) && r.failures == |r.failed|
  }

  lemma {:induction false} ReportAddsUp(r: Report, recs: seq<Record>, oks: seq<bool>)
    requires Reports(r, recs, oks)
    ensures r.successes + r.failures == r.progress
  {
    FailuresAreTheRest(recs, oks);
  }

  lemma {:induction false} FailuresAreTheRest(recs: seq<Record>, oks: seq<bool>)
    requires |oks| == |recs|
    ensures Successes(oks) + |FailedOf(recs, oks)| == |oks|
  {
    if oks != [] {
      FailuresAreTheRest(recs[..|recs| - 1], oks[..|oks| - 1]);
    }
  }

  lemma NothingReported()
    ensures Reports(Report(0, 0, 0, []), [], [])
  {
  }

  lemma OneMoreReported(r: Report, recs: seq<Record>, oks: seq<bool>, rec: Record, ok: bool)
    requires Reports(r, recs, oks)
    ensures Reports(Counted(r, rec, ok), recs + [rec], oks + [ok])
  {
    assert (oks + [ok])[..|oks|] == oks && (recs + [rec])[..|recs|] == recs;
  }

  // ---- import

  /** What the image library makes of a card file. */
  type Decoder = Card -> Option<Upload>

  datatype Item = Item(rec: Record, path: string)

  function Load(files: map<string, Card>, decode: Decoder, path: string): Option<Upload> {
    if path in files then decode(files[path]) else None
  }

  ghost function ImportOne(be: Backend, v: Vault, files: map<string, Card>, decode: Decoder, item: Item): Vault
    requires Sound(v.tables)
  {
    match Load(files, decode, item.path)
    case None => v
    case Some(up) => Write(be, v, RestoreCard(item.rec, up), true).0
  }

  /** The card of an item can be read, decoded and restored. */
  ghost predicate Restores(be: Backend, v: Vault, files: map<string, Card>, decode: Decoder, item: Item)
    requires Sound(v.tables)
  {
    && item.path in files && decode(files[item.path]).Some?
    && Write(be, v, RestoreCard(item.rec, decode(files[item.path]).value), true).1 == Done
  }

  /** Workers restore their cards one after the other, in some order. */
  ghost function ImportAll(be: Backend, files: map<string, Card>, decode: Decoder, items: seq<Item>): (v: Vault)
    ensures Sound(v.tables)
  {
    if items == [] then EMPTY_VAULT
    else
      var v := ImportAll(be, files, decode, items[..|items| - 1]);
      var item := items[|items| - 1];
      ImportSound(be, v, files, decode, item);
      ImportOne(be, v, files, decode, item)
  }

  lemma ImportSound(be: Backend, v: Vault, files: map<string, Card>, decode: Decoder, item: Item)
    requires Sound(v.tables)
    ensures Sound(ImportOne(be, v, files, decode, item).tables)
  {
    match Load(files, decode, item.path)
    case None =>
    case Some(up) => WriteSound(be, v, RestoreCard(item.rec, up), true);
  }

  method ImportVaultCard(cat: Catalog.Catalog, files: map<string, Card>, decode: Decoder, item: Item)
      returns (ok: bool)
    requires cat.Valid()
    modifies cat.records, cat.blobs.Repr()
    ensures cat.Valid()
    ensures cat.Contents() == ImportOne(cat.blobs.Kind(), old(cat.Contents()), files, decode, item)
    ensures ok <==> Restores(cat.blobs.Kind(), old(cat.Contents()), files, decode, item)
  {
    var up := Load(files, decode, item.path);
    if up.None? {
      return false;
    }
    var card := new Catalog.CharacterCard(up.value);
    var rid, outcome := cat.RestoreCard(item.rec, card, true);
    ok := outcome == Done;
  }

  /** The cards of the index that have a file. */
  method ImportItems(index: map<RID, Record>, cardFiles: map<RID, string>) returns (items: seq<Item>)
    ensures exists rids :: RecordStore.NoDuplicates(rids) && IsItems(index, cardFiles, rids, items)
  {
    var rids := RecordStore.Enumerate(index.Keys);
    items := [];
    ghost var chosen: seq<RID> := [];
    for i := 0 to |rids|
      invariant RecordStore.NoDuplicates(chosen) && |items| == |chosen|
      invariant forall r :: r in chosen <==> r in rids[..i] && r in cardFiles
      invariant forall k :: 0 <= k < |items| ==>
                  && chosen[k] in index && chosen[k] in cardFiles
                  && items[k] == Item(index[chosen[k]], cardFiles[chosen[k]])
    {
      var rid := rids[i];
      assert rid in rids && rid !in rids[..i];
      if rid in cardFiles {
        items := items + [Item(index[rid], cardFiles[rid])];
        chosen := chosen + [rid];
      }
    }
    assert IsItems(index, cardFiles, chosen, items);
  }

  /** One item for each identifier that has both a record and a file. */
  ghost predicate IsItems(index: map<RID, Record>, cardFiles: map<RID, string>, rids: seq<RID>, items: seq<Item>) {
    && |items| == |rids|
    && (forall r :: r in rids <==> r in index && r in cardFiles)
    && forall k :: 0 <= k < |rids| ==> rids[k] in rids && items[k] == Item(index[rids[k]], cardFiles[rids[k]])
  }

  function RecordsOf(items: seq<Item>): seq<Record> {
    seq(|items|, i requires 0 <= i < |items| => items[i].rec)
  }

  /** Which items were restored, each into the vault left by those before it. */
  ghost predicate WereRestored(be: Backend, files: map<string, Card>, decode: Decoder, items: seq<Item>,
                               oks: seq<bool>) {
    && |oks| == |items|
    && forall i :: 0 <= i < |items| ==>
         (oks[i] <==> Restores(be, ImportAll(be, files, decode, items[..i]), files, decode, items[i]))
  }

  lemma OneMoreRestored(be: Backend, files: map<string, Card>, decode: Decoder, items: seq<Item>, oks: seq<bool>,
                        item: Item, ok: bool)
    requires WereRestored(be, files, decode, items, oks)
    requires ok <==> Restores(be, ImportAll(be, files, decode, items), files, decode, item)
    ensures WereRestored(be, files, decode, items + [item], oks + [ok])
    ensures ImportAll(be, files, decode, items + [item])
            == ImportOne(be, ImportAll(be, files, decode, items), files, decode, item)
    ensures RecordsOf(items + [item]) == RecordsOf(items) + [item.rec]
  {
    var all := items + [item];
    assert all[..|items|] == items;
    forall i | 0 <= i < |items| ensures all[..i] == items[..i] {
    }
  }

  method RunImport(cat: Catalog.Catalog, files: map<string, Card>, decode: Decoder, items: seq<Item>)
      returns (report: Report, ghost oks: seq<bool>)
    requires cat.Valid() && cat.Contents() == EMPTY_VAULT
    modifies cat.records, cat.blobs.Repr()
    ensures cat.Valid()
    ensures cat.Contents() == ImportAll(cat.blobs.Kind(), files, decode, items)
    ensures WereRestored(cat.blobs.Kind(), files, decode, items, oks)
    ensures Reports(report, RecordsOf(items), oks)
  {
    report, oks := Report(0, 0, 0, []), [];
    ghost var be := cat.blobs.Kind();
    NothingReported();
    assert RecordsOf(items[..0]) == [];
    for i := 0 to |items|
      invariant cat.Valid() && cat.Contents() == ImportAll(be, files, decode, items[..i])
      invariant WereRestored(be, files, decode, items[..i], oks)
      invariant Reports(report, RecordsOf(items[..i]), oks)
    {
      ghost var done := items[..i];
      var ok := ImportVaultCard(cat, files, decode, items[i]);
      OneMoreRestored(be, files, decode, done, oks, items[i], ok);
      OneMoreReported(report, RecordsOf(done), oks, items[i].rec, ok);
      report := Counted(report, items[i].rec, ok);
      oks := oks + [ok];
      assert items[..i + 1] == done + [items[i]];
    }
    assert items[..|items|] == items;
  }
}
