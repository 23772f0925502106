/** What the repair of a stored record answers and leaves, said of the stored rows,
    images and sheets themselves. */
module RepairLaws {
  import opened Wrappers
  import opened Keys
  import opened Records
  import opened BlobSpec
  import opened CatalogSpec
  import opened RecordRepair
  import CatalogRuns
  import Integrity

  // ---- one call

  /** The image of a record's current version is stored and carries a sheet. */
  ghost predicate CanRead(be: Backend, lib: Library, v: Vault, rec: Record) {
    && Accepts(be, rec.id) && (rec.id, rec.info.updateTime) in v.blobs.cards
    && lib.sheetOf(v.blobs.cards[(rec.id, rec.info.updateTime)]).Some?
  }

  /** The card can be read, its thumbnail can be shown, and its sheet passes its own check. */
  ghost predicate Usable(be: Backend, env: Integrity.Env, lib: Library, v: Vault, rec: Record) {
    && CanRead(be, lib, v, rec)
    && rec.id in v.blobs.thumbs && lib.thumbnailOk(v.blobs.thumbs[rec.id])
    && env.sheetOk(lib.sheetOf(v.blobs.cards[(rec.id, rec.info.updateTime)]).value.(modificationDate := 0))
  }

  /** Repairing a stored record changes its book time, its greetings count and its sync
      mark at most, and gives its creator the record's own source. */
  ghost predicate OnlyRepaired(rec: Record, rec': Record) {
    && rec'.(info := rec.info, sync := rec.sync, creator := rec.creator) == rec
    && rec'.info.(bookUpdateTime := rec.info.bookUpdateTime, greetingsCount := rec.info.greetingsCount) == rec.info
    && rec'.creator.info == rec.creator.info
    && (rec'.creator.source == rec.creator.source || rec'.creator.source == rec.source)
  }

  /** A card that cannot be read is answered BROKEN, and nothing is changed. */
  lemma UnreadableIsBroken(be: Backend, env: Integrity.Env, lib: Library, v: Vault, rec: Record, commits: bool)
    requires Sound(v.tables) && !CanRead(be, lib, v, rec)
    ensures FixRecord(be, env, lib, v, rec, commits) == (v, rec, Integrity.BROKEN)
  {
  }

  /** An answer OK means that the card is usable as it is, and nothing has changed. An
      answer FIXED means that the card could be read and is usable now, that the save
      has committed, and that the record of that URL has the metadata of the record
      handed back and a fresh sync mark. In both cases the record handed back differs
      from the given one in its book time and greetings count at most. */
  lemma WhatAnAnswerMeans(be: Backend, env: Integrity.Env, lib: Library, v: Vault, rec: Record, commits: bool)
    requires Sound(v.tables)
    ensures var (v', rec', answer) := FixRecord(be, env, lib, v, rec, commits);
            && (answer == Integrity.OK ==> v' == v && rec' == rec && Usable(be, env, lib, v, rec))
            && (answer == Integrity.FIXED ==>
                  commits && CanRead(be, lib, v, rec) && Usable(be, env, lib, v', rec') && SavedAs(v', rec'))
            && OnlyRepaired(rec, rec') && rec'.sync == rec.sync && rec'.creator == rec.creator
  {
    var (v', rec', answer) := FixRecord(be, env, lib, v, rec, commits);
    if CanRead(be, lib, v, rec) {
      var card := v.blobs.cards[(rec.id, rec.info.updateTime)];
      var (d, sheet, verdict) := Integrity.Fix(env, DataOf(rec), lib.sheetOf(card).value);
      RepairedOnly(env, rec, lib.sheetOf(card).value);
      if verdict != Integrity.BROKEN && !(verdict == Integrity.OK && ThumbnailOk(be, lib, v.blobs, rec.id)) {
        assert (v', rec', answer) == SaveRepaired(be, env, lib, v, Repaired(rec, d), card, sheet, commits);
        if answer == Integrity.FIXED {
          FixedIsSaved(be, env, lib, v, rec', card, sheet, commits);
        }
      }
    }
  }

  lemma RepairedOnly(env: Integrity.Env, rec: Record, sheet: Integrity.SheetData)
    ensures var (d, sheet', verdict) := Integrity.Fix(env, DataOf(rec), sheet);
            && OnlyRepaired(rec, Repaired(rec, d))
            && (verdict == Integrity.OK ==>
                  Repaired(rec, d) == rec && sheet' == sheet && env.sheetOk(sheet.(modificationDate := 0)))
  {
  }

  ghost predicate SavedAs(v: Vault, rec: Record) {
    exists r :: r in v.tables.records && v.tables.records[r].info == rec.info
                && v.tables.records[r].source == rec.source
                && v.tables.records[r].sync == SyncData(Success, rec.info.updateTime)
  }

  lemma FixedIsSaved(be: Backend, env: Integrity.Env, lib: Library, v: Vault, rec: Record, card: Card,
                     sheet: Integrity.SheetData, commits: bool)
    requires Sound(v.tables) && SaveRepaired(be, env, lib, v, rec, card, sheet, commits).2 == Integrity.FIXED
    ensures var v' := SaveRepaired(be, env, lib, v, rec, card, sheet, commits).0;
            commits && SavedAs(v', rec) && Usable(be, env, lib, v', rec)
  {
    var e := SaveCard(ToMetadata(rec), lib.encode(card, sheet), rec.info.updateTime, 0);
    WriteParts(be, v, e, commits);
    SaveKeepsIdentity(v.tables, e.meta, e.time, e.index, 0);
  }

  // ---- any number of calls

  /** A stored record whose card cannot be read is answered BROKEN each time, and
      nothing is ever changed. */
  lemma UnreadableStaysBroken(be: Backend, env: Integrity.Env, lib: Library, v: Vault, r: RID, n: nat)
    requires Sound(v.tables) && r in v.tables.records && !CanRead(be, lib, v, FindRecord(v.tables, r).value)
    ensures AnswerAt(be, env, lib, v, r, n) == Integrity.BROKEN && AfterRepairs(be, env, lib, v, r, n) == v
  {
    UnreadableIsBroken(be, env, lib, v, FindRecord(v.tables, r).value, true);
    StaysUnchanged(be, env, lib, v, r, n);
  }

  /** Such records come about: with one version kept by sqlblob, saving a card of an
      older version leaves a record that no repair mends. */
  lemma StaleSaveIsNeverRepaired(env: Integrity.Env, lib: Library, url: string, newer: Version, older: Version, n: nat)
    requires older < newer
    ensures var be := Sqlite(1);
            var v := Run(be, [Step(CatalogRuns.SaveUrl(url, newer), true)]
                             + [Step(CatalogRuns.SaveUrl(url, older), true)]);
            && 1 in v.tables.records && AnswerAt(be, env, lib, v, 1, n) == Integrity.BROKEN
            && AfterRepairs(be, env, lib, v, 1, n) == v
  {
    CatalogRuns.StaleSaveInARun(url, newer, older);
    var be := Sqlite(1);
    var v := Run(be, [Step(CatalogRuns.SaveUrl(url, newer), true)] + [Step(CatalogRuns.SaveUrl(url, older), true)]);
    UnreadableStaysBroken(be, env, lib, v, 1, n);
  }

  lemma {:induction false} OnlyRepairedAfter(be: Backend, env: Integrity.Env, lib: Library, v: Vault, r: RID,
                                             d: Integrity.RecordData, sheet: Integrity.SheetData, n: nat)
    requires Stores(lib) && Intact(be, lib, v, r, d, sheet) && Integrity.Repairable(env, d, sheet)
    ensures var u := AfterRepairs(be, env, lib, v, r, n);
            r in u.tables.records && OnlyRepaired(FindRecord(v.tables, r).value, FindRecord(u.tables, r).value)
  {
    if n > 0 {
      var (d1, sheet1) := Integrity.AfterCalls(env, d, sheet, n - 1);
      RepairsFollow(be, env, lib, v, r, d, sheet, n - 1);
      OnlyRepairedAfter(be, env, lib, v, r, d, sheet, n - 1);
      OneMoreRepair(be, env, lib, v, r, FindRecord(v.tables, r).value, d1, sheet1, n);
    }
  }

  lemma OneMoreRepair(be: Backend, env: Integrity.Env, lib: Library, v: Vault, r: RID, rec: Record,
                      d: Integrity.RecordData, sheet: Integrity.SheetData, n: nat)
    requires n > 0 && Stores(lib) && Sound(v.tables)
    requires var u := AfterRepairs(be, env, lib, v, r, n - 1);
             Intact(be, lib, u, r, d, sheet) && OnlyRepaired(rec, FindRecord(u.tables, r).value)
    requires Integrity.Repairable(env, d, sheet)
    ensures var u := AfterRepairs(be, env, lib, v, r, n);
            r in u.tables.records && OnlyRepaired(rec, FindRecord(u.tables, r).value)
  {
    OnlyRepairedOnce(be, env, lib, AfterRepairs(be, env, lib, v, r, n - 1), r, d, sheet);
  }

  lemma OnlyRepairedOnce(be: Backend, env: Integrity.Env, lib: Library, v: Vault, r: RID, d: Integrity.RecordData,
                         sheet: Integrity.SheetData)
    requires Stores(lib) && Intact(be, lib, v, r, d, sheet) && Integrity.Repairable(env, d, sheet)
    ensures var rec := FindRecord(v.tables, r).value;
            var v' := FixRecord(be, env, lib, v, rec, true).0;
            r in v'.tables.records && OnlyRepaired(rec, FindRecord(v'.tables, r).value)
  {
    var rec := FindRecord(v.tables, r).value;
    var card := v.blobs.cards[(r, rec.info.updateTime)];
    var (d', sheet', _) := Integrity.Fix(env, d, sheet);
    WhetherItSaves(be, env, lib, v, r, d, sheet);
    SavedIntact(be, env, lib, v, r, d, sheet);
    SavedTables(be, lib, v, r, d', lib.encode(card, sheet'));
  }

  /** The fields of a sheet hold what the fields of the stored record of the same
      meaning hold. */
  predicate SheetTells(env: Integrity.Env, rec: Record, s: Integrity.SheetData) {
    && s.sourceID == SourceName(rec.source) && s.characterID == rec.info.characterID
    && s.platformID == rec.info.platformID && s.directLink == rec.info.directURL
    && s.title == rec.info.title && s.name == rec.info.name && s.creator == rec.creator.info.nickname
    && s.creationDate == env.seconds(rec.info.createTime)
    && s.modificationDate == env.seconds(Integrity.LaterOf(rec.info.updateTime, rec.info.bookUpdateTime))
    && |s.tags| == |rec.tags| && (forall i :: 0 <= i < |s.tags| ==> s.tags[i] == rec.tags[i].name)
  }

  /** Once the repairs are done, the stored record and the sheet in its stored image
      agree field by field; the sheet's notes, greetings and book are those it had, and
      so is all of the record but its book time, greetings count, sync mark and its
      creator's source. */
  lemma StoredFieldsAgree(be: Backend, env: Integrity.Env, lib: Library, v: Vault, r: RID, d: Integrity.RecordData,
                          sheet: Integrity.SheetData, n: nat)
    requires Stores(lib) && Intact(be, lib, v, r, d, sheet) && Integrity.Repairable(env, d, sheet)
    requires n >= Integrity.Repairs(env, d, sheet)
    ensures var u := AfterRepairs(be, env, lib, v, r, n);
            && r in u.tables.records && OnlyRepaired(FindRecord(v.tables, r).value, FindRecord(u.tables, r).value)
            && var rec := FindRecord(u.tables, r).value;
               && CanRead(be, lib, u, rec)
               && var s := lib.sheetOf(u.blobs.cards[(r, rec.info.updateTime)]).value;
                  && SheetTells(env, rec, s)
                  && rec.info.greetingsCount == |s.greetings| && (rec.info.bookUpdateTime == 0 <==> !s.hasBook)
                  && s.creatorNotes == sheet.creatorNotes && s.greetings == sheet.greetings
                  && s.hasBook == sheet.hasBook
  {
    RepairsFollow(be, env, lib, v, r, d, sheet, n);
    OnlyRepairedAfter(be, env, lib, v, r, d, sheet, n);
    Integrity.AgreeInTheEnd(env, d, sheet, n);
  }

  /** A stored record whose card can be read is answered BROKEN, each time, exactly if
      it lacks one of these fields, has impossible times, does not begin the sheet's
      notes with its tagline, or the sheet with its fields fails its own check. */
  lemma WhatStaysBroken(be: Backend, env: Integrity.Env, lib: Library, v: Vault, r: RID, d: Integrity.RecordData,
                        sheet: Integrity.SheetData, n: nat)
    requires Stores(lib) && Intact(be, lib, v, r, d, sheet)
    ensures var rec := FindRecord(v.tables, r).value;
            var info, creator := rec.info, rec.creator.info;
            AnswerAt(be, env, lib, v, r, n) == Integrity.BROKEN <==>
            || !env.notBlank(SourceName(rec.source)) || !env.notBlank(info.normalizedURL)
            || !env.notBlank(info.directURL) || !env.notBlank(info.platformID) || !env.notBlank(info.characterID)
            || !env.notBlank(info.name) || !env.notBlank(info.title)
            || info.createTime <= 0 || info.updateTime <= 0 || info.updateTime < info.createTime
            || !env.notBlank(creator.nickname) || !env.notBlank(creator.username)
            || (!env.anonymous(creator.nickname) && !env.notBlank(creator.platformID))
            || !(info.tagline <= sheet.creatorNotes)
            || !env.sheetOk(Integrity.SheetData(
                 SourceName(rec.source), info.characterID, info.platformID, info.directURL, info.title, info.name,
                 creator.nickname, env.seconds(info.createTime), 0, TagNames(rec.tags), sheet.creatorNotes,
                 sheet.greetings, sheet.hasBook))
  {
    Integrity.WhatIsBroken(env, d, sheet);
    if Integrity.Repairable(env, d, sheet) {
      StoredRepairsConverge(be, env, lib, v, r, d, sheet, n);
    } else {
      UnrepairableStays(be, env, lib, v, r, d, sheet, n);
    }
  }
}
