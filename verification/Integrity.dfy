/** Repairing a record and its sheet against each other. */
module Integrity {
  import Records

  datatype Verdict = OK | FIXED | BROKEN

  /** The libraries the repair relies on: seconds of a timestamp, the sheet's own
      check, blank strings and the anonymous nickname. */
  datatype Env = Env(
    seconds: int -> int, sheetOk: SheetData -> bool, notBlank: string -> bool, anonymous: string -> bool)

  datatype RecordData = RecordData(
    source: string, normalizedURL: string, directURL: string, platformID: string, characterID: string,
    name: string, title: string, tagline: string, createTime: int, updateTime: int, bookUpdateTime: int,
    greetingsCount: int, nickname: string, username: string, creatorPlatformID: string, tags: seq<Records.Tag>)

  datatype SheetData = SheetData(
    sourceID: string, characterID: string, platformID: string, directLink: string, title: string, name: string,
    creator: string, creationDate: int, modificationDate: int, tags: seq<string>,
    creatorNotes: string, greetings: seq<string>, hasBook: bool)

  function LatestUpdateTime(r: RecordData): int {
    if r.updateTime >= r.bookUpdateTime then r.updateTime else r.bookUpdateTime
  }

  predicate RecordOk(env: Env, r: RecordData) {
    && env.notBlank(r.source) && env.notBlank(r.normalizedURL) && env.notBlank(r.directURL)
    && env.notBlank(r.platformID) && env.notBlank(r.characterID) && env.notBlank(r.name) && env.notBlank(r.title)
    && r.createTime > 0 && r.updateTime > 0 && r.updateTime >= r.createTime
    && env.notBlank(r.nickname) && env.notBlank(r.username)
    && (env.anonymous(r.nickname) || env.notBlank(r.creatorPlatformID))
  }

  /** The sheet's own check does not look at the modification date. */
  predicate SheetOk(env: Env, s: SheetData) {
    env.sheetOk(s.(modificationDate := 0))
  }

  predicate IsBroken(env: Env, r: RecordData, s: SheetData) {
    !RecordOk(env, r) || !(r.tagline <= s.creatorNotes)
  }

  function SyncedIdentity(r: RecordData, s: SheetData): SheetData {
    s.(sourceID := r.source, characterID := r.characterID, platformID := r.platformID, directLink := r.directURL)
  }

  function SyncedNames(r: RecordData, s: SheetData): SheetData {
    s.(title := r.title, name := r.name, creator := r.nickname)
  }

  function SyncedDates(env: Env, r: RecordData, s: SheetData): SheetData {
    s.(creationDate := env.seconds(r.createTime), modificationDate := env.seconds(LatestUpdateTime(r)),
       tags := Records.TagNames(r.tags))
  }

  /** The sheet with every synchronised field taken from the record. */
  function SyncedSheet(env: Env, r: RecordData, s: SheetData): SheetData {
    SyncedDates(env, r, SyncedNames(r, SyncedIdentity(r, s)))
  }

  /** The record with its greetings count and book time taken from the sheet. */
  function SyncedRecord(r: RecordData, s: SheetData): RecordData {
    r.(greetingsCount := |s.greetings|,
       bookUpdateTime :=
         if !s.hasBook then 0 else if r.bookUpdateTime == 0 then LatestUpdateTime(r) else r.bookUpdateTime)
  }

  /** One call: the record is only looked at when the sheet needed nothing. */
  function Fix(env: Env, r: RecordData, s: SheetData): (RecordData, SheetData, Verdict) {
    if IsBroken(env, r, s) then (r, s, BROKEN)
    else
      var s' := SyncedSheet(env, r, s);
      var r' := if s' != s then r else SyncedRecord(r, s);
      (r', s', if !SheetOk(env, s') then BROKEN else if s' != s || r' != r then FIXED else OK)
  }

  // ---- the code, in place

  class Record {
    var source: string
    var normalizedURL: string
    var directURL: string
    var platformID: string
    var characterID: string
    var name: string
    var title: string
    var tagline: string
    var createTime: int
    var updateTime: int
    var bookUpdateTime: int
    var greetingsCount: int
    var nickname: string
    var username: string
    var creatorPlatformID: string
    var tags: seq<Records.Tag>

    constructor (d: RecordData)
      ensures Data() == d
    {
      source, normalizedURL, directURL := d.source, d.normalizedURL, d.directURL;
      platformID, characterID, name := d.platformID, d.characterID, d.name;
      title, tagline, createTime, updateTime := d.title, d.tagline, d.createTime, d.updateTime;
      bookUpdateTime, greetingsCount, nickname := d.bookUpdateTime, d.greetingsCount, d.nickname;
      username, creatorPlatformID, tags := d.username, d.creatorPlatformID, d.tags;
    }

    function Data(): RecordData
      reads this
    {
      RecordData(source, normalizedURL, directURL, platformID, characterID, name, title, tagline, createTime,
                 updateTime, bookUpdateTime, greetingsCount, nickname, username, creatorPlatformID, tags)
    }

    /** Copies the record's data into the sheet, field by field. */
    method SyncSheetFields(env: Env, sheet: Sheet) returns (updated: bool)
      modifies sheet
      ensures sheet.Data() == SyncedSheet(env, Data(), old(sheet.Data()))
      ensures updated <==> sheet.Data() != old(sheet.Data())
    {
      var identity := SyncSheetIdentity(sheet);
      var names := SyncSheetNames(sheet);
      var dates := SyncSheetDates(env, sheet);
      updated := identity || names || dates;
    }

    /** The identifiers and the link. */
    method SyncSheetIdentity(sheet: Sheet) returns (updated: bool)
      modifies sheet
      ensures sheet.Data() == SyncedIdentity(Data(), old(sheet.Data()))
      ensures updated <==> sheet.Data() != old(sheet.Data())
    {
      updated := false;
      if source != sheet.sourceID {
        sheet.sourceID := source;
        updated := true;
      }
      if characterID != sheet.characterID {
        sheet.characterID := characterID;
        updated := true;
      }
      if platformID != sheet.platformID {
        sheet.platformID := platformID;
        updated := true;
      }
      if directURL != sheet.directLink {
        sheet.directLink := directURL;
        updated := true;
      }
    }

    method SyncSheetNames(sheet: Sheet) returns (updated: bool)
      modifies sheet
      ensures sheet.Data() == SyncedNames(Data(), old(sheet.Data()))
      ensures updated <==> sheet.Data() != old(sheet.Data())
    {
      updated := false;
      if title != sheet.title {
        sheet.title := title;
        updated := true;
      }
      if name != sheet.name {
        sheet.name := name;
        updated := true;
      }
      if nickname != sheet.creator {
        sheet.creator := nickname;
        updated := true;
      }
    }

    /** The dates, in seconds, and the tags. */
    method SyncSheetDates(env: Env, sheet: Sheet) returns (updated: bool)
      modifies sheet
      ensures sheet.Data() == SyncedDates(env, Data(), old(sheet.Data()))
      ensures updated <==> sheet.Data() != old(sheet.Data())
    {
      updated := false;
      var createDateSeconds := env.seconds(createTime);
      if createDateSeconds != sheet.creationDate {
        sheet.creationDate := createDateSeconds;
        updated := true;
      }
      var modificationDateSeconds := env.seconds(LatestUpdateTime(Data()));
      if modificationDateSeconds != sheet.modificationDate {
        sheet.modificationDate := modificationDateSeconds;
        updated := true;
      }
      var recordTags := Records.TagNames(tags);
      if recordTags != sheet.tags {
        sheet.tags := recordTags;
        updated := true;
      }
    }

    /** Copies the sheet's greetings count and the presence of a book into the record. */
    method SyncRecordFields(sheet: Sheet) returns (updated: bool)
      requires updateTime > 0
      modifies this
      ensures Data() == SyncedRecord(old(Data()), sheet.Data())
      ensures updated <==> Data() != old(Data())
    {
      updated := false;
      if |sheet.greetings| != greetingsCount {
        greetingsCount := |sheet.greetings|;
        updated := true;
      }
      if !sheet.hasBook && bookUpdateTime != 0 {
        bookUpdateTime := 0;
        updated := true;
      }
      if sheet.hasBook && bookUpdateTime == 0 {
        bookUpdateTime := LatestUpdateTime(Data());
        updated := true;
      }
    }
  }

  class Sheet {
    var sourceID: string
    var characterID: string
    var platformID: string
    var directLink: string
    var title: string
    var name: string
    var creator: string
    var creationDate: int
    var modificationDate: int
    var tags: seq<string>
    var creatorNotes: string
    var greetings: seq<string>
    var hasBook: bool

    constructor (d: SheetData)
      ensures Data() == d
    {
      sourceID, characterID, platformID, directLink := d.sourceID, d.characterID, d.platformID, d.directLink;
      title, name, creator := d.title, d.name, d.creator;
      creationDate, modificationDate, tags := d.creationDate, d.modificationDate, d.tags;
      creatorNotes, greetings, hasBook := d.creatorNotes, d.greetings, d.hasBook;
    }

    function Data(): SheetData
      reads this
    {
      SheetData(sourceID, characterID, platformID, directLink, title, name, creator, creationDate,
                modificationDate, tags, creatorNotes, greetings, hasBook)
    }
  }

  /** A record without a sheet, or a sheet without a record, is broken. */
  method FixIntegrity(env: Env, r: Record?, sheet: Sheet?) returns (verdict: Verdict)
    requires r != null || sheet != null
    modifies r, sheet
    ensures r == null || sheet == null ==> verdict == BROKEN
    ensures r == null ==> sheet.Data() == old(sheet.Data())
    ensures sheet == null ==> r.Data() == old(r.Data())
    ensures r != null && sheet != null ==>
              (r.Data(), sheet.Data(), verdict) == Fix(env, old(r.Data()), old(sheet.Data()))
  {
    if r == null || sheet == null {
      return BROKEN;
    }
    if IsBroken(env, r.Data(), sheet.Data()) {
      return BROKEN;
    }
    var updated := r.SyncSheetFields(env, sheet);
    if !updated {
      updated := r.SyncRecordFields(sheet);
    }
    if !SheetOk(env, sheet.Data()) {
      verdict := BROKEN;
    } else if updated {
      verdict := FIXED;
    } else {
      verdict := OK;
    }
  }

  // ---- repeating the repair

  /** The record and sheet after n calls. */
  function AfterCalls(env: Env, r: RecordData, s: SheetData, n: nat): (RecordData, SheetData) {
    if n == 0 then (r, s)
    else
      var (r', s') := AfterCalls(env, r, s, n - 1);
      (Fix(env, r', s').0, Fix(env, r', s').1)
  }

  /** What call number n (from 0) answers. */
  function Answer(env: Env, r: RecordData, s: SheetData, n: nat): Verdict {
    var (r', s') := AfterCalls(env, r, s, n);
    Fix(env, r', s').2
  }

  /** Repairs still to come: the sheet, then the record, then the sheet once more
      if giving up a stale book time moves the modification date. */
  function Repairs(env: Env, r: RecordData, s: SheetData): nat {
    (if SyncedSheet(env, r, s) != s then 1 else 0)
    + (if SyncedRecord(r, s) != r then 1 else 0)
    + (if MovesDate(env, r, s) then 1 else 0)
  }

  predicate MovesDate(env: Env, r: RecordData, s: SheetData) {
    env.seconds(LatestUpdateTime(SyncedRecord(r, s))) != env.seconds(LatestUpdateTime(r))
  }

  /** No call touches what the broken-check reads. */
  lemma {:induction false} BrokennessIsStable(env: Env, r: RecordData, s: SheetData, n: nat)
    ensures var (r', s') := AfterCalls(env, r, s, n);
            IsBroken(env, r', s') == IsBroken(env, r, s)
  {
    if n > 0 {
      BrokennessIsStable(env, r, s, n - 1);
    }
  }

  /** Each call that finds something to repair leaves exactly one repair fewer. */
  lemma OneRepairFewer(env: Env, r: RecordData, s: SheetData)
    requires !IsBroken(env, r, s) && SheetOk(env, SyncedSheet(env, r, s))
    ensures var (r', s', verdict) := Fix(env, r, s);
            && SheetOk(env, SyncedSheet(env, r', s'))
            && (Repairs(env, r, s) > 0 ==> verdict == FIXED && Repairs(env, r', s') == Repairs(env, r, s) - 1)
            && (Repairs(env, r, s) == 0 ==> verdict == OK && r' == r && s' == s)
  {
    SyncKeepsLatest(r, s);
  }

  /** Only a book time that is given up can lower the latest update time. */
  lemma SyncKeepsLatest(r: RecordData, s: SheetData)
    requires r.updateTime > 0
    ensures SyncedRecord(SyncedRecord(r, s), s) == SyncedRecord(r, s)
    ensures LatestUpdateTime(SyncedRecord(r, s)) != LatestUpdateTime(r)
            <==> !s.hasBook && r.bookUpdateTime > r.updateTime
  {
  }

  /** Neither broken nor with a sheet that fails its own check. */
  predicate Repairable(env: Env, r: RecordData, s: SheetData) {
    !IsBroken(env, r, s) && SheetOk(env, SyncedSheet(env, r, s))
  }

  lemma RepairStep(env: Env, r: RecordData, s: SheetData)
    requires Repairable(env, r, s)
    ensures var (r', s', _) := Fix(env, r, s);
            && Repairable(env, r', s')
            && Repairs(env, r', s') == if Repairs(env, r, s) > 0 then Repairs(env, r, s) - 1 else 0
  {
    OneRepairFewer(env, r, s);
  }

  lemma {:induction false} CountDown(env: Env, r: RecordData, s: SheetData, n: nat)
    requires Repairable(env, r, s)
    ensures var (r', s') := AfterCalls(env, r, s, n);
            && Repairable(env, r', s')
            && Repairs(env, r', s') == if n <= Repairs(env, r, s) then Repairs(env, r, s) - n else 0
  {
    if n > 0 {
      CountDown(env, r, s, n - 1);
      var (r1, s1) := AfterCalls(env, r, s, n - 1);
      RepairStep(env, r1, s1);
    }
  }

  /** Repeating the repair on a record that is not broken, with a sheet that passes
      its own check once synchronised, answers FIXED at most three times and OK
      ever after; three times exactly when the sheet differs from the record, and
      a book time later than the update time is given up across a second. */
  lemma Converges(env: Env, r: RecordData, s: SheetData, n: nat)
    requires !IsBroken(env, r, s) && SheetOk(env, SyncedSheet(env, r, s))
    ensures Answer(env, r, s, n) == if n < Repairs(env, r, s) then FIXED else OK
    ensures Repairs(env, r, s) <= 3
    ensures Repairs(env, r, s) == 3 <==>
            && SyncedSheet(env, r, s) != s
            && !s.hasBook && r.bookUpdateTime > r.updateTime
            && env.seconds(r.bookUpdateTime) != env.seconds(r.updateTime)
  {
    CountDown(env, r, s, n);
    var (r', s') := AfterCalls(env, r, s, n);
    OneRepairFewer(env, r', s');
  }

  /** In every other case all answers are BROKEN. */
  lemma {:induction false} StaysBroken(env: Env, r: RecordData, s: SheetData, n: nat)
    requires IsBroken(env, r, s) || !SheetOk(env, SyncedSheet(env, r, s))
    ensures Answer(env, r, s, n) == BROKEN
    ensures var (r', s') := AfterCalls(env, r, s, n);
            IsBroken(env, r', s') || !SheetOk(env, SyncedSheet(env, r', s'))
  {
    if n > 0 {
      StaysBroken(env, r, s, n - 1);
      var (r1, s1) := AfterCalls(env, r, s, n - 1);
      var (r2, s2, _) := Fix(env, r1, s1);
      if !IsBroken(env, r1, s1) {
        assert SyncedSheet(env, r2, s2).(modificationDate := 0) == SyncedSheet(env, r1, s1).(modificationDate := 0);
      }
    }
  }

  /** Three repairs do happen. */
  lemma ThreeRepairs(env: Env, r: RecordData, s: SheetData)
    requires !IsBroken(env, r, s) && SheetOk(env, SyncedSheet(env, r, s))
    requires r.title != s.title && !s.hasBook && r.updateTime == 1_000_000_000 && r.bookUpdateTime == 2_000_000_000
    requires env.seconds(1_000_000_000) == 1 && env.seconds(2_000_000_000) == 2
    ensures Answer(env, r, s, 0) == Answer(env, r, s, 1) == Answer(env, r, s, 2) == FIXED && Answer(env, r, s, 3) == OK
  {
    Converges(env, r, s, 0);
    Converges(env, r, s, 1);
    Converges(env, r, s, 2);
    Converges(env, r, s, 3);
  }

  // ---- field by field

  function LaterOf(a: int, b: int): int {
    if a >= b then a else b
  }

  /** The sheet's synchronised fields hold what the record's fields of the same
      meaning hold; `latest` is the time the modification date is taken from. */
  predicate FieldsAgree(env: Env, r: RecordData, s: SheetData, latest: int) {
    && s.sourceID == r.source && s.characterID == r.characterID && s.platformID == r.platformID
    && s.directLink == r.directURL && s.title == r.title && s.name == r.name && s.creator == r.nickname
    && s.creationDate == env.seconds(r.createTime) && s.modificationDate == env.seconds(latest)
    && |s.tags| == |r.tags| && forall i :: 0 <= i < |r.tags| ==> s.tags[i] == r.tags[i].name
  }

  /** What a record or sheet holds besides the fields that a repair may write. */
  predicate RestUntouched(r: RecordData, s: SheetData, r': RecordData, s': SheetData) {
    && r'.(greetingsCount := r.greetingsCount, bookUpdateTime := r.bookUpdateTime) == r
    && s'.creatorNotes == s.creatorNotes && s'.greetings == s.greetings && s'.hasBook == s.hasBook
  }

  /** One call on a record and sheet that are not broken: every synchronised field of
      the sheet is the record's field of the same name, the modification date that
      of the record as it was, and nothing else of the sheet is touched. The record
      keeps its fields, but if the sheet needed nothing it takes the number of
      greetings, gives up its book time when there is no book, and gets one when
      there is a book and it had none. */
  lemma OneCallFields(env: Env, r: RecordData, s: SheetData)
    requires !IsBroken(env, r, s)
    ensures var (r', s', _) := Fix(env, r, s);
            && FieldsAgree(env, r, s', LaterOf(r.updateTime, r.bookUpdateTime))
            && RestUntouched(r, s, r', s')
            && (s' != s ==> r' == r)
            && (s' == s ==>
                  && r'.greetingsCount == |s.greetings|
                  && (!s.hasBook ==> r'.bookUpdateTime == 0)
                  && (s.hasBook && r.bookUpdateTime != 0 ==> r'.bookUpdateTime == r.bookUpdateTime)
                  && (s.hasBook && r.bookUpdateTime == 0 ==> r'.bookUpdateTime == LaterOf(r.updateTime, 0)))
  {
  }

  lemma {:induction false} RestAfterCalls(env: Env, r: RecordData, s: SheetData, n: nat)
    requires !IsBroken(env, r, s)
    ensures var (r', s') := AfterCalls(env, r, s, n);
            RestUntouched(r, s, r', s') && !IsBroken(env, r', s')
  {
    if n > 0 {
      RestAfterCalls(env, r, s, n - 1);
      BrokennessIsStable(env, r, s, n);
      var (r1, s1) := AfterCalls(env, r, s, n - 1);
      RestOfOneCall(env, r, s, r1, s1);
    }
  }

  lemma RestOfOneCall(env: Env, r: RecordData, s: SheetData, r1: RecordData, s1: SheetData)
    requires RestUntouched(r, s, r1, s1) && !IsBroken(env, r1, s1)
    ensures var (r', s', _) := Fix(env, r1, s1);
            RestUntouched(r, s, r', s')
  {
    OneCallFields(env, r1, s1);
  }

  /** After any number of calls on a record and sheet that are not broken, the sheet
      holds the record's fields; all but two of the record's fields and the rest of
      the sheet are as they were at the start. */
  lemma FieldsAfterCalls(env: Env, r: RecordData, s: SheetData, n: nat)
    requires !IsBroken(env, r, s)
    ensures var (r', s') := AfterCalls(env, r, s, n);
            RestUntouched(r, s, r', s')
    ensures n > 0 ==>
              var (before, _) := AfterCalls(env, r, s, n - 1);
              var (r', s') := AfterCalls(env, r, s, n);
              FieldsAgree(env, r', s', LaterOf(before.updateTime, before.bookUpdateTime))
  {
    RestAfterCalls(env, r, s, n);
    if n > 0 {
      RestAfterCalls(env, r, s, n - 1);
      var (r1, s1) := AfterCalls(env, r, s, n - 1);
      FieldsOfOneCall(env, r1, s1);
    }
  }

  lemma FieldsOfOneCall(env: Env, r: RecordData, s: SheetData)
    requires !IsBroken(env, r, s)
    ensures var (r', s', _) := Fix(env, r, s);
            FieldsAgree(env, r', s', LaterOf(r.updateTime, r.bookUpdateTime))
  {
    OneCallFields(env, r, s);
  }

  /** Once the repairs are done, record and sheet agree entirely: besides the fields of
      the sheet, the record has the number of greetings, and a book time exactly if
      there is a book. */
  lemma AgreeInTheEnd(env: Env, r: RecordData, s: SheetData, n: nat)
    requires Repairable(env, r, s) && n >= Repairs(env, r, s)
    ensures var (r', s') := AfterCalls(env, r, s, n);
            && FieldsAgree(env, r', s', LaterOf(r'.updateTime, r'.bookUpdateTime)) && RestUntouched(r, s, r', s')
            && r'.greetingsCount == |s.greetings| && (r'.bookUpdateTime == 0 <==> !s.hasBook)
            && (s.hasBook && r.bookUpdateTime != 0 ==> r'.bookUpdateTime == r.bookUpdateTime)
            && (s.hasBook && r.bookUpdateTime == 0 ==> r'.bookUpdateTime == r.updateTime)
  {
    CountDown(env, r, s, n);
    FieldsAfterCalls(env, r, s, n);
    BooksAfterCalls(env, r, s, n);
    var (r', s') := AfterCalls(env, r, s, n);
    OneRepairFewer(env, r', s');
    OneCallFields(env, r', s');
  }

  /** The book time on the way there: what it was, or what it is to become. */
  lemma {:induction false} BooksAfterCalls(env: Env, r: RecordData, s: SheetData, n: nat)
    requires !IsBroken(env, r, s)
    ensures var (r', _) := AfterCalls(env, r, s, n);
            && (s.hasBook && r.bookUpdateTime != 0 ==> r'.bookUpdateTime == r.bookUpdateTime)
            && (s.hasBook && r.bookUpdateTime == 0 ==> r'.bookUpdateTime == 0 || r'.bookUpdateTime == r.updateTime)
  {
    if n > 0 {
      BooksAfterCalls(env, r, s, n - 1);
      StillSound(env, r, s, n - 1);
      var (r1, s1) := AfterCalls(env, r, s, n - 1);
      BookOfOneCall(env, r1, s1);
    }
  }

  lemma StillSound(env: Env, r: RecordData, s: SheetData, n: nat)
    requires !IsBroken(env, r, s)
    ensures var (r', s') := AfterCalls(env, r, s, n);
            !IsBroken(env, r', s') && s'.hasBook == s.hasBook && r'.updateTime == r.updateTime
  {
    FieldsAfterCalls(env, r, s, n);
    BrokennessIsStable(env, r, s, n);
  }

  lemma BookOfOneCall(env: Env, r: RecordData, s: SheetData)
    requires !IsBroken(env, r, s)
    ensures var r' := Fix(env, r, s).0;
            r'.bookUpdateTime == r.bookUpdateTime
            || (if !s.hasBook then r'.bookUpdateTime == 0
                else r.bookUpdateTime == 0 && r'.bookUpdateTime == r.updateTime)
  {
  }

  /** The first call answers BROKEN exactly if the record lacks one of these fields, has
      impossible times, does not begin the sheet's notes with its tagline, or the
      sheet with the record's fields in it fails its own check. */
  lemma WhatIsBroken(env: Env, r: RecordData, s: SheetData)
    ensures Answer(env, r, s, 0) == BROKEN <==>
            || !env.notBlank(r.source) || !env.notBlank(r.normalizedURL) || !env.notBlank(r.directURL)
            || !env.notBlank(r.platformID) || !env.notBlank(r.characterID) || !env.notBlank(r.name)
            || !env.notBlank(r.title) || r.createTime <= 0 || r.updateTime <= 0 || r.updateTime < r.createTime
            || !env.notBlank(r.nickname) || !env.notBlank(r.username)
            || (!env.anonymous(r.nickname) && !env.notBlank(r.creatorPlatformID))
            || !(r.tagline <= s.creatorNotes)
            || !env.sheetOk(SheetData(
                 r.source, r.characterID, r.platformID, r.directURL, r.title, r.name, r.nickname,
                 env.seconds(r.createTime), 0, Records.TagNames(r.tags), s.creatorNotes, s.greetings, s.hasBook))
  {
  }

  /** The first call answers OK exactly if it is not BROKEN and record and sheet agree. */
  lemma WhatIsOk(env: Env, r: RecordData, s: SheetData)
    ensures Answer(env, r, s, 0) == OK <==>
            && Answer(env, r, s, 0) != BROKEN
            && FieldsAgree(env, r, s, LaterOf(r.updateTime, r.bookUpdateTime))
            && r.greetingsCount == |s.greetings| && (r.bookUpdateTime == 0 <==> !s.hasBook)
  {
    if FieldsAgree(env, r, s, LaterOf(r.updateTime, r.bookUpdateTime)) {
      assert s.tags == Records.TagNames(r.tags);
    }
  }
}
