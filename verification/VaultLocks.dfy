/** The vault lock and the lock hierarchy below it: any number of operations run
    against the loaded catalog while vaults are loaded and unloaded. */
module VaultLocks {
  import opened Wrappers
  import opened Keys

  type Thread = nat
  type Cat = nat

  /** Below the vault lock: one lock a card, then each catalog's record store,
      then its blob store. */
  datatype Lock = Item(rid: RID) | Records(cat: Cat) | Blobs(cat: Cat)

  datatype Mode = Read | Write

  /** `Use` reads or writes the store that the lock guards. */
  datatype Instr = Acquire(lock: Lock, mode: Mode) | Release(lock: Lock) | Use(lock: Lock, mode: Mode)

  type Program = seq<Instr>

  function Rank(l: Lock): nat {
    match l
    case Item(_) => 1
    case Records(_) => 2
    case Blobs(_) => 3
  }

  // ---- what the workers do, as sequences of lock operations

  function Section(l: Lock, m: Mode): Program {
    [Acquire(l, m), Use(l, m), Release(l)]
  }

  function ReadRecords(c: Cat): Program {
    Section(Records(c), Read)
  }

  function WriteRecords(c: Cat): Program {
    Section(Records(c), Write)
  }

  function ReadBlobs(c: Cat): Program {
    Section(Blobs(c), Read)
  }

  function WriteBlobs(c: Cat): Program {
    Section(Blobs(c), Write)
  }

  /** SaveCard, RestoreCard and Delete: a blob transaction inside a record transaction. */
  function WriteBoth(c: Cat): Program {
    [Acquire(Records(c), Write), Use(Records(c), Write)] + WriteBlobs(c) + [Release(Records(c))]
  }

  function Locked(rid: RID, body: Program): Program {
    [Acquire(Item(rid), Write)] + body + [Release(Item(rid))]
  }

  datatype UpdateResult = NotFound | NoFetcher | FetchFailed | Unchanged | Saved | SaveFailed | SaveRejected
  datatype CheckResult = Broken | Sound | Repaired | RepairFailed | RepairRejected | RepairUnreadable

  /** The work of one goroutine, with the way it goes. */
  datatype Job =
    | UpdateCard(rid: RID, update: UpdateResult)
    | CheckCard(rid: RID, check: CheckResult)
    | ExportCard(rid: RID, written: bool)
    | ExportVaultCard
    | ImportCard(saved: bool)
    | ListVault         // listing the records of a vault before its cards are exported or checked
    | BasicIntegrity
    | CleanupCreators
    | Query
    | DeleteCards

  function ProgramOf(job: Job, c: Cat): Program {
    match job
    case UpdateCard(rid, NotFound) => Locked(rid, ReadRecords(c))
    case UpdateCard(rid, NoFetcher) => Locked(rid, ReadRecords(c))
    case UpdateCard(rid, FetchFailed) => Locked(rid, ReadRecords(c) + WriteRecords(c))
    case UpdateCard(rid, Unchanged) => Locked(rid, ReadRecords(c) + WriteRecords(c))
    case UpdateCard(rid, Saved) => Locked(rid, ReadRecords(c) + WriteBoth(c))
    case UpdateCard(rid, SaveFailed) => Locked(rid, ReadRecords(c) + WriteBoth(c) + WriteRecords(c))
    case UpdateCard(rid, SaveRejected) => Locked(rid, ReadRecords(c) + WriteRecords(c) + WriteRecords(c))
    case CheckCard(rid, Broken) => Locked(rid, ReadBlobs(c))
    case CheckCard(rid, Sound) => Locked(rid, ReadBlobs(c) + ReadBlobs(c))
    case CheckCard(rid, RepairFailed) => Locked(rid, ReadBlobs(c) + ReadBlobs(c) + WriteBoth(c))
    case CheckCard(rid, RepairRejected) => Locked(rid, ReadBlobs(c) + ReadBlobs(c) + WriteRecords(c))
    case CheckCard(rid, RepairUnreadable) => Locked(rid, ReadBlobs(c) + ReadBlobs(c) + WriteBoth(c) + ReadBlobs(c))
    case CheckCard(rid, Repaired) =>
      Locked(rid, ReadBlobs(c) + ReadBlobs(c) + WriteBoth(c) + ReadBlobs(c) + ReadBlobs(c))
    case ExportCard(rid, true) => Locked(rid, ReadRecords(c) + ReadBlobs(c) + WriteRecords(c))
    case ExportCard(rid, false) => Locked(rid, ReadRecords(c) + ReadBlobs(c))
    case ExportVaultCard => ReadBlobs(c)
    case ImportCard(saved) => if saved then WriteBoth(c) else WriteRecords(c)
    case ListVault => ReadRecords(c) + ReadRecords(c)
    case BasicIntegrity => ReadRecords(c) + ReadBlobs(c)
    case CleanupCreators => WriteRecords(c)
    case Query => ReadRecords(c)
    case DeleteCards => WriteBoth(c)
  }

  // ---- the order in which a program takes its locks

  predicate IsStore(l: Lock, c: Cat) {
    l == Records(c) || l == Blobs(c)
  }

  predicate MayUse(held: map<Lock, Mode>, l: Lock, m: Mode) {
    l in held && (m == Write ==> held[l] == Write)
  }

  /** The locks held after a program, provided that every lock it takes ranks above
      all it holds, it releases only what it holds, and uses only the stores of
      catalog c that it holds, writing only those that it holds for writing. */
  function After(p: Program, c: Cat, held: map<Lock, Mode>): Option<map<Lock, Mode>> {
    if p == [] then Some(held)
    else
      match p[0]
      case Acquire(l, m) =>
        if exists k :: k in held && Rank(k) >= Rank(l) then None else After(p[1..], c, held[l := m])
      case Release(l) =>
        if l !in held then None else After(p[1..], c, held - {l})
      case Use(l, m) => if !IsStore(l, c) || !MayUse(held, l, m) then None else After(p[1..], c, held)
  }

  ghost predicate Below(held: map<Lock, Mode>, rank: nat) {
    forall k :: k in held ==> Rank(k) < rank
  }

  lemma {:induction false} AfterAppend(p: Program, q: Program, c: Cat, held: map<Lock, Mode>)
    requires After(p, c, held).Some?
    ensures After(p + q, c, held) == After(q, c, After(p, c, held).value)
    decreases |p|
  {
    if p == [] {
      assert p + q == q;
    } else {
      assert (p + q)[1..] == p[1..] + q;
      match p[0]
      case Acquire(l, m) => AfterAppend(p[1..], q, c, held[l := m]);
      case Release(l) => AfterAppend(p[1..], q, c, held - {l});
      case Use(_, _) => AfterAppend(p[1..], q, c, held);
    }
  }

  lemma AfterTaking(l: Lock, m: Mode, q: Program, c: Cat, held: map<Lock, Mode>)
    requires Below(held, Rank(l))
    ensures After([Acquire(l, m)] + q, c, held) == After(q, c, held[l := m])
  {
    assert ([Acquire(l, m)] + q)[1..] == q;
  }

  /** Taking a store's lock, using the store, and going on. */
  lemma AfterOpening(l: Lock, m: Mode, q: Program, c: Cat, held: map<Lock, Mode>)
    requires Below(held, Rank(l)) && IsStore(l, c)
    ensures After([Acquire(l, m), Use(l, m)] + q, c, held) == After(q, c, held[l := m])
  {
    assert ([Acquire(l, m), Use(l, m)] + q)[1..] == [Use(l, m)] + q;
    assert ([Use(l, m)] + q)[1..] == q;
  }

  lemma AfterClosing(l: Lock, m: Mode, c: Cat, held: map<Lock, Mode>)
    requires l !in held
    ensures After([Release(l)], c, held[l := m]) == Some(held)
  {
    assert [Release(l)][1..] == [];
    assert held[l := m] - {l} == held;
  }

  /** One critical section leaves the held locks as they were. */
  lemma SectionKeeps(l: Lock, m: Mode, c: Cat, held: map<Lock, Mode>)
    requires Below(held, Rank(l)) && IsStore(l, c)
    ensures After(Section(l, m), c, held) == Some(held)
  {
    assert Section(l, m) == [Acquire(l, m), Use(l, m)] + [Release(l)];
    AfterOpening(l, m, [Release(l)], c, held);
    AfterClosing(l, m, c, held);
  }

  lemma WriteBothKeeps(c: Cat, held: map<Lock, Mode>)
    requires Below(held, 2)
    ensures After(WriteBoth(c), c, held) == Some(held)
  {
    var h := held[Records(c) := Write];
    var q := WriteBlobs(c) + [Release(Records(c))];
    assert WriteBoth(c) == [Acquire(Records(c), Write), Use(Records(c), Write)] + q;
    AfterOpening(Records(c), Write, q, c, held);
    SectionKeeps(Blobs(c), Write, c, h);
    AfterAppend(WriteBlobs(c), [Release(Records(c))], c, h);
    AfterClosing(Records(c), Write, c, held);
  }

  lemma LockedKeeps(rid: RID, body: Program, c: Cat)
    requires After(body, c, map[Item(rid) := Write]) == Some(map[Item(rid) := Write])
    ensures After(Locked(rid, body), c, map[]) == Some(map[])
  {
    var none: map<Lock, Mode> := map[];
    assert none[Item(rid) := Write] == map[Item(rid) := Write];
    assert Locked(rid, body) == [Acquire(Item(rid), Write)] + (body + [Release(Item(rid))]);
    AfterTaking(Item(rid), Write, body + [Release(Item(rid))], c, none);
    AfterAppend(body, [Release(Item(rid))], c, none[Item(rid) := Write]);
    AfterClosing(Item(rid), Write, c, none);
  }

  lemma BlocksKeep(c: Cat, held: map<Lock, Mode>)
    requires Below(held, 2)
    ensures After(ReadRecords(c), c, held) == After(WriteRecords(c), c, held) == Some(held)
    ensures After(ReadBlobs(c), c, held) == After(WriteBoth(c), c, held) == Some(held)
  {
    SectionKeeps(Records(c), Read, c, held);
    SectionKeeps(Records(c), Write, c, held);
    SectionKeeps(Blobs(c), Read, c, held);
    WriteBothKeeps(c, held);
  }

  /** Every job takes its locks in the order item, record store, blob store, uses a
      store only under its lock, and ends holding none. */
  lemma JobsAreOrdered(job: Job, c: Cat)
    ensures After(ProgramOf(job, c), c, map[]) == Some(map[])
  {
    var none: map<Lock, Mode> := map[];
    BlocksKeep(c, none);
    match job
    case UpdateCard(rid, result) => UpdatesAreOrdered(rid, result, c);
    case CheckCard(rid, result) => ChecksAreOrdered(rid, result, c);
    case ExportCard(rid, written) =>
      var h: map<Lock, Mode> := map[Item(rid) := Write];
      BlocksKeep(c, h);
      AfterAppend(ReadRecords(c), ReadBlobs(c), c, h);
      AfterAppend(ReadRecords(c) + ReadBlobs(c), WriteRecords(c), c, h);
      var body := ReadRecords(c) + ReadBlobs(c);
      LockedKeeps(rid, if written then body + WriteRecords(c) else body, c);
    case ListVault => AfterAppend(ReadRecords(c), ReadRecords(c), c, none);
    case BasicIntegrity => AfterAppend(ReadRecords(c), ReadBlobs(c), c, none);
    case _ =>
  }

  lemma UpdatesAreOrdered(rid: RID, result: UpdateResult, c: Cat)
    ensures After(ProgramOf(UpdateCard(rid, result), c), c, map[]) == Some(map[])
  {
    var h: map<Lock, Mode> := map[Item(rid) := Write];
    BlocksKeep(c, h);
    AfterAppend(ReadRecords(c), WriteRecords(c), c, h);
    AfterAppend(ReadRecords(c), WriteBoth(c), c, h);
    AfterAppend(ReadRecords(c) + WriteBoth(c), WriteRecords(c), c, h);
    AfterAppend(ReadRecords(c) + WriteRecords(c), WriteRecords(c), c, h);
    LockedKeeps(rid,
      match result
      case NotFound => ReadRecords(c)
      case NoFetcher => ReadRecords(c)
      case FetchFailed => ReadRecords(c) + WriteRecords(c)
      case Unchanged => ReadRecords(c) + WriteRecords(c)
      case Saved => ReadRecords(c) + WriteBoth(c)
      case SaveFailed => ReadRecords(c) + WriteBoth(c) + WriteRecords(c)
      case SaveRejected => ReadRecords(c) + WriteRecords(c) + WriteRecords(c), c);
  }

  lemma ChecksAreOrdered(rid: RID, result: CheckResult, c: Cat)
    ensures After(ProgramOf(CheckCard(rid, result), c), c, map[]) == Some(map[])
  {
    var h: map<Lock, Mode> := map[Item(rid) := Write];
    BlocksKeep(c, h);
    var twice := ReadBlobs(c) + ReadBlobs(c);
    AfterAppend(ReadBlobs(c), ReadBlobs(c), c, h);
    AfterAppend(twice, WriteBoth(c), c, h);
    AfterAppend(twice, WriteRecords(c), c, h);
    AfterAppend(twice + WriteBoth(c), ReadBlobs(c), c, h);
    AfterAppend(twice + WriteBoth(c) + ReadBlobs(c), ReadBlobs(c), c, h);
    LockedKeeps(rid,
      match result
      case Broken => ReadBlobs(c)
      case Sound => twice
      case RepairFailed => twice + WriteBoth(c)
      case RepairRejected => twice + WriteRecords(c)
      case RepairUnreadable => twice + WriteBoth(c) + ReadBlobs(c)
      case Repaired => twice + WriteBoth(c) + ReadBlobs(c) + ReadBlobs(c), c);
  }

  // ---- which stores a job writes

  /** Jobs that save or delete images change the record store too. */
  predicate WritesImages(job: Job) {
    match job
    case UpdateCard(_, result) => result == Saved || result == SaveFailed
    case CheckCard(_, result) => result == Repaired || result == RepairFailed || result == RepairUnreadable
    case ImportCard(saved) => saved
    case DeleteCards => true
    case _ => false
  }

  predicate WritesRecordsOnly(job: Job) {
    match job
    case UpdateCard(_, result) => result == FetchFailed || result == Unchanged || result == SaveRejected
    case CheckCard(_, result) => result == RepairRejected
    case ExportCard(_, written) => written
    case ImportCard(saved) => !saved
    case CleanupCreators => true
    case _ => false
  }

  lemma UsesOfBlocks(c: Cat, i: Instr)
    requires i == Use(Records(c), Write) || i == Use(Blobs(c), Write)
    ensures i !in ReadRecords(c) && i !in ReadBlobs(c) && i in WriteBoth(c)
    ensures i in WriteRecords(c) <==> i.lock == Records(c)
  {
    assert WriteBoth(c)[1] == Use(Records(c), Write) && WriteBoth(c)[3] == Use(Blobs(c), Write);
    assert WriteRecords(c)[1] == Use(Records(c), Write);
  }

  /** A job writes the blob store exactly if it saves or deletes images, and the record
      store exactly if it does that or changes records alone. */
  lemma WhatJobsWrite(job: Job, c: Cat)
    ensures Use(Blobs(c), Write) in ProgramOf(job, c) <==> WritesImages(job)
    ensures Use(Records(c), Write) in ProgramOf(job, c) <==> WritesImages(job) || WritesRecordsOnly(job)
  {
    WhatJobsUse(job, c, Use(Blobs(c), Write));
    WhatJobsUse(job, c, Use(Records(c), Write));
  }

  lemma WhatJobsUse(job: Job, c: Cat, i: Instr)
    requires i == Use(Records(c), Write) || i == Use(Blobs(c), Write)
    ensures i in ProgramOf(job, c) <==> WritesImages(job) || (i.lock == Records(c) && WritesRecordsOnly(job))
  {
    UsesOfBlocks(c, i);
    match job
    case UpdateCard(_, _) =>
    case CheckCard(_, _) =>
    case _ =>
  }

  // ---- the machine

  datatype Stage = Loading | Replaced(prior: Option<Cat>) | Unloading | Closed | Finished

  /** A worker holds the vault lock for reading from its first step to its last;
      a loader holds it for writing. */
  datatype Activity =
    | Worker(cat: Cat, todo: Program, held: map<Lock, Mode>)
    | Loader(stage: Stage)

  /** `misused` records whether a store was ever used after its catalog was closed,
      or while another thread could write what is read or read what is written. */
  datatype State = State(
    current: Option<Cat>, open: set<Cat>, closed: set<Cat>, threads: map<Thread, Activity>, misused: bool)

  const INIT := State(None, {}, {}, map[], false)

  datatype Step =
    | Begin(job: Job)                  // beginReadOp, then the work
    | Spawn(parent: Thread, job: Job)  // a handler goroutine of a running operation
    | Exec
    | End
    | TryLoad | LoadFails | LoadDone(cat: Cat) | CloseOld
    | TryUnload | CloseCurrent | Clear
    | Unlock

  predicate VaultIsWritten(s: State) {
    exists t :: t in s.threads && s.threads[t].Loader?
  }

  function Set(s: State, t: Thread, a: Activity): State {
    s.(threads := s.threads[t := a])
  }

  predicate Holds(s: State, t: Thread, l: Lock) {
    t in s.threads && s.threads[t].Worker? && l in s.threads[t].held
  }

  predicate HoldsForWriting(s: State, t: Thread, l: Lock) {
    Holds(s, t, l) && s.threads[t].held[l] == Write
  }

  ghost predicate Available(s: State, l: Lock, m: Mode) {
    if m == Write then forall t :: !Holds(s, t, l) else forall t :: !HoldsForWriting(s, t, l)
  }

  ghost predicate SafeUse(s: State, t: Thread, l: Lock, m: Mode) {
    && (l.Item? || l.cat in s.open)
    && (forall u :: u != t ==> !HoldsForWriting(s, u, l))
    && (m == Write ==> forall u :: u != t ==> !Holds(s, u, l))
  }

  ghost function DoExec(s: State, t: Thread, w: Activity): Option<State>
    requires w.Worker?
  {
    if w.todo == [] then None
    else
      var rest := w.todo[1..];
      match w.todo[0]
      case Acquire(l, m) =>
        if Available(s, l, m) then Some(Set(s, t, w.(todo := rest, held := w.held[l := m]))) else None
      case Release(l) => Some(Set(s, t, w.(todo := rest, held := w.held - {l})))
      case Use(l, m) => Some(Set(s, t, w.(todo := rest)).(misused := s.misused || !SafeUse(s, t, l, m)))
  }

  function Cats(c: Option<Cat>): set<Cat> {
    if c.Some? then {c.value} else {}
  }

  ghost function DoLoader(s: State, t: Thread, stage: Stage, step: Step): Option<State> {
    match (stage, step)
    case (Loading, LoadFails) => Some(Set(s, t, Loader(Finished)))
    case (Loading, LoadDone(c)) =>
      if c in s.open || c in s.closed then None
      else Some(Set(s, t, Loader(Replaced(s.current))).(current := Some(c), open := s.open + {c}))
    case (Replaced(prior), CloseOld) =>
      Some(Set(s, t, Loader(Finished)).(open := s.open - Cats(prior), closed := s.closed + Cats(prior)))
    case (Unloading, CloseCurrent) =>
      Some(Set(s, t, Loader(Closed)).(open := s.open - Cats(s.current), closed := s.closed + Cats(s.current)))
    case (Closed, Clear) => Some(Set(s, t, Loader(Finished)).(current := None))
    case (Finished, Unlock) => Some(s.(threads := s.threads - {t}))
    case _ => None
  }

  ghost function Do(s: State, t: Thread, step: Step): Option<State> {
    if t !in s.threads then
      match step
      case Begin(job) =>
        // TryRLock fails while a vault is being loaded; without a catalog there is nothing to do
        if VaultIsWritten(s) || s.current.None? then Some(s)
        else Some(Set(s, t, Worker(s.current.value, ProgramOf(job, s.current.value), map[])))
      case Spawn(parent, job) =>
        if parent in s.threads && s.threads[parent].Worker?
        then Some(Set(s, t, Worker(s.threads[parent].cat, ProgramOf(job, s.threads[parent].cat), map[])))
        else None
      case TryLoad => Some(if s.threads == map[] then Set(s, t, Loader(Loading)) else s)
      case TryUnload => Some(if s.threads == map[] then Set(s, t, Loader(Unloading)) else s)
      case _ => None
    else
      match s.threads[t]
      case Worker(_, todo, _) =>
        if step.Exec? then DoExec(s, t, s.threads[t])
        else if step.End? && todo == [] then Some(s.(threads := s.threads - {t}))
        else None
      case Loader(stage) => DoLoader(s, t, stage, step)
  }

  // ---- every use of a store is safe

  ghost predicate WorkerOk(s: State, w: Activity) {
    w.Worker? ==>
      && s.current == Some(w.cat) && s.open == Cats(s.current)
      && After(w.todo, w.cat, w.held) == Some(map[])
  }

  /** A loader is alone; otherwise the current catalog is the one that is open. */
  ghost predicate VaultOk(s: State) {
    && !s.misused && s.open * s.closed == {}
    && (forall t :: t in s.threads ==> WorkerOk(s, s.threads[t]))
    && (forall t, u :: t in s.threads && u in s.threads && s.threads[t].Loader? ==> u == t)
    && (forall t :: t in s.threads && s.threads[t].Loader? ==> LoaderOk(s, s.threads[t].stage))
    && QuietOk(s) && LocksExclude(s)
  }

  ghost predicate QuietOk(s: State) {
    VaultIsWritten(s) || CurrentOpen(s)
  }

  /** What one thread holds for writing no other thread holds. */
  ghost predicate LocksExclude(s: State) {
    forall t, u, l :: HoldsForWriting(s, t, l) && Holds(s, u, l) ==> u == t
  }

  ghost predicate CurrentOpen(s: State) {
    s.open == Cats(s.current)
  }

  ghost predicate LoaderOk(s: State, stage: Stage) {
    match stage
    case Closed => s.open == {}
    case Replaced(prior) => s.open == Cats(s.current) + Cats(prior) && s.current.Some? && prior != s.current
    case _ => CurrentOpen(s)
  }

  /** Locks given up, or those of threads that are gone. */
  lemma FewerLocks(s: State, s': State)
    requires LocksExclude(s)
    requires forall t, l :: Holds(s', t, l) ==> Holds(s, t, l)
    requires forall t, l :: HoldsForWriting(s', t, l) ==> HoldsForWriting(s, t, l)
    ensures LocksExclude(s')
  {
  }

  lemma ExecLocks(s: State, t: Thread, s': State)
    requires LocksExclude(s) && t in s.threads && s.threads[t].Worker? && DoExec(s, t, s.threads[t]) == Some(s')
    ensures LocksExclude(s')
  {
    var w := s.threads[t];
    if !w.todo[0].Acquire? {
      FewerLocks(s, s');
    } else {
      forall u, x, l | HoldsForWriting(s', u, l) && Holds(s', x, l) ensures x == u {
        assert u != t || l != w.todo[0].lock ==> HoldsForWriting(s, u, l);
        assert x != t || l != w.todo[0].lock ==> Holds(s, x, l);
      }
    }
  }

  lemma UsesAreSafe(s: State, t: Thread)
    requires VaultOk(s) && t in s.threads && s.threads[t].Worker?
    requires s.threads[t].todo != [] && s.threads[t].todo[0].Use?
    ensures SafeUse(s, t, s.threads[t].todo[0].lock, s.threads[t].todo[0].mode)
  {
    var w := s.threads[t];
    var l, m := w.todo[0].lock, w.todo[0].mode;
    assert WorkerOk(s, w);
    assert IsStore(l, w.cat) && MayUse(w.held, l, m);
    assert Holds(s, t, l);
    assert m == Write ==> HoldsForWriting(s, t, l);
  }

  lemma ExecStep(s: State, t: Thread, s': State)
    requires VaultOk(s) && t in s.threads && s.threads[t].Worker? && DoExec(s, t, s.threads[t]) == Some(s')
    ensures VaultOk(s')
  {
    var w, w' := s.threads[t], s'.threads[t];
    assert WorkerOk(s, w);
    assert !VaultIsWritten(s);
    ExecLocks(s, t, s');
    if w.todo[0].Use? {
      UsesAreSafe(s, t);
    }
    assert WorkerOk(s', w');
  }

  /** A goroutine that starts on the loaded catalog, while no vault is being loaded. */
  lemma StartStep(s: State, t: Thread, job: Job)
    requires VaultOk(s) && t !in s.threads && !VaultIsWritten(s) && s.current.Some?
    ensures VaultOk(Set(s, t, Worker(s.current.value, ProgramOf(job, s.current.value), map[])))
  {
    JobsAreOrdered(job, s.current.value);
    FewerLocks(s, Set(s, t, Worker(s.current.value, ProgramOf(job, s.current.value), map[])));
  }

  lemma TryStep(s: State, t: Thread, stage: Stage)
    requires VaultOk(s) && s.threads == map[] && (stage == Loading || stage == Unloading)
    ensures VaultOk(Set(s, t, Loader(stage)))
  {
    assert !VaultIsWritten(s);
    var s' := Set(s, t, Loader(stage));
    assert s'.threads[t].Loader?;
    assert VaultIsWritten(s');
  }

  lemma OutsiderStep(s: State, t: Thread, step: Step, s': State)
    requires VaultOk(s) && t !in s.threads && Do(s, t, step) == Some(s')
    ensures VaultOk(s')
  {
    match step
    case Begin(job) =>
      if !VaultIsWritten(s) && s.current.Some? {
        StartStep(s, t, job);
      }
    case Spawn(parent, job) =>
      assert WorkerOk(s, s.threads[parent]);
      StartStep(s, t, job);
    case TryLoad =>
      if s.threads == map[] {
        TryStep(s, t, Loading);
      }
    case TryUnload =>
      if s.threads == map[] {
        TryStep(s, t, Unloading);
      }
  }

  lemma VaultStep(s: State, t: Thread, step: Step, s': State)
    requires VaultOk(s) && Do(s, t, step) == Some(s')
    ensures VaultOk(s')
  {
    if t !in s.threads {
      OutsiderStep(s, t, step, s');
    } else if s.threads[t].Loader? {
      LoaderStep(s, t, step, s');
    } else if step.Exec? {
      ExecStep(s, t, s');
    } else {
      EndStep(s, t);
    }
  }

  lemma EndStep(s: State, t: Thread)
    requires VaultOk(s) && t in s.threads && s.threads[t].Worker?
    ensures VaultOk(s.(threads := s.threads - {t}))
  {
    assert !VaultIsWritten(s);
    FewerLocks(s, s.(threads := s.threads - {t}));
  }

  lemma LoaderStep(s: State, t: Thread, step: Step, s': State)
    requires VaultOk(s) && t in s.threads && s.threads[t].Loader? && Do(s, t, step) == Some(s')
    ensures VaultOk(s')
  {
    assert LoaderOk(s, s.threads[t].stage);
    assert forall u :: u in s.threads ==> u == t;
    assert forall u :: u in s'.threads ==> u == t;
    if t in s'.threads {
      assert s'.threads[t].Loader?;
    } else {
      assert CurrentOpen(s) && s' == s.(threads := s.threads - {t});
    }
  }

  // ---- some thread can always step

  /** Go turns readers away while a writer waits. */
  ghost predicate WaitsToWrite(s: State, t: Thread, l: Lock) {
    t in s.threads && s.threads[t].Worker? && s.threads[t].todo != [] && s.threads[t].todo[0] == Acquire(l, Write)
  }

  ghost predicate CanAcquire(s: State, t: Thread, l: Lock, m: Mode) {
    && (forall u :: u != t ==> !HoldsForWriting(s, u, l))
    && (m == Write ==> forall u :: u != t ==> !Holds(s, u, l))
    && (m == Read ==> forall u :: !WaitsToWrite(s, u, l))
  }

  ghost predicate CanStep(s: State, t: Thread) {
    t in s.threads &&
    (s.threads[t].Worker? && s.threads[t].todo != [] && s.threads[t].todo[0].Acquire? ==>
       CanAcquire(s, t, s.threads[t].todo[0].lock, s.threads[t].todo[0].mode))
  }

  lemma NextAcquire(s: State, t: Thread)
    requires VaultOk(s) && t in s.threads && s.threads[t].Worker?
    requires s.threads[t].todo != [] && s.threads[t].todo[0].Acquire?
    ensures Below(s.threads[t].held, Rank(s.threads[t].todo[0].lock))
  {
    assert WorkerOk(s, s.threads[t]);
  }

  /** Who blocks another can step itself, or is blocked at a higher rank. */
  lemma SomeoneCanStep(s: State, t: Thread) returns (u: Thread)
    requires VaultOk(s) && t in s.threads
    ensures CanStep(s, u)
    decreases if s.threads[t].Worker? && s.threads[t].todo != [] && s.threads[t].todo[0].Acquire?
              then 4 - Rank(s.threads[t].todo[0].lock) else 0
  {
    var a := s.threads[t];
    if CanStep(s, t) {
      return t;
    }
    var l := a.todo[0].lock;
    if w :| w != t && Holds(s, w, l) {
      u := HolderSteps(s, w, l);
    } else {
      var w :| WaitsToWrite(s, w, l);
      if x :| x != w && Holds(s, x, l) {
        u := HolderSteps(s, x, l);
      } else {
        u := w;
      }
    }
  }

  lemma HolderSteps(s: State, w: Thread, l: Lock) returns (u: Thread)
    requires VaultOk(s) && Holds(s, w, l)
    ensures CanStep(s, u)
    decreases 4 - Rank(l), 0
  {
    assert WorkerOk(s, s.threads[w]);
    if CanStep(s, w) {
      return w;
    }
    NextAcquire(s, w);
    u := SomeoneCanStep(s, w);
  }

  /** What a thread does next; a load may always give up. */
  function NextStep(a: Activity): Step {
    match a
    case Worker(_, todo, _) => if todo == [] then End else Exec
    case Loader(Loading) => LoadFails
    case Loader(Replaced(_)) => CloseOld
    case Loader(Unloading) => CloseCurrent
    case Loader(Closed) => Clear
    case Loader(Finished) => Unlock
  }

  /** A thread that can step has a step. */
  lemma CanStepSteps(s: State, t: Thread) returns (step: Step)
    requires VaultOk(s) && CanStep(s, t)
    ensures Do(s, t, step).Some?
    ensures step == NextStep(s.threads[t])
  {
    match s.threads[t]
    case Worker(_, todo, held) =>
      step := NextStep(s.threads[t]);
      if todo != [] && todo[0].Acquire? {
        NextAcquire(s, t);
        assert todo[0].lock !in held;
      }
    case Loader(stage) =>
      step := NextStep(s.threads[t]);
  }

  // ---- every run

  datatype Move = Move(thread: Thread, step: Step)

  ghost function Run(moves: seq<Move>): Option<State> {
    if moves == [] then Some(INIT)
    else
      var last := moves[|moves| - 1];
      match Run(moves[..|moves| - 1])
      case None => None
      case Some(s) => Do(s, last.thread, last.step)
  }

  lemma {:induction false} EveryRunIsOk(moves: seq<Move>)
    requires Run(moves).Some?
    ensures VaultOk(Run(moves).value)
  {
    if moves != [] {
      EveryRunIsOk(moves[..|moves| - 1]);
      var last := moves[|moves| - 1];
      VaultStep(Run(moves[..|moves| - 1]).value, last.thread, last.step, Run(moves).value);
    }
  }

  /** In every run, who is about to use a store uses one of the current catalog, which
      is open and never was closed, and while one thread is about to write a store no
      other is about to use it. */
  lemma StoresAreSafe(moves: seq<Move>, t: Thread, u: Thread)
    requires Run(moves).Some?
    ensures var s := Run(moves).value;
            && (Uses(s, t) ==>
                  && s.current.Some? && s.current.value in s.open && s.current.value !in s.closed
                  && (Used(s, t) == Records(s.current.value) || Used(s, t) == Blobs(s.current.value)))
            && (Uses(s, t) && Uses(s, u) && t != u && Used(s, t) == Used(s, u) ==>
                  s.threads[t].todo[0].mode == s.threads[u].todo[0].mode == Read)
  {
    EveryRunIsOk(moves);
    var s := Run(moves).value;
    if Uses(s, t) {
      assert WorkerOk(s, s.threads[t]);
      UsesAreSafe(s, t);
    }
    if Uses(s, u) {
      assert WorkerOk(s, s.threads[u]);
      UsesAreSafe(s, u);
    }
    if Uses(s, t) && Uses(s, u) && t != u {
      assert Holds(s, t, Used(s, t)) && Holds(s, u, Used(s, u));
    }
  }

  predicate Uses(s: State, t: Thread) {
    t in s.threads && s.threads[t].Worker? && s.threads[t].todo != [] && s.threads[t].todo[0].Use?
  }

  function Used(s: State, t: Thread): Lock
    requires Uses(s, t)
  {
    s.threads[t].todo[0].lock
  }

  /** In every run, once no vault is being loaded or unloaded, every catalog ever loaded
      has been closed, except the current one, which is open. */
  lemma ReplacedAreClosed(moves: seq<Move>, c: Cat)
    requires Run(moves).Some? && !VaultIsWritten(Run(moves).value)
    ensures var s := Run(moves).value;
            && (c in s.open <==> s.current == Some(c))
            && (c in s.closed <==> Loaded(moves, c) && s.current != Some(c))
            && (s.current == Some(c) ==> Loaded(moves, c))
  {
    EveryRunIsOk(moves);
    LoadedOrClosed(moves, c);
  }

  ghost predicate Loaded(moves: seq<Move>, c: Cat) {
    exists m :: m in moves && m.step == LoadDone(c)
  }

  lemma {:induction false} LoadedOrClosed(moves: seq<Move>, c: Cat)
    requires Run(moves).Some?
    ensures Loaded(moves, c) <==> c in Run(moves).value.open || c in Run(moves).value.closed
  {
    if moves != [] {
      var n := |moves| - 1;
      LoadedOrClosed(moves[..n], c);
      EveryRunIsOk(moves[..n]);
      assert moves == moves[..n] + [moves[n]];
      assert Loaded(moves, c) <==> Loaded(moves[..n], c) || moves[n].step == LoadDone(c);
      StepLoads(Run(moves[..n]).value, moves[n].thread, moves[n].step, Run(moves).value, c);
    }
  }

  lemma StepLoads(s: State, t: Thread, step: Step, s': State, c: Cat)
    requires VaultOk(s) && Do(s, t, step) == Some(s')
    ensures c in s'.open || c in s'.closed <==> c in s.open || c in s.closed || step == LoadDone(c)
  {
    if t in s.threads && s.threads[t].Loader? {
      assert LoaderOk(s, s.threads[t].stage);
    }
  }

  /** In every run no store has been misused, and while any operation or load is
      unfinished some thread can take its next step, even if readers give
      way to waiting writers. */
  lemma NoDeadlock(moves: seq<Move>)
    requires Run(moves).Some?
    ensures !Run(moves).value.misused
    ensures Run(moves).value.threads != map[] ==>
              exists t, step :: CanStep(Run(moves).value, t) && Do(Run(moves).value, t, step).Some?
  {
    EveryRunIsOk(moves);
    var s := Run(moves).value;
    if s.threads != map[] {
      assert s.threads.Keys != {};
      var t :| t in s.threads.Keys;
      var u := SomeoneCanStep(s, t);
      var step := CanStepSteps(s, u);
    }
  }

  // ---- everything can finish

  function Weight(a: Activity): nat {
    match a
    case Worker(_, todo, _) => |todo| + 1
    case Loader(Loading) => 2
    case Loader(Replaced(_)) => 2
    case Loader(Unloading) => 3
    case Loader(Closed) => 2
    case Loader(Finished) => 1
  }

  /** The steps all threads together have still to take. */
  ghost function Work(threads: map<Thread, Activity>): nat {
    if threads == map[] then 0
    else
      assert threads.Keys != {};
      var t :| t in threads;
      Weight(threads[t]) + Work(threads - {t})
  }

  lemma {:induction false} WorkSplits(threads: map<Thread, Activity>, t: Thread)
    requires t in threads
    ensures Work(threads) == Weight(threads[t]) + Work(threads - {t})
    decreases |threads|
  {
    var u: Thread :| u in threads && Work(threads) == Weight(threads[u]) + Work(threads - {u});
    if u != t {
      WorkSplits(threads - {u}, t);
      WorkSplits(threads - {t}, u);
      assert threads - {u} - {t} == threads - {t} - {u};
    }
  }

  lemma WorkLessens(threads: map<Thread, Activity>, t: Thread, threads': map<Thread, Activity>)
    requires t in threads
    requires threads' == threads - {t}
             || (t in threads' && threads' == threads[t := threads'[t]] && Weight(threads'[t]) < Weight(threads[t]))
    ensures Work(threads') < Work(threads)
  {
    WorkSplits(threads, t);
    if threads' != threads - {t} {
      WorkSplits(threads', t);
      assert threads' - {t} == threads - {t};
    }
  }

  /** A thread that can step has a step that leaves less to do. */
  lemma StepLessens(s: State, t: Thread) returns (step: Step)
    requires VaultOk(s) && CanStep(s, t)
    ensures Do(s, t, step).Some? && Work(Do(s, t, step).value.threads) < Work(s.threads)
  {
    step := CanStepSteps(s, t);
    match s.threads[t]
    case Worker(_, todo, _) =>
      if todo != [] {
        ExecLessens(s, t);
      }
      WorkLessens(s.threads, t, Do(s, t, step).value.threads);
    case Loader(stage) => WorkLessens(s.threads, t, Do(s, t, step).value.threads);
  }

  lemma ExecLessens(s: State, t: Thread)
    requires t in s.threads && s.threads[t].Worker? && s.threads[t].todo != [] && DoExec(s, t, s.threads[t]).Some?
    ensures var threads' := DoExec(s, t, s.threads[t]).value.threads;
            && t in threads' && threads' == s.threads[t := threads'[t]]
            && Weight(threads'[t]) < Weight(s.threads[t])
  {
    match s.threads[t].todo[0]
    case Acquire(_, _) =>
    case Release(_) =>
    case Use(_, _) =>
  }

  /** Every run can go on until no operation and no load is unfinished, even if
      readers give way to waiting writers. */
  lemma {:induction false} CanFinish(moves: seq<Move>) returns (more: seq<Move>)
    requires Run(moves).Some?
    ensures Run(moves + more).Some? && Run(moves + more).value.threads == map[]
    decreases Work(Run(moves).value.threads)
  {
    EveryRunIsOk(moves);
    var s := Run(moves).value;
    if s.threads == map[] {
      more := [];
      assert moves + [] == moves;
    } else {
      assert s.threads.Keys != {};
      var t :| t in s.threads.Keys;
      var u := SomeoneCanStep(s, t);
      var step := StepLessens(s, u);
      var m := Move(u, step);
      assert (moves + [m])[..|moves|] == moves;
      var rest := CanFinish(moves + [m]);
      more := [m] + rest;
      assert moves + more == moves + [m] + rest;
    }
  }
}
