/** The per-card lock tracker under any interleaving of LockItem and UnlockItem:
    each critical section of the tracker map and each access to a card's mutex or
    its atomic flag is one step. */
module ItemTracker {
  import opened Wrappers
  import opened Keys

  type Thread = nat
  type Address = nat

  /** Who is responsible for a locked mutex; history, never consulted by a step. */
  datatype Token = Free | InFlag | With(thread: Thread)

  /** `sync.Mutex` plus the `locked` flag beside it. */
  datatype ResourceMu = ResourceMu(inner: bool, locked: bool, token: Token)

  datatype Pc =
    | Idle
    | Creating(rid: RID)                  // LockItem: not found under the read lock
    | Waiting(rid: RID, mu: Address)      // ... about to lock the card's mutex
    | Flagging(rid: RID, mu: Address)     // ... mutex locked, flag not set yet
    | Releasing(rid: RID, mu: Address)    // UnlockItem: about to swap the flag; holds the map for reading
    | Unlocking(mu: Address)              // ... flag swapped, about to unlock; holds the map for reading

  /** `held` records which threads have returned from LockItem and not yet given
      the card up again by swapping its flag in UnlockItem. */
  datatype State = State(
    trackers: map<RID, Address>, heap: map<Address, ResourceMu>, pcs: map<Thread, Pc>,
    held: set<(Thread, RID)>, fatal: bool)

  const INIT := State(map[], map[], map[], {}, false)

  datatype Step = StartLock(rid: RID) | Create(mu: Address) | Acquire | SetFlag | StartUnlock(rid: RID) | Swap | Unlock

  function At(s: State, t: Thread): Pc {
    if t in s.pcs then s.pcs[t] else Idle
  }

  predicate MapIsRead(s: State) {
    exists t :: t in s.pcs && (s.pcs[t].Releasing? || s.pcs[t].Unlocking?)
  }

  function Goto(s: State, t: Thread, pc: Pc): State {
    s.(pcs := s.pcs[t := pc])
  }

  function DoStartLock(s: State, t: Thread, rid: RID): Option<State> {
    if At(s, t) != Idle then None
    else Some(Goto(s, t, if rid in s.trackers then Waiting(rid, s.trackers[rid]) else Creating(rid)))
  }

  /** Under the write lock the map is looked at again before a mutex is made. */
  function DoCreate(s: State, t: Thread, addr: Address): Option<State> {
    var pc := At(s, t);
    if !pc.Creating? || MapIsRead(s) || addr in s.heap then None
    else if pc.rid in s.trackers then Some(Goto(s, t, Waiting(pc.rid, s.trackers[pc.rid])))
    else
      Some(Goto(s.(trackers := s.trackers[pc.rid := addr], heap := s.heap[addr := ResourceMu(false, false, Free)]),
                t, Waiting(pc.rid, addr)))
  }

  function DoAcquire(s: State, t: Thread): Option<State> {
    var pc := At(s, t);
    if !pc.Waiting? || pc.mu !in s.heap || s.heap[pc.mu].inner then None
    else Some(Goto(s.(heap := s.heap[pc.mu := s.heap[pc.mu].(inner := true, token := With(t))]),
                   t, Flagging(pc.rid, pc.mu)))
  }

  function DoSetFlag(s: State, t: Thread): Option<State> {
    var pc := At(s, t);
    if !pc.Flagging? || pc.mu !in s.heap then None
    else Some(Goto(s.(heap := s.heap[pc.mu := s.heap[pc.mu].(locked := true, token := InFlag)],
                      held := s.held + {(t, pc.rid)}), t, Idle))
  }

  function DoStartUnlock(s: State, t: Thread, rid: RID): Option<State> {
    if At(s, t) != Idle then None
    else if rid !in s.trackers then Some(s)
    else Some(Goto(s, t, Releasing(rid, s.trackers[rid])))
  }

  /** Compare-and-swap from 1 to 0. */
  function DoSwap(s: State, t: Thread): Option<State> {
    var pc := At(s, t);
    if !pc.Releasing? || pc.mu !in s.heap then None
    else if s.heap[pc.mu].locked then
      Some(Goto(s.(heap := s.heap[pc.mu := s.heap[pc.mu].(locked := false, token := With(t))],
                   held := s.held - {(t, pc.rid)}), t, Unlocking(pc.mu)))
    else Some(Goto(s, t, Idle))
  }

  /** Unlocking a mutex that is not locked is fatal in Go. */
  function DoUnlock(s: State, t: Thread): Option<State> {
    var pc := At(s, t);
    if !pc.Unlocking? || pc.mu !in s.heap then None
    else Some(Goto(s.(heap := s.heap[pc.mu := s.heap[pc.mu].(inner := false, token := Free)],
                      fatal := s.fatal || !s.heap[pc.mu].inner), t, Idle))
  }

  function Do(s: State, t: Thread, step: Step): Option<State> {
    match step
    case StartLock(rid) => DoStartLock(s, t, rid)
    case Create(addr) => DoCreate(s, t, addr)
    case Acquire => DoAcquire(s, t)
    case SetFlag => DoSetFlag(s, t)
    case StartUnlock(rid) => DoStartUnlock(s, t, rid)
    case Swap => DoSwap(s, t)
    case Unlock => DoUnlock(s, t)
  }

  datatype Move = Move(thread: Thread, step: Step)

  function Run(moves: seq<Move>): Option<State> {
    if moves == [] then Some(INIT)
    else
      var last := moves[|moves| - 1];
      match Run(moves[..|moves| - 1])
      case None => None
      case Some(s) => Do(s, last.thread, last.step)
  }

  // ---- whatever the callers do

  predicate Responsible(pc: Pc, mu: Address) {
    (pc.Flagging? || pc.Unlocking?) && pc.mu == mu
  }

  /** No two cards share a mutex. */
  ghost predicate TrackersOk(s: State) {
    && (forall rid :: rid in s.trackers ==> s.trackers[rid] in s.heap)
    && (forall r, q :: r in s.trackers && q in s.trackers && s.trackers[r] == s.trackers[q] ==> r == q)
  }

  predicate AtCard(pc: Pc) {
    pc.Waiting? || pc.Flagging? || pc.Releasing?
  }

  /** Threads are at mutexes the tracker has made. */
  ghost predicate PositionsOk(s: State) {
    forall t :: t in s.pcs ==> PositionOk(s, s.pcs[t])
  }

  predicate PositionOk(s: State, pc: Pc) {
    && (AtCard(pc) ==> pc.rid in s.trackers && s.trackers[pc.rid] == pc.mu)
    && (pc.Unlocking? ==> pc.mu in s.heap)
  }

  ghost predicate MapOk(s: State) {
    TrackersOk(s) && PositionsOk(s)
  }

  /** A locked mutex is accounted for exactly once: either its flag is set, or one
      thread is between the flag and the mutex. */
  ghost predicate TokensOk(s: State) {
    && !s.fatal
    && (forall m :: m in s.heap ==> (s.heap[m].inner <==> s.heap[m].token != Free))
    && (forall m :: m in s.heap ==> (s.heap[m].locked <==> s.heap[m].token == InFlag))
    && (forall t, m :: t in s.pcs && Responsible(s.pcs[t], m) ==> m in s.heap && s.heap[m].token == With(t))
    && (forall m :: m in s.heap && s.heap[m].token.With? ==>
          s.heap[m].token.thread in s.pcs && Responsible(s.pcs[s.heap[m].token.thread], m))
  }

  lemma TrackersStep(s: State, t: Thread, step: Step)
    requires TrackersOk(s) && Do(s, t, step).Some?
    ensures var s' := Do(s, t, step).value;
            TrackersOk(s') && s.heap.Keys <= s'.heap.Keys
            && forall rid :: rid in s.trackers ==> rid in s'.trackers && s'.trackers[rid] == s.trackers[rid]
  {
  }

  lemma PositionsStep(s: State, t: Thread, step: Step)
    requires MapOk(s) && Do(s, t, step).Some?
    ensures PositionsOk(Do(s, t, step).value)
  {
    var s' := Do(s, t, step).value;
    TrackersStep(s, t, step);
    OthersStay(s, t, step);
    forall u | u in s'.pcs ensures PositionOk(s', s'.pcs[u]) {
      if u == t {
        PositionOfMover(s, t, step);
      } else {
        assert PositionOk(s, s.pcs[u]);
      }
    }
  }

  lemma OthersStay(s: State, t: Thread, step: Step)
    requires Do(s, t, step).Some?
    ensures var s' := Do(s, t, step).value;
            forall u :: u in s'.pcs && u != t ==> u in s.pcs && s'.pcs[u] == s.pcs[u]
  {
  }

  lemma PositionOfMover(s: State, t: Thread, step: Step)
    requires MapOk(s) && Do(s, t, step).Some?
    ensures PositionOk(Do(s, t, step).value, At(Do(s, t, step).value, t))
  {
    assert t in s.pcs ==> PositionOk(s, s.pcs[t]);
  }

  lemma MapStep(s: State, t: Thread, step: Step)
    requires MapOk(s) && Do(s, t, step).Some?
    ensures var s' := Do(s, t, step).value;
            MapOk(s') && forall rid :: rid in s.trackers ==> rid in s'.trackers && s'.trackers[rid] == s.trackers[rid]
  {
    TrackersStep(s, t, step);
    PositionsStep(s, t, step);
  }

  predicate CellOk(mu: ResourceMu) {
    (mu.inner <==> mu.token != Free) && (mu.locked <==> mu.token == InFlag)
  }

  lemma TokensMoveOn(s: State, t: Thread, pc: Pc)
    requires TokensOk(s) && forall m :: Responsible(pc, m) <==> Responsible(At(s, t), m)
    ensures TokensOk(Goto(s, t, pc))
  {
    var s' := Goto(s, t, pc);
    forall m | m in s.heap && s.heap[m].token.With?
      ensures s.heap[m].token.thread in s'.pcs && Responsible(s'.pcs[s.heap[m].token.thread], m)
    {
      assert Responsible(s.pcs[s.heap[m].token.thread], m);
    }
  }

  /** A thread passes through one mutex, which nobody else is responsible for. */
  lemma TokensPass(s: State, t: Thread, pc: Pc, m0: Address, mu: ResourceMu, held: set<(Thread, RID)>)
    requires TokensOk(s) && CellOk(mu)
    requires mu.token.With? ==> mu.token == With(t)
    requires m0 in s.heap && s.heap[m0].token.With? ==> s.heap[m0].token == With(t)
    requires forall m :: Responsible(pc, m) <==> m == m0 && mu.token == With(t)
    requires forall m :: Responsible(At(s, t), m) ==> m == m0
    ensures TokensOk(Goto(s.(heap := s.heap[m0 := mu], held := held), t, pc))
  {
    var s' := Goto(s.(heap := s.heap[m0 := mu], held := held), t, pc);
    forall m | m in s'.heap && s'.heap[m].token.With?
      ensures s'.heap[m].token.thread in s'.pcs && Responsible(s'.pcs[s'.heap[m].token.thread], m)
    {
      if m != m0 {
        var u := s.heap[m].token.thread;
        assert Responsible(s.pcs[u], m);
        assert u == t ==> Responsible(At(s, t), m);
      }
    }
    forall u, m | u in s'.pcs && Responsible(s'.pcs[u], m)
      ensures m in s'.heap && s'.heap[m].token == With(u)
    {
      if u != t {
        assert Responsible(s.pcs[u], m) && s.heap[m].token == With(u);
      }
    }
  }

  /** A new mutex is free, and nobody is at it. */
  lemma TokensCreateStep(s: State, t: Thread, mu: Address)
    requires MapOk(s) && TokensOk(s) && DoCreate(s, t, mu).Some?
    ensures TokensOk(DoCreate(s, t, mu).value)
  {
    var s' := DoCreate(s, t, mu).value;
    if At(s, t).rid in s.trackers {
      TokensMoveOn(s, t, At(s', t));
    } else {
      var cell := ResourceMu(false, false, Free);
      TokensPass(s, t, At(s', t), mu, cell, s.held);
      TokensIgnoreTrackers(Goto(s.(heap := s.heap[mu := cell], held := s.held), t, At(s', t)), s'.trackers);
    }
  }

  lemma TokensIgnoreTrackers(s: State, trackers: map<RID, Address>)
    requires TokensOk(s)
    ensures TokensOk(s.(trackers := trackers))
  {
  }

  lemma TokensLockStep(s: State, t: Thread, step: Step)
    requires MapOk(s) && TokensOk(s) && Do(s, t, step).Some?
    requires step.StartLock? || step.Create? || step.Acquire? || step.SetFlag?
    ensures TokensOk(Do(s, t, step).value)
  {
    var s' := Do(s, t, step).value;
    var pc := At(s, t);
    match step
    case StartLock(rid) => TokensMoveOn(s, t, At(s', t));
    case Create(mu) => TokensCreateStep(s, t, mu);
    case Acquire => TokensPass(s, t, At(s', t), pc.mu, s'.heap[pc.mu], s.held);
    case SetFlag =>
      assert Responsible(pc, pc.mu);
      TokensPass(s, t, Idle, pc.mu, s'.heap[pc.mu], s'.held);
  }

  lemma TokensUnlockStep(s: State, t: Thread, step: Step)
    requires MapOk(s) && TokensOk(s) && Do(s, t, step).Some?
    requires step.StartUnlock? || step.Swap? || step.Unlock?
    ensures TokensOk(Do(s, t, step).value)
  {
    var s' := Do(s, t, step).value;
    var pc := At(s, t);
    match step
    case StartUnlock(rid) => if rid in s.trackers { TokensMoveOn(s, t, At(s', t)); }
    case Swap =>
      if s.heap[pc.mu].locked {
        TokensPass(s, t, At(s', t), pc.mu, s'.heap[pc.mu], s'.held);
      } else {
        TokensMoveOn(s, t, Idle);
      }
    case Unlock =>
      assert Responsible(pc, pc.mu);
      TokensPass(s, t, Idle, pc.mu, s'.heap[pc.mu], s.held);
  }

  lemma TokensStep(s: State, t: Thread, step: Step)
    requires MapOk(s) && TokensOk(s) && Do(s, t, step).Some?
    ensures TokensOk(Do(s, t, step).value)
  {
    if step.StartUnlock? || step.Swap? || step.Unlock? {
      TokensUnlockStep(s, t, step);
    } else {
      TokensLockStep(s, t, step);
    }
  }

  /** For any number of threads calling LockItem and UnlockItem in any order, even
      unlocking what others hold, the inner mutex is never unlocked while free. */
  lemma {:induction false} NeverFatal(moves: seq<Move>)
    requires Run(moves).Some?
    ensures MapOk(Run(moves).value) && TokensOk(Run(moves).value) && !Run(moves).value.fatal
  {
    if moves != [] {
      NeverFatal(moves[..|moves| - 1]);
      var s, last := Run(moves[..|moves| - 1]).value, moves[|moves| - 1];
      MapStep(s, last.thread, last.step);
      TokensStep(s, last.thread, last.step);
    }
  }

  /** A card's mutex is made once and kept: every later state finds the same one,
      and no two cards share one. */
  lemma {:induction false} OneMutexForever(moves: seq<Move>, more: seq<Move>, rid: RID)
    requires Run(moves + more).Some?
    ensures Run(moves).Some?
    ensures rid in Run(moves).value.trackers ==>
              rid in Run(moves + more).value.trackers &&
              Run(moves + more).value.trackers[rid] == Run(moves).value.trackers[rid]
    ensures forall q :: (rid in Run(moves).value.trackers && q in Run(moves + more).value.trackers &&
                         Run(moves + more).value.trackers[q] == Run(moves).value.trackers[rid]) ==> q == rid
    decreases |more|
  {
    NeverFatal(moves + more);
    if more == [] {
      assert moves + more == moves;
    } else {
      var shorter := moves + more[..|more| - 1];
      assert (moves + more)[..|moves + more| - 1] == shorter;
      OneMutexForever(moves, more[..|more| - 1], rid);
      NeverFatal(shorter);
      MapStep(Run(shorter).value, more[|more| - 1].thread, more[|more| - 1].step);
    }
  }

  // ---- when callers unlock only what they hold

  /** Unlocking a card that never had a mutex does nothing and is always allowed. */
  predicate MayUnlock(s: State, t: Thread, rid: RID) {
    rid in s.trackers ==> (t, rid) in s.held
  }

  /** From move k on, callers unlock only what they hold. */
  predicate DisciplinedFrom(moves: seq<Move>, k: nat) {
    forall i :: k <= i < |moves| && moves[i].step.StartUnlock? ==>
      Run(moves[..i]).Some? && MayUnlock(Run(moves[..i]).value, moves[i].thread, moves[i].step.rid)
  }

  predicate Disciplined(moves: seq<Move>) {
    DisciplinedFrom(moves, 0)
  }

  function TokenOf(s: State, rid: RID): Token {
    if rid in s.trackers && s.trackers[rid] in s.heap then s.heap[s.trackers[rid]].token else Free
  }

  ghost predicate Exclusive(s: State) {
    && (forall h :: h in s.held ==> TokenOf(s, h.1) == InFlag)
    && (forall h, k :: h in s.held && k in s.held && h.1 == k.1 ==> h.0 == k.0)
    && (forall t :: t in s.pcs && s.pcs[t].Releasing? ==> (t, s.pcs[t].rid) in s.held)
  }

  lemma ExclusiveStep(s: State, t: Thread, step: Step)
    requires MapOk(s) && TokensOk(s) && Exclusive(s) && Do(s, t, step).Some?
    requires step.StartUnlock? ==> MayUnlock(s, t, step.rid)
    ensures Exclusive(Do(s, t, step).value)
  {
    var s' := Do(s, t, step).value;
    HeldStep(s, t, step);
    forall h | h in s'.held ensures TokenOf(s', h.1) == InFlag {
      if h in s.held {
        HeldKept(s, t, step, h);
      }
    }
    forall u | u in s'.pcs && s'.pcs[u].Releasing? ensures (u, s'.pcs[u].rid) in s'.held {
      assert u != t ==> u in s.pcs && s'.pcs[u] == s.pcs[u];
    }
  }

  /** A card is entered only while nobody is inside, and left by who was inside. */
  lemma HeldStep(s: State, t: Thread, step: Step)
    requires MapOk(s) && TokensOk(s) && Exclusive(s) && Do(s, t, step).Some?
    ensures var s' := Do(s, t, step).value;
            if step.SetFlag?
            then s'.held == s.held + {(t, At(s, t).rid)} && TokenOf(s', At(s, t).rid) == InFlag
                 && forall h :: h in s.held ==> h.1 != At(s, t).rid
            else if step.Swap? && s'.held != s.held then s'.held == s.held - {(t, At(s, t).rid)} && At(s', t).Unlocking?
            else s'.held == s.held
  {
    if step.SetFlag? {
      assert Responsible(s.pcs[t], s.pcs[t].mu);
    }
  }

  lemma HeldKept(s: State, t: Thread, step: Step, h: (Thread, RID))
    requires MapOk(s) && TokensOk(s) && Exclusive(s) && Do(s, t, step).Some?
    requires h in s.held && h in Do(s, t, step).value.held
    ensures TokenOf(Do(s, t, step).value, h.1) == InFlag
  {
    TokenFrame(s, t, step);
    if step.SetFlag? || step.Unlock? {
      assert Responsible(s.pcs[t], s.pcs[t].mu);
    }
    if step.Swap? {
      assert (t, s.pcs[t].rid) in s.held;
    }
  }

  /** A step changes the token of at most the card whose mutex its thread is at. */
  lemma TokenFrame(s: State, t: Thread, step: Step)
    requires MapOk(s) && Do(s, t, step).Some?
    ensures var s' := Do(s, t, step).value;
            forall rid :: rid in s.trackers && TokenOf(s', rid) != TokenOf(s, rid) ==>
              (step.Acquire? || step.SetFlag? || step.Swap? || step.Unlock?) && s.trackers[rid] == At(s, t).mu
  {
  }

  lemma {:induction false} DisciplinedRun(moves: seq<Move>)
    requires Run(moves).Some? && Disciplined(moves)
    ensures Exclusive(Run(moves).value)
  {
    if moves != [] {
      var before, last := moves[..|moves| - 1], moves[|moves| - 1];
      assert forall i :: 0 <= i < |before| ==> before[..i] == moves[..i] && before[i] == moves[i];
      DisciplinedRun(before);
      NeverFatal(before);
      ExclusiveStep(Run(before).value, last.thread, last.step);
    }
  }

  /** At most one thread is ever inside a card, and while it is the card's flag
      reports it as locked and its mutex is locked. */
  lemma MutualExclusion(moves: seq<Move>, t: Thread, u: Thread, rid: RID)
    requires Run(moves).Some? && Disciplined(moves)
    requires (t, rid) in Run(moves).value.held
    ensures (u, rid) in Run(moves).value.held ==> t == u
    ensures var s := Run(moves).value;
            && rid in s.trackers && s.trackers[rid] in s.heap
            && s.heap[s.trackers[rid]].locked && s.heap[s.trackers[rid]].inner
  {
    DisciplinedRun(moves);
    NeverFatal(moves);
  }

  /** Without that discipline two threads can be inside: thread 3 releases what
      thread 1 holds, and thread 2 gets in. */
  lemma SpuriousUnlock() returns (moves: seq<Move>)
    ensures Run(moves).Some? && (1, 7) in Run(moves).value.held && (2, 7) in Run(moves).value.held
  {
    var s: State;
    moves, s := Extend([], INIT, Move(1, StartLock(7)));
    moves, s := Extend(moves, s, Move(1, Create(0)));
    moves, s := TakeFree(moves, s, 1, 7);
    moves, s := ReleaseAny(moves, s, 3, 7);
    moves, s := Extend(moves, s, Move(2, StartLock(7)));
    moves, s := TakeFree(moves, s, 2, 7);
  }

  lemma Extend(moves: seq<Move>, s: State, m: Move) returns (moves': seq<Move>, s': State)
    requires Run(moves) == Some(s) && Do(s, m.thread, m.step).Some?
    ensures moves' == moves + [m] && Run(moves') == Some(s') && s' == Do(s, m.thread, m.step).value
  {
    moves' := moves + [m];
    assert moves'[..|moves'| - 1] == moves;
    s' := Do(s, m.thread, m.step).value;
  }

  /** A waiting thread takes a free card. */
  lemma TakeFree(moves: seq<Move>, s: State, t: Thread, rid: RID) returns (moves': seq<Move>, s': State)
    requires Run(moves) == Some(s) && rid in s.trackers && s.trackers[rid] in s.heap
    requires At(s, t) == Waiting(rid, s.trackers[rid]) && s.heap[s.trackers[rid]] == ResourceMu(false, false, Free)
    ensures Run(moves') == Some(s') && s'.trackers == s.trackers && s'.held == s.held + {(t, rid)}
    ensures s'.heap == s.heap[s.trackers[rid] := ResourceMu(true, true, InFlag)]
    ensures s'.pcs == s.pcs[t := Idle]
    ensures moves' == moves + [Move(t, Acquire), Move(t, SetFlag)]
  {
    moves', s' := Extend(moves, s, Move(t, Acquire));
    moves', s' := Extend(moves', s', Move(t, SetFlag));
  }

  /** Any idle thread can release a held card. */
  lemma ReleaseAny(moves: seq<Move>, s: State, t: Thread, rid: RID) returns (moves': seq<Move>, s': State)
    requires Run(moves) == Some(s) && rid in s.trackers && s.trackers[rid] in s.heap
    requires At(s, t) == Idle && s.heap[s.trackers[rid]] == ResourceMu(true, true, InFlag)
    ensures Run(moves') == Some(s') && s'.trackers == s.trackers && s'.held == s.held - {(t, rid)}
    ensures s'.heap == s.heap[s.trackers[rid] := ResourceMu(false, false, Free)]
    ensures s'.pcs == s.pcs[t := Idle]
  {
    moves', s' := Extend(moves, s, Move(t, StartUnlock(rid)));
    moves', s' := Extend(moves', s', Move(t, Swap));
    moves', s' := Extend(moves', s', Move(t, Unlock));
  }
}
