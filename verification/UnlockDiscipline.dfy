/** Which calls of UnlockItem keep two threads from being inside one card: those
    for a card the caller holds, and no others. */
module UnlockDiscipline {
  import opened Wrappers
  import opened Keys
  import opened ItemTracker

  // ---- a locked card has a holder

  ghost predicate HasHolder(s: State, rid: RID) {
    exists t :: (t, rid) in s.held
  }

  ghost predicate HoldersOk(s: State) {
    forall rid :: rid in s.trackers && TokenOf(s, rid) == InFlag ==> HasHolder(s, rid)
  }

  lemma HolderStep(s: State, t: Thread, step: Step, rid: RID)
    requires MapOk(s) && TokensOk(s) && HoldersOk(s) && Do(s, t, step).Some?
    requires var s' := Do(s, t, step).value; rid in s'.trackers && TokenOf(s', rid) == InFlag
    ensures HasHolder(Do(s, t, step).value, rid)
  {
    var s' := Do(s, t, step).value;
    if step.SetFlag? && s'.trackers[rid] == At(s, t).mu {
      assert (t, rid) in s'.held;
    } else {
      assert rid in s.trackers && TokenOf(s, rid) == InFlag;
      var h :| (h, rid) in s.held;
      assert (h, rid) in s'.held;
    }
  }

  lemma {:induction false} HoldersInEveryRun(moves: seq<Move>)
    requires Run(moves).Some?
    ensures HoldersOk(Run(moves).value)
  {
    if moves != [] {
      var before, last := moves[..|moves| - 1], moves[|moves| - 1];
      HoldersInEveryRun(before);
      NeverFatal(before);
      var s' := Run(moves).value;
      forall rid | rid in s'.trackers && TokenOf(s', rid) == InFlag ensures HasHolder(s', rid) {
        HolderStep(Run(before).value, last.thread, last.step, rid);
      }
    }
  }

  // ---- a run that goes on without further unlocks

  predicate GoesOn(moves: seq<Move>, moves': seq<Move>) {
    moves <= moves' && forall i :: |moves| <= i < |moves'| ==> !moves'[i].step.StartUnlock?
  }

  lemma {:induction false} BoundOf(xs: set<nat>) returns (bound: nat)
    ensures forall x :: x in xs ==> x < bound
  {
    if xs == {} {
      bound := 0;
    } else {
      var x := SomeMember(xs);
      var rest := BoundOf(xs - {x});
      bound := if x < rest then rest else x + 1;
      assert forall y :: y in xs ==> y == x || y in xs - {x};
    }
  }

  /** A thread that has not done anything yet. */
  lemma NewThread(s: State) returns (a: Thread)
    ensures a !in s.pcs && forall rid :: (a, rid) !in s.held
  {
    var inside := set h | h in s.held :: h.0;
    a := BoundOf(s.pcs.Keys + inside);
    forall rid ensures (a, rid) !in s.held {
      assert (a, rid) in s.held ==> (a, rid).0 in inside;
    }
  }

  /** A newcomer takes a free card. */
  lemma Enter(moves: seq<Move>, s: State, rid: RID) returns (moves': seq<Move>, s': State, a: Thread)
    requires Run(moves) == Some(s) && rid in s.trackers && s.trackers[rid] in s.heap
    requires s.heap[s.trackers[rid]] == ResourceMu(false, false, Free)
    ensures Run(moves') == Some(s') && GoesOn(moves, moves') && s'.trackers == s.trackers
    ensures a !in s.pcs && (forall r :: (a, r) !in s.held) && s'.held == s.held + {(a, rid)}
    ensures s'.heap == s.heap[s.trackers[rid] := ResourceMu(true, true, InFlag)]
    ensures forall t :: t in s.pcs ==> At(s', t) == At(s, t)
  {
    a := NewThread(s);
    var one, u := Extend(moves, s, Move(a, StartLock(rid)));
    moves', s' := TakeFree(one, u, a, rid);
  }

  /** Whatever state a card is in, somebody other than an unlocking thread that does
      not hold it comes to hold it. */
  lemma ComesToBeHeld(moves: seq<Move>, s: State, t: Thread, rid: RID) returns (moves': seq<Move>, s': State, h: Thread)
    requires Run(moves) == Some(s) && rid in s.trackers && (t, rid) !in s.held
    requires t in s.pcs && s.pcs[t] == Releasing(rid, s.trackers[rid])
    ensures Run(moves') == Some(s') && GoesOn(moves, moves') && s'.trackers == s.trackers
    ensures At(s', t) == At(s, t) && (t, rid) !in s'.held && h != t && (h, rid) in s'.held
    ensures s.trackers[rid] in s'.heap && s'.heap[s.trackers[rid]] == ResourceMu(true, true, InFlag)
  {
    NeverFatal(moves);
    HoldersInEveryRun(moves);
    var mu := s.trackers[rid];
    match s.heap[mu].token
    case InFlag =>
      moves', s' := moves, s;
      h :| (h, rid) in s.held;
    case Free =>
      moves', s', h := Enter(moves, s, rid);
    case With(u) =>
      assert Responsible(s.pcs[u], mu);
      if s.pcs[u].Flagging? {
        moves', s' := Extend(moves, s, Move(u, SetFlag));
        h := u;
      } else {
        var one, v := Extend(moves, s, Move(u, Unlock));
        moves', s', h := Enter(one, v, rid);
      }
  }

  /** The unlocking thread opens the card under its holder, and a newcomer gets in. */
  lemma OpensToNewcomer(moves: seq<Move>, s: State, t: Thread, rid: RID, h: Thread)
      returns (moves': seq<Move>, s': State, a: Thread)
    requires Run(moves) == Some(s) && rid in s.trackers && h != t && (h, rid) in s.held
    requires At(s, t) == Releasing(rid, s.trackers[rid])
    requires s.trackers[rid] in s.heap && s.heap[s.trackers[rid]] == ResourceMu(true, true, InFlag)
    ensures Run(moves') == Some(s') && GoesOn(moves, moves')
    ensures a != h && (a, rid) in s'.held && (h, rid) in s'.held
  {
    var one, u := Extend(moves, s, Move(t, Swap));
    var two, w := Extend(one, u, Move(t, Unlock));
    moves', s', a := Enter(two, w, rid);
  }

  predicate TwoInside(s: State, rid: RID, a: Thread, h: Thread) {
    a != h && (a, rid) in s.held && (h, rid) in s.held
  }

  /** After an unlock by a thread that does not hold the card, be it free or held,
      two threads can come to be inside without any further unlock. */
  lemma UnsafeUnlock(moves: seq<Move>, t: Thread, rid: RID)
      returns (more: seq<Move>, a: Thread, h: Thread)
    requires Run(moves).Some? && At(Run(moves).value, t) == Idle
    requires rid in Run(moves).value.trackers && (t, rid) !in Run(moves).value.held
    ensures Run(moves + [Move(t, StartUnlock(rid))] + more).Some?
    ensures forall m :: m in more ==> !m.step.StartUnlock?
    ensures TwoInside(Run(moves + [Move(t, StartUnlock(rid))] + more).value, rid, a, h)
  {
    var s := Run(moves).value;
    var one, u := Extend(moves, s, Move(t, StartUnlock(rid)));
    var two, w;
    two, w, h := ComesToBeHeld(one, u, t, rid);
    var all, x;
    all, x, a := OpensToNewcomer(two, w, t, rid, h);
    more := all[|one|..];
    assert all == one + more;
  }

  // ---- exactly the disciplined unlocks are safe

  predicate OneInside(s: State) {
    forall h, k :: h in s.held && k in s.held && h.1 == k.1 ==> h.0 == k.0
  }

  /** However the run goes on, as long as callers then unlock only what they hold,
      no two threads are inside one card. */
  ghost predicate StaysExclusive(moves: seq<Move>) {
    forall more: seq<Move> :: Run(moves + more).Some? && DisciplinedFrom(moves + more, |moves|) ==>
      OneInside(Run(moves + more).value)
  }

  lemma DisciplineContinues(moves: seq<Move>, m: Move, more: seq<Move>)
    requires Run(moves).Some? && Disciplined(moves)
    requires m.step.StartUnlock? ==> MayUnlock(Run(moves).value, m.thread, m.step.rid)
    requires DisciplinedFrom(moves + [m] + more, |moves| + 1)
    ensures Disciplined(moves + [m] + more)
  {
    var all := moves + [m] + more;
    forall i | 0 <= i < |all| && all[i].step.StartUnlock?
      ensures Run(all[..i]).Some? && MayUnlock(Run(all[..i]).value, all[i].thread, all[i].step.rid)
    {
      if i < |moves| {
        assert all[..i] == moves[..i] && all[i] == moves[i];
      } else if i == |moves| {
        assert all[..i] == moves;
      }
    }
  }

  /** In a run that has been disciplined so far, a call of UnlockItem leaves the cards
      exclusive for good exactly when the caller holds the card or the card never had
      a mutex. */
  lemma UnlockIsSafe(moves: seq<Move>, t: Thread, rid: RID)
    requires Run(moves).Some? && Disciplined(moves) && At(Run(moves).value, t) == Idle
    ensures StaysExclusive(moves + [Move(t, StartUnlock(rid))]) <==> MayUnlock(Run(moves).value, t, rid)
  {
    var m := Move(t, StartUnlock(rid));
    if MayUnlock(Run(moves).value, t, rid) {
      forall more: seq<Move> | Run(moves + [m] + more).Some? && DisciplinedFrom(moves + [m] + more, |moves + [m]|)
        ensures OneInside(Run(moves + [m] + more).value)
      {
        DisciplineContinues(moves, m, more);
        DisciplinedRun(moves + [m] + more);
      }
    } else {
      var more, a, h := UnsafeUnlock(moves, t, rid);
      assert forall i :: |moves| + 1 <= i < |moves + [m] + more| ==> (moves + [m] + more)[i] in more;
      assert DisciplinedFrom(moves + [m] + more, |moves + [m]|);
      var s := Run(moves + [m] + more).value;
      assert (a, rid) in s.held && (h, rid) in s.held;
      assert !OneInside(s);
    }
  }
}
