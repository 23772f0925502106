/** mutracker's methods as they are written, one call at a time, each shown to be a
    sequence of the tracker's atomic steps. */
module MuTracker {
  import opened Wrappers
  import opened Keys
  import opened Calls
  import opened ItemTracker

  ghost predicate Quiet(s: State) {
    forall t :: t in s.pcs ==> s.pcs[t] == Idle
  }

  /** The mutex a card is locked by, once it has one. */
  function WithTracker(s: State, rid: RID, addr: Address): State {
    if rid in s.trackers then s
    else s.(trackers := s.trackers[rid := addr], heap := s.heap[addr := ResourceMu(false, false, Free)])
  }

  function FindSteps(s: State, rid: RID, addr: Address): seq<Step> {
    if rid in s.trackers then [StartLock(rid)] else [StartLock(rid), Create(addr)]
  }

  lemma FindTracker(s: State, t: Thread, rid: RID, addr: Address)
    requires Quiet(s) && addr !in s.heap
    ensures var u := WithTracker(s, rid, addr);
            After(Do, s, t, FindSteps(s, rid, addr)) == Some(u.(pcs := s.pcs[t := Waiting(rid, u.trackers[rid])]))
  {
    OneMore(Do, s, t, [], s, StartLock(rid));
    assert [] + [StartLock(rid)] == [StartLock(rid)];
    if rid !in s.trackers {
      var u := s.(pcs := s.pcs[t := Creating(rid)]);
      OneMore(Do, s, t, [StartLock(rid)], u, Create(addr));
      UpdateTwice(s.pcs, t, Creating(rid), Waiting(rid, addr));
      assert !MapIsRead(u);
      assert [StartLock(rid)] + [Create(addr)] == [StartLock(rid), Create(addr)];
    }
  }

  /** Locking a mutex that is free, then setting its flag. */
  lemma AcquireSteps(s: State, t: Thread, steps: seq<Step>, u: State, rid: RID, mu: Address)
    requires After(Do, s, t, steps) == Some(u) && At(u, t) == Waiting(rid, mu) && mu in u.heap && !u.heap[mu].inner
    ensures After(Do, s, t, steps + [Acquire, SetFlag]) ==
            Some(u.(heap := u.heap[mu := ResourceMu(true, true, InFlag)], held := u.held + {(t, rid)},
                    pcs := u.pcs[t := Idle]))
  {
    var w := u.(heap := u.heap[mu := u.heap[mu].(inner := true, token := With(t))],
                pcs := u.pcs[t := Flagging(rid, mu)]);
    OneMore(Do, s, t, steps, u, Acquire);
    OneMore(Do, s, t, steps + [Acquire], w, SetFlag);
    UpdateTwice(u.pcs, t, Flagging(rid, mu), Idle);
    assert w.heap[mu := ResourceMu(true, true, InFlag)] == u.heap[mu := ResourceMu(true, true, InFlag)];
    assert steps + [Acquire] + [SetFlag] == steps + [Acquire, SetFlag];
  }

  lemma StartUnlockStep(s: State, t: Thread, rid: RID)
    requires At(s, t) == Idle && rid in s.trackers
    ensures Do(s, t, StartUnlock(rid)) == Some(s.(pcs := s.pcs[t := Releasing(rid, s.trackers[rid])]))
  {
  }

  lemma SwapStep(u: State, t: Thread, rid: RID, mu: Address)
    requires At(u, t) == Releasing(rid, mu) && mu in u.heap
    ensures Do(u, t, Swap) == Some(
              if u.heap[mu].locked
              then u.(heap := u.heap[mu := u.heap[mu].(locked := false, token := With(t))],
                      held := u.held - {(t, rid)}, pcs := u.pcs[t := Unlocking(mu)])
              else u.(pcs := u.pcs[t := Idle]))
  {
  }

  lemma UnlockStep(w: State, t: Thread, mu: Address)
    requires At(w, t) == Unlocking(mu) && mu in w.heap
    ensures Do(w, t, Unlock) == Some(w.(heap := w.heap[mu := w.heap[mu].(inner := false, token := Free)],
                                        fatal := w.fatal || !w.heap[mu].inner, pcs := w.pcs[t := Idle]))
  {
  }

  lemma ReleasedTwice(heap: map<Address, ResourceMu>, mu: Address, m: ResourceMu)
    requires !m.locked
    ensures var h := heap[mu := m];
            h[mu := h[mu].(inner := false, token := Free)] == heap[mu := ResourceMu(false, false, Free)]
  {
  }

  /** Unlocking a card whose flag is set. */
  lemma ReleaseSteps(s: State, t: Thread, rid: RID, mu: Address)
    requires Quiet(s) && rid in s.trackers && s.trackers[rid] == mu && mu in s.heap && s.heap[mu].locked
    ensures After(Do, s, t, [StartUnlock(rid), Swap, Unlock]) ==
            Some(s.(heap := s.heap[mu := ResourceMu(false, false, Free)], held := s.held - {(t, rid)},
                    pcs := s.pcs[t := Idle], fatal := s.fatal || !s.heap[mu].inner))
  {
    var swapped := s.heap[mu].(locked := false, token := With(t));
    var u := s.(pcs := s.pcs[t := Releasing(rid, mu)]);
    var w := u.(heap := s.heap[mu := swapped], held := s.held - {(t, rid)}, pcs := u.pcs[t := Unlocking(mu)]);
    StartUnlockStep(s, t, rid);
    SwapStep(u, t, rid, mu);
    UnlockStep(w, t, mu);
    ReleasedTwice(s.heap, mu, swapped);
    UpdateTwice(s.pcs, t, Releasing(rid, mu), Unlocking(mu));
    UpdateTwice(s.pcs, t, Unlocking(mu), Idle);
    ThreeSteps(Do, s, t, StartUnlock(rid), Swap, Unlock, u, w);
  }

  /** Unlocking a card whose flag is not set changes nothing. */
  lemma SpuriousSteps(s: State, t: Thread, rid: RID, mu: Address)
    requires Quiet(s) && rid in s.trackers && s.trackers[rid] == mu && mu in s.heap && !s.heap[mu].locked
    ensures After(Do, s, t, [StartUnlock(rid), Swap]) == Some(s.(pcs := s.pcs[t := Idle]))
  {
    var u := s.(pcs := s.pcs[t := Releasing(rid, mu)]);
    StartUnlockStep(s, t, rid);
    SwapStep(u, t, rid, mu);
    UpdateTwice(s.pcs, t, Releasing(rid, mu), Idle);
    TwoSteps(Do, s, t, StartUnlock(rid), Swap, u);
  }

  /** What locking a free card leaves. */
  lemma LockSteps(s: State, t: Thread, rid: RID, addr: Address)
    requires Quiet(s) && TrackersOk(s) && addr !in s.heap
    requires rid in s.trackers ==> !s.heap[s.trackers[rid]].inner
    ensures var u := WithTracker(s, rid, addr);
            After(Do, s, t, FindSteps(s, rid, addr) + [Acquire, SetFlag]) ==
            Some(u.(heap := u.heap[u.trackers[rid] := ResourceMu(true, true, InFlag)], held := s.held + {(t, rid)},
                    pcs := s.pcs[t := Idle]))
  {
    FindTracker(s, t, rid, addr);
    var u := WithTracker(s, rid, addr);
    var w := u.(pcs := s.pcs[t := Waiting(rid, u.trackers[rid])]);
    AcquireSteps(s, t, FindSteps(s, rid, addr), w, rid, u.trackers[rid]);
    UpdateTwice(s.pcs, t, Waiting(rid, u.trackers[rid]), Idle);
  }

  class Tracker {
    var trackers: map<RID, Address>
    var heap: map<Address, ResourceMu>
    ghost var pcs: map<Thread, Pc>
    ghost var held: set<(Thread, RID)>
    ghost var fatal: bool

    ghost function View(): State
      reads this
    {
      State(trackers, heap, pcs, held, fatal)
    }

    ghost predicate Valid()
      reads this
    {
      Quiet(View()) && TrackersOk(View()) && !fatal && forall mu :: mu in heap ==> heap[mu].inner == heap[mu].locked
    }

    constructor ()
      ensures Valid() && View() == INIT
    {
      trackers, heap := map[], map[];
      pcs, held, fatal := map[], {}, false;
    }

    /** Locks a card that is free, made known if need be; on a locked card the call
        stands waiting at the card's mutex, which it cannot acquire. */
    method LockItem(ghost t: Thread, rid: RID, addr: Address) returns (waits: bool)
      requires Valid() && addr !in heap
      modifies this
      ensures waits <==> rid in old(trackers) && old(heap)[old(trackers)[rid]].locked
      ensures !waits ==>
                && Valid()
                && After(Do, old(View()), t, FindSteps(old(View()), rid, addr) + [Acquire, SetFlag]) == Some(View())
      ensures waits ==>
                && After(Do, old(View()), t, [StartLock(rid)]) == Some(View())
                && At(View(), t) == Waiting(rid, old(trackers)[rid]) && Do(View(), t, Acquire).None?
                && trackers == old(trackers) && heap == old(heap) && held == old(held)
    {
      waits := rid in trackers && heap[trackers[rid]].locked;
      if waits {
        FindTracker(View(), t, rid, addr);
        pcs := pcs[t := Waiting(rid, trackers[rid])];
        return;
      }
      LockSteps(View(), t, rid, addr);
      if rid !in trackers {
        heap := heap[addr := ResourceMu(false, false, Free)];
        trackers := trackers[rid := addr];
      }
      heap := heap[trackers[rid] := ResourceMu(true, true, InFlag)];
      held := held + {(t, rid)};
      pcs := pcs[t := Idle];
    }

    method UnlockItem(ghost t: Thread, rid: RID)
      requires Valid()
      modifies this
      ensures Valid()
      ensures var s := old(View());
              if rid !in s.trackers then View() == s
              else if s.heap[s.trackers[rid]].locked
              then After(Do, s, t, [StartUnlock(rid), Swap, Unlock]) == Some(View())
              else After(Do, s, t, [StartUnlock(rid), Swap]) == Some(View())
    {
      if rid in trackers {
        var mu := trackers[rid];
        if heap[mu].locked {
          ReleaseSteps(View(), t, rid, mu);
          heap := heap[mu := ResourceMu(false, false, Free)];
          held := held - {(t, rid)};
        } else {
          SpuriousSteps(View(), t, rid, mu);
        }
        pcs := pcs[t := Idle];
      }
    }

    method IsItemLocked(rid: RID) returns (yes: bool)
      requires Valid()
      ensures yes <==> rid in trackers && heap[trackers[rid]].locked
    {
      yes := rid in trackers && heap[trackers[rid]].locked;
    }

    /** Exactly the locked cards, each once. */
    method LockedItems() returns (items: seq<RID>)
      requires Valid()
      ensures forall rid :: rid in items <==> rid in trackers && heap[trackers[rid]].locked
      ensures forall i, j :: 0 <= i < j < |items| ==> items[i] != items[j]
    {
      items := [];
      var rest := trackers.Keys;
      while rest != {}
        invariant rest <= trackers.Keys
        invariant forall rid :: rid in items <==> rid in trackers && rid !in rest && heap[trackers[rid]].locked
        invariant forall i, j :: 0 <= i < j < |items| ==> items[i] != items[j]
        decreases |rest|
      {
        var rid :| rid in rest;
        if heap[trackers[rid]].locked {
          items := items + [rid];
        }
        rest := rest - {rid};
      }
    }
  }
}
