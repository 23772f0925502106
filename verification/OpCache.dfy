/** opcache's methods as they are written, one call at a time, each shown to be a
    sequence of the registry's atomic steps. */
module OpCache {
  import opened Wrappers
  import opened Calls
  import opened OperationRegistry

  // ---- whole calls, on values

  /** No call is under way. */
  ghost predicate Undisturbed(s: State) {
    && OrderOk(s) && NoRepeats(s.order) && Quiet(s)
    && forall id :: id in s.entries ==> s.entries[id].owner.None?
  }

  lemma {:induction false} WithoutNoRepeats(ids: seq<ID>, gone: seq<ID>)
    requires NoRepeats(ids)
    ensures NoRepeats(Without(ids, gone))
  {
    if ids != [] {
      WithoutNoRepeats(ids[1..], gone);
      var rest := Without(ids[1..], gone);
      assert forall id :: id in rest ==> id in ids[1..];
      assert ids[0] !in rest;
    }
  }

  function NewEntry(): Entry {
    Entry(Ongoing, false, false, Report(0, 0, 0, 0, 0, []), None, true, [])
  }

  lemma NewOperationSteps(s: State, t: Thread, id: ID)
    requires Undisturbed(s) && id !in s.entries
    ensures After(Do, s, t, [Count, Publish(id), FlagPublished]) ==
            Some(State(s.entries[id := NewEntry()], s.order + [id], s.active + 1, true, s.pcs[t := Idle], s.shown))
  {
    var u := s.(active := s.active + 1, pcs := s.pcs[t := Counted]);
    var w := u.(entries := s.entries[id := NewEntry()], order := s.order + [id], pcs := s.pcs[t := Published(id)]);
    assert !MapIsRead(u);
    UpdateTwice(s.pcs, t, Counted, Published(id));
    UpdateTwice(s.pcs, t, Published(id), Idle);
    ThreeSteps(Do, s, t, Count, Publish(id), FlagPublished, u, w);
  }

  function Terminated(e: Entry): Entry {
    e.(status := EndStatus(e), unseen := true)
  }

  lemma FindStep(s: State, t: Thread, id: ID)
    requires At(s, t) == Idle && id in s.order && id in s.entries
    ensures Do(s, t, FindToEnd(id)) == Some(s.(pcs := s.pcs[t := Finding(id)]))
  {
  }

  lemma CheckStep(s: State, t: Thread, id: ID)
    requires At(s, t) == Finding(id) && id in s.entries
    ensures Do(s, t, CheckContext) == Some(s.(pcs := s.pcs[t := Ending(id, EndStatus(s.entries[id]))]))
  {
  }

  function EndStatus(e: Entry): Status {
    if e.cancelled then Cancelled else Completed
  }

  lemma EndStep(s: State, t: Thread, id: ID, status: Status)
    requires At(s, t) == Ending(id, status) && id in s.entries && s.entries[id].owner.None?
    ensures Do(s, t, End) == Some(
              if s.entries[id].status != Ongoing then s.(pcs := s.pcs[t := Idle])
              else s.(pcs := s.pcs[t := Ended(id)],
                      entries := s.entries[id := s.entries[id].(status := status, owner := Some(t), unseen := true)]))
  {
  }

  lemma UncountStep(s: State, t: Thread, id: ID)
    requires At(s, t) == Ended(id)
    ensures Do(s, t, Uncount) == Some(s.(pcs := s.pcs[t := Uncounted(id)], active := s.active - 1))
  {
  }

  lemma ReleaseStep(s: State, t: Thread, id: ID, step: Step)
    requires id in s.entries
    requires (At(s, t) == Uncounted(id) && step == FlagEnded) || (At(s, t) == Changed(id) && step == FlagChanged)
    ensures Do(s, t, step) ==
            Some(s.(pcs := s.pcs[t := Idle], dirty := true, entries := s.entries[id := s.entries[id].(owner := None)]))
  {
  }

  lemma OwnedAndReleased(entries: map<ID, Entry>, t: Thread, id: ID, e: Entry)
    requires e.owner == None
    ensures var owned := entries[id := e.(owner := Some(t))]; owned[id := owned[id].(owner := None)] == entries[id := e]
  {
  }

  /** The registry after an ongoing operation is terminated. */
  function TerminatedState(s: State, t: Thread, id: ID): State
    requires id in s.entries
  {
    s.(entries := s.entries[id := Terminated(s.entries[id])], active := s.active - 1, dirty := true,
       pcs := s.pcs[t := Idle])
  }

  function EndSteps(id: ID): seq<Step> {
    [FindToEnd(id), CheckContext] + [End] + [Uncount] + [FlagEnded]
  }

  /** Looking up the entry and checking its context. */
  lemma FoundSteps(s: State, t: Thread, id: ID)
    requires Undisturbed(s) && id in s.order
    ensures After(Do, s, t, [FindToEnd(id), CheckContext]) ==
            Some(s.(pcs := s.pcs[t := Ending(id, EndStatus(s.entries[id]))]))
  {
    var u := s.(pcs := s.pcs[t := Finding(id)]);
    FindStep(s, t, id);
    CheckStep(u, t, id);
    UpdateTwice(s.pcs, t, Finding(id), Ending(id, EndStatus(s.entries[id])));
    TwoSteps(Do, s, t, FindToEnd(id), CheckContext, u);
  }

  /** A terminated operation is left alone. */
  lemma TerminateAgain(s: State, t: Thread, id: ID)
    requires Undisturbed(s) && id in s.order && s.entries[id].status != Ongoing
    ensures After(Do, s, t, [FindToEnd(id), CheckContext] + [End]) == Some(s.(pcs := s.pcs[t := Idle]))
  {
    var status := EndStatus(s.entries[id]);
    var u := s.(pcs := s.pcs[t := Ending(id, status)]);
    FoundSteps(s, t, id);
    EndStep(u, t, id, status);
    UpdateTwice(s.pcs, t, Ending(id, status), Idle);
    OneMore(Do, s, t, [FindToEnd(id), CheckContext], u, End);
  }

  /** Setting the status under the entry's lock. */
  lemma EndMore(s: State, t: Thread, steps: seq<Step>, u: State, id: ID, status: Status)
    requires After(Do, s, t, steps) == Some(u) && At(u, t) == Ending(id, status)
    requires id in u.entries && u.entries[id].owner.None? && u.entries[id].status == Ongoing
    ensures After(Do, s, t, steps + [End]) ==
            Some(u.(pcs := u.pcs[t := Ended(id)],
                    entries := u.entries[id := u.entries[id].(status := status, owner := Some(t), unseen := true)]))
  {
    EndStep(u, t, id, status);
    OneMore(Do, s, t, steps, u, End);
  }

  lemma UncountMore(s: State, t: Thread, steps: seq<Step>, u: State, id: ID)
    requires After(Do, s, t, steps) == Some(u) && At(u, t) == Ended(id)
    ensures After(Do, s, t, steps + [Uncount]) == Some(u.(pcs := u.pcs[t := Uncounted(id)], active := u.active - 1))
  {
    UncountStep(u, t, id);
    OneMore(Do, s, t, steps, u, Uncount);
  }

  /** Raising the flag and letting go of the entry. */
  lemma Released(s: State, t: Thread, steps: seq<Step>, u: State, id: ID, e: Entry, x: State, step: Step)
    requires e.owner.None? && x == u.(entries := u.entries[id := e.(owner := Some(t))], pcs := x.pcs)
    requires After(Do, s, t, steps) == Some(x)
    requires (At(x, t) == Uncounted(id) && step == FlagEnded) || (At(x, t) == Changed(id) && step == FlagChanged)
    ensures After(Do, s, t, steps + [step]) ==
            Some(u.(entries := u.entries[id := e], dirty := true, pcs := x.pcs[t := Idle]))
  {
    ReleaseStep(x, t, id, step);
    OwnedAndReleased(u.entries, t, id, e);
    OneMore(Do, s, t, steps, x, step);
  }

  lemma TerminateSteps(s: State, t: Thread, id: ID)
    requires Undisturbed(s) && id in s.order && s.entries[id].status == Ongoing
    ensures After(Do, s, t, EndSteps(id)) == Some(TerminatedState(s, t, id))
  {
    var e := Terminated(s.entries[id]);
    var u := s.(pcs := s.pcs[t := Ending(id, e.status)]);
    var w := s.(entries := s.entries[id := e.(owner := Some(t))], pcs := s.pcs[t := Ended(id)]);
    var x := w.(active := s.active - 1, pcs := s.pcs[t := Uncounted(id)]);
    var found := [FindToEnd(id), CheckContext];
    FoundSteps(s, t, id);
    EndMore(s, t, found, u, id, e.status);
    UpdateTwice(s.pcs, t, Ending(id, e.status), Ended(id));
    UncountMore(s, t, found + [End], w, id);
    UpdateTwice(s.pcs, t, Ended(id), Uncounted(id));
    Released(s, t, found + [End] + [Uncount], s.(active := s.active - 1), id, e, x, FlagEnded);
    UpdateTwice(s.pcs, t, Uncounted(id), Idle);
  }

  lemma ChangeSteps(s: State, t: Thread, id: ID, change: Change)
    requires At(s, t) == Idle && id in s.order && id in s.entries && s.entries[id].owner.None?
    ensures Do(s, t, FindToChange(id, change)) == Some(s.(pcs := s.pcs[t := Changing(id, change)]))
    ensures var u := s.(pcs := s.pcs[t := Changing(id, change)]);
            Do(u, t, Mutate) == Some(u.(pcs := u.pcs[t := Changed(id)],
                                        entries := s.entries[id := Mutated(s.entries[id], change).(owner := Some(t))]))
  {
  }

  lemma MutateSteps(s: State, t: Thread, id: ID, change: Change)
    requires Undisturbed(s) && id in s.order
    ensures After(Do, s, t, [FindToChange(id, change), Mutate, FlagChanged]) ==
            Some(s.(entries := s.entries[id := Mutated(s.entries[id], change)], dirty := true, pcs := s.pcs[t := Idle]))
  {
    var u := s.(pcs := s.pcs[t := Changing(id, change)]);
    var w := u.(pcs := u.pcs[t := Changed(id)],
                entries := s.entries[id := Mutated(s.entries[id], change).(owner := Some(t))]);
    ChangeSteps(s, t, id, change);
    ReleaseStep(w, t, id, FlagChanged);
    OwnedAndReleased(s.entries, t, id, Mutated(s.entries[id], change));
    UpdateTwice(s.pcs, t, Changing(id, change), Changed(id));
    UpdateTwice(s.pcs, t, Changed(id), Idle);
    ThreeSteps(Do, s, t, FindToChange(id, change), Mutate, FlagChanged, u, w);
  }

  // ---- a whole listing, on values

  function Visits(n: nat): seq<Step> {
    if n == 0 then [] else Visits(n - 1) + [Visit]
  }

  function ListSteps(n: nat, cleans: bool): seq<Step> {
    [ClearFlag, LockMap] + Visits(n) + [UnlockMap] + if cleans then [Clean] else []
  }

  lemma StartListing(s: State, t: Thread)
    requires Undisturbed(s)
    ensures After(Do, s, t, [ClearFlag, LockMap]) == Some(s.(dirty := false, pcs := s.pcs[t := Listing(s.order, [])]))
  {
    var u := s.(dirty := false, pcs := s.pcs[t := Cleared]);
    TwoSteps(Do, s, t, ClearFlag, LockMap, u);
    UpdateTwice(s.pcs, t, Cleared, Listing(s.order, []));
  }

  /** The states a listing goes through as it visits one entry after the other. */
  ghost predicate VisitPath(t: Thread, path: seq<State>) {
    path != [] && forall i :: 0 < i < |path| ==> Visited(path[i - 1], t, path[i])
  }

  ghost predicate Visited(u: State, t: Thread, w: State) {
    Do(u, t, Visit) == Some(w)
  }

  ghost predicate IsPath(t: Thread, from: State, path: seq<State>, n: nat, to: State) {
    VisitPath(t, path) && |path| == n + 1 && path[0] == from && path[n] == to
  }

  lemma PathGrows(t: Thread, path: seq<State>, w: State)
    requires VisitPath(t, path) && Visited(path[|path| - 1], t, w)
    ensures VisitPath(t, path + [w])
  {
  }

  lemma {:induction false} VisitsAreSteps(s: State, t: Thread, steps: seq<Step>, path: seq<State>, n: nat)
    requires VisitPath(t, path) && n < |path| && After(Do, s, t, steps) == Some(path[0])
    ensures After(Do, s, t, steps + Visits(n)) == Some(path[n])
  {
    if n == 0 {
      assert steps + [] == steps;
    } else {
      VisitsAreSteps(s, t, steps, path, n - 1);
      assert Visited(path[n - 1], t, path[n]);
      VisitIsStep(s, t, steps, n - 1, path[n - 1], path[n]);
    }
  }

  lemma VisitIsStep(s: State, t: Thread, steps: seq<Step>, n: nat, v: State, w: State)
    requires After(Do, s, t, steps + Visits(n)) == Some(v) && Visited(v, t, w)
    ensures After(Do, s, t, steps + Visits(n + 1)) == Some(w)
  {
    OneMore(Do, s, t, steps + Visits(n), v, Visit);
    assert steps + Visits(n) + [Visit] == steps + Visits(n + 1);
  }

  lemma UnlockStep(u: State, t: Thread, toClean: seq<ID>)
    requires t in u.pcs && u.pcs[t] == Listing([], toClean)
    ensures Do(u, t, UnlockMap) == Some(u.(pcs := u.pcs[t := if toClean == [] then Idle else Cleaning(toClean)]))
  {
  }

  lemma CleanStep(u: State, t: Thread, toClean: seq<ID>)
    requires At(u, t) == Cleaning(toClean) && forall v :: v in u.pcs && v != t ==> u.pcs[v] == Idle
    ensures Do(u, t, Clean) == Some(u.(order := Without(u.order, toClean), pcs := u.pcs[t := Idle]))
  {
  }

  /** What a listing returns: every operation that is not disposable, in order, with
      its report as it is before the titles are taken out of it. */
  function Reports(entries: map<ID, Entry>, ids: seq<ID>): seq<UnifiedReport>
    requires forall id :: id in ids ==> id in entries
  {
    if ids == [] then []
    else
      var id := ids[|ids| - 1];
      Reports(entries, ids[..|ids| - 1]) +
      if entries[id].disposable then [] else [UnifiedReport(id, entries[id].status, entries[id].report)]
  }

  lemma ReportsOfOneMore(entries: map<ID, Entry>, ids: seq<ID>, i: nat)
    requires i < |ids| && forall id :: id in ids ==> id in entries
    ensures Reports(entries, ids[..i + 1]) == Reports(entries, ids[..i]) +
            if entries[ids[i]].disposable then []
            else [UnifiedReport(ids[i], entries[ids[i]].status, entries[ids[i]].report)]
  {
    assert ids[..i + 1][..i] == ids[..i];
  }

  /** The loop of a listing after i entries. */
  ghost predicate Listed(s: State, t: Thread, i: nat, toClean: seq<ID>) {
    && i <= |s.order| && OrderOk(s) && NoRepeats(s.order)
    && t in s.pcs && s.pcs[t] == Listing(s.order[i..], toClean)
    && (forall u :: u in s.pcs && u != t ==> s.pcs[u] == Idle)
    && (forall id :: id in s.entries ==> s.entries[id].owner.None?)
    && (forall id :: id in toClean ==> id in s.entries && s.entries[id].disposable)
  }

  lemma EndListing(s: State, t: Thread, path: seq<State>, n: nat, u: State, toClean: seq<ID>)
    requires VisitPath(t, path) && |path| == n + 1 && path[n] == u
    requires After(Do, s, t, [ClearFlag, LockMap]) == Some(path[0])
    requires t in u.pcs && u.pcs[t] == Listing([], toClean) && forall v :: v in u.pcs && v != t ==> u.pcs[v] == Idle
    ensures After(Do, s, t, ListSteps(n, toClean != [])) ==
            Some(u.(order := if toClean == [] then u.order else Without(u.order, toClean), pcs := u.pcs[t := Idle]))
  {
    var steps := [ClearFlag, LockMap] + Visits(n);
    VisitsAreSteps(s, t, [ClearFlag, LockMap], path, n);
    OneMore(Do, s, t, steps, u, UnlockMap);
    UnlockStep(u, t, toClean);
    if toClean == [] {
      assert steps + [UnlockMap] == ListSteps(n, false);
    } else {
      var w := u.(pcs := u.pcs[t := Cleaning(toClean)]);
      OneMore(Do, s, t, steps + [UnlockMap], w, Clean);
      CleanStep(w, t, toClean);
      UpdateTwice(u.pcs, t, Cleaning(toClean), Idle);
      assert steps + [UnlockMap] + [Clean] == ListSteps(n, true);
    }
  }

  function Relisted(u: State, t: Thread, toClean: seq<ID>): State {
    u.(order := if toClean == [] then u.order else Without(u.order, toClean), pcs := u.pcs[t := Idle])
  }

  /** A listing that has visited everything is a sequence of steps and leaves the registry at rest. */
  lemma ListingIsSteps(s: State, t: Thread, path: seq<State>, u: State, toClean: seq<ID>)
    requires Undisturbed(s) && u.order == s.order && Listed(u, t, |s.order|, toClean)
    requires VisitPath(t, path) && |path| == |s.order| + 1 && path[|s.order|] == u
    requires path[0] == s.(dirty := false, pcs := s.pcs[t := Listing(s.order, [])])
    ensures After(Do, s, t, ListSteps(|s.order|, toClean != [])) == Some(Relisted(u, t, toClean))
    ensures Undisturbed(Relisted(u, t, toClean))
  {
    WithoutNoRepeats(u.order, toClean);
    StartListing(s, t);
    EndListing(s, t, path, |s.order|, u, toClean);
  }

  /** After i entries, the states gone through, the reports collected and the entries
      still to come, which are untouched. */
  ghost predicate Progress(s: State, t: Thread, i: nat, u: State, path: seq<State>, reports: seq<UnifiedReport>) {
    && OrderOk(s) && u.order == s.order && i <= |s.order|
    && IsPath(t, s, path, i, u) && u.shown == s.shown + reports
    && reports == Reports(s.entries, s.order[..i])
    && forall j :: i <= j < |s.order| ==> s.order[j] in u.entries && u.entries[s.order[j]] == s.entries[s.order[j]]
  }

  /** The report an entry gives in a listing, if it gives one. */
  function ReportOf(id: ID, e: Entry): Option<UnifiedReport> {
    if e.disposable then None else Some(UnifiedReport(id, e.status, e.report))
  }

  lemma OneMoreVisited(s: State, t: Thread, i: nat, u: State, path: seq<State>, reports: seq<UnifiedReport>, w: State)
    requires Progress(s, t, i, u, path, reports) && i < |s.order| && NoRepeats(s.order)
    requires Visited(u, t, w) && w.order == u.order
    requires forall id :: id in u.entries && id != s.order[i] ==> id in w.entries && w.entries[id] == u.entries[id]
    requires var report := ReportOf(s.order[i], u.entries[s.order[i]]);
             w.shown == u.shown + if report.None? then [] else [report.value]
    ensures var report := ReportOf(s.order[i], u.entries[s.order[i]]);
            Progress(s, t, i + 1, w, path + [w], reports + if report.None? then [] else [report.value])
  {
    ReportsOfOneMore(s.entries, s.order, i);
    PathGrows(t, path, w);
  }

  // ---- the code

  class Registry {
    var entries: map<ID, Entry>
    var order: seq<ID>
    var active: int
    var dirty: bool
    ghost var pcs: map<Thread, Pc>
    ghost var shown: seq<UnifiedReport>

    ghost function View(): State
      reads this
    {
      State(entries, order, active, dirty, pcs, shown)
    }

    constructor ()
      ensures View() == INIT && Undisturbed(View())
    {
      entries, order, active, dirty := map[], [], 0, false;
      pcs, shown := map[], [];
    }

    method NewOperation(ghost t: Thread, id: ID)
      requires Undisturbed(View()) && id !in entries
      modifies this
      ensures After(Do, old(View()), t, [Count, Publish(id), FlagPublished]) == Some(View())
      ensures Undisturbed(View())
    {
      NewOperationSteps(View(), t, id);
      active := active + 1;
      entries := entries[id := NewEntry()];
      order := order + [id];
      dirty := true;
      pcs := pcs[t := Idle];
    }

    method MarkTerminated(ghost t: Thread, id: ID) returns (ok: bool)
      requires Undisturbed(View())
      modifies this
      ensures Undisturbed(View())
      ensures ok <==> id in old(order) && old(entries)[id].status == Ongoing
      ensures ok ==> After(Do, old(View()), t, EndSteps(id)) == Some(View())
      ensures !ok && id in old(order) ==>
                After(Do, old(View()), t, [FindToEnd(id), CheckContext] + [End]) == Some(View())
      ensures id !in old(order) ==> View() == old(View())
    {
      if id !in order {
        return false;
      }
      var status := if entries[id].cancelled then Cancelled else Completed;
      if entries[id].status != Ongoing {
        TerminateAgain(View(), t, id);
        pcs := pcs[t := Idle];
        return false;
      }
      ghost var after := TerminatedState(View(), t, id);
      TerminateSteps(View(), t, id);
      pcs := pcs[t := Idle];
      entries := entries[id := entries[id].(status := status, unseen := true)];
      active := active - 1;
      dirty := true;
      assert View() == after;
      ok := true;
    }

    method MutateReport(ghost t: Thread, id: ID, change: Change) returns (ok: bool)
      requires Undisturbed(View())
      modifies this
      ensures Undisturbed(View())
      ensures ok <==> id in old(order)
      ensures if ok then After(Do, old(View()), t, [FindToChange(id, change), Mutate, FlagChanged]) == Some(View())
              else View() == old(View())
    {
      if id !in order {
        return false;
      }
      MutateSteps(View(), t, id, change);
      entries := entries[id := Mutated(entries[id], change)];
      dirty := true;
      pcs := pcs[t := Idle];
      ok := true;
    }

    /** Shows every operation that is not disposable, in insertion order, and
        removes the disposable ones. */
    method ListReports(ghost t: Thread) returns (reports: seq<UnifiedReport>, ghost cleans: bool)
      requires Undisturbed(View())
      modifies this
      ensures Undisturbed(View())
      ensures After(Do, old(View()), t, ListSteps(|old(order)|, cleans)) == Some(View())
      ensures shown == old(shown) + reports && reports == Reports(old(entries), old(order))
    {
      ghost var s := View();
      dirty := false;
      pcs := pcs[t := Listing(order, [])];
      var toClean;
      ghost var path;
      reports, toClean, path := VisitAll(t);
      ListingIsSteps(s, t, path, View(), toClean);
      cleans := toClean != [];
      if |toClean| > 0 {
        WithoutNoRepeats(order, toClean);
        order := Without(order, toClean);
      }
      pcs := pcs[t := Idle];
    }

    method VisitAll(ghost t: Thread)
        returns (reports: seq<UnifiedReport>, toClean: seq<ID>, ghost path: seq<State>)
      requires Listed(View(), t, 0, [])
      modifies this`entries, this`pcs, this`shown
      ensures Listed(View(), t, |order|, toClean) && IsPath(t, old(View()), path, |order|, View())
      ensures shown == old(shown) + reports && reports == Reports(old(entries), order)
    {
      reports, toClean, path := [], [], [View()];
      ghost var s := View();
      for i := 0 to |order|
        invariant Listed(View(), t, i, toClean) && Progress(s, t, i, View(), path, reports)
      {
        reports, toClean, path := VisitOne(t, s, i, reports, toClean, path);
      }
      assert order[..|order|] == order;
    }

    /** One round of the loop: the entry's report is collected, or the entry removed later. */
    method VisitOne(ghost t: Thread, ghost s: State, i: nat, reports: seq<UnifiedReport>, toClean: seq<ID>,
                    ghost path: seq<State>)
        returns (reports': seq<UnifiedReport>, toClean': seq<ID>, ghost path': seq<State>)
      requires i < |order| && Listed(View(), t, i, toClean) && Progress(s, t, i, View(), path, reports)
      modifies this`entries, this`pcs, this`shown
      ensures Listed(View(), t, i + 1, toClean') && Progress(s, t, i + 1, View(), path', reports')
    {
      ghost var u := View();
      var report := VisitNext(t, i, toClean);
      OneMoreVisited(s, t, i, u, path, reports, View());
      path' := path + [View()];
      if report.None? {
        reports', toClean' := reports, toClean + [order[i]];
        assert reports + [] == reports;
      } else {
        reports', toClean' := reports + [report.value], toClean;
        assert toClean + [] == toClean;
      }
    }

    /** One entry of a listing, under its lock. */
    method VisitNext(ghost t: Thread, i: nat, ghost toClean: seq<ID>) returns (report: Option<UnifiedReport>)
      requires i < |order| && Listed(View(), t, i, toClean)
      modifies this`entries, this`pcs, this`shown
      ensures Visited(old(View()), t, View())
      ensures Listed(View(), t, i + 1, toClean + if report.None? then [order[i]] else [])
      ensures shown == old(shown) + if report.None? then [] else [report.value]
      ensures report == ReportOf(order[i], old(entries)[order[i]])
      ensures forall id :: id in old(entries) && id != order[i] ==> id in entries && entries[id] == old(entries)[id]
    {
      var id := order[i];
      var e := entries[id];
      if e.disposable {
        pcs := pcs[t := Listing(order[i..][1..], toClean + [id])];
        report := None;
      } else {
        report := Some(UnifiedReport(id, e.status, e.report));
        entries := entries[id := Seen(e)];
        shown := shown + [report.value];
        pcs := pcs[t := Listing(order[i..][1..], toClean)];
      }
      assert order[i..][1..] == order[i + 1..];
    }
  }
}
