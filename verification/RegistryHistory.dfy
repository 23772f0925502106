/** What the registry's entries say about the moves of a run: the changes that took
    effect, the cancellations, and the order of publication. */
module RegistryHistory {
  import opened Wrappers
  import opened OperationRegistry

  lemma FrontRuns(moves: seq<Move>)
    requires moves != [] && Run(moves).Some?
    ensures Run(moves[..|moves| - 1]).Some?
    ensures var last := moves[|moves| - 1];
            Do(Run(moves[..|moves| - 1]).value, last.thread, last.step) == Run(moves)
  {
  }

  // ---- the changes that took effect

  /** The changes that threads have made to one operation's report, in order. */
  function Effective(moves: seq<Move>, id: ID): seq<Change> {
    if moves == [] then []
    else Effective(moves[..|moves| - 1], id) + EffectOf(Run(moves[..|moves| - 1]), moves[|moves| - 1], id)
  }

  function EffectOf(before: Option<State>, m: Move, id: ID): seq<Change> {
    if before.Some? && m.step.Mutate? && At(before.value, m.thread).Changing? && At(before.value, m.thread).id == id
    then [At(before.value, m.thread).change] else []
  }

  /** How many cards were done with a status. */
  function CardsDone(changes: seq<Change>, status: CardStatus): nat {
    if changes == [] then 0
    else
      var last := changes[|changes| - 1];
      CardsDone(changes[..|changes| - 1], status) + if last.CardDone? && last.status == status then 1 else 0
  }

  /** The titles of the cards that failed, in order. */
  function FailedTitles(changes: seq<Change>): seq<string> {
    if changes == [] then []
    else
      var last := changes[|changes| - 1];
      FailedTitles(changes[..|changes| - 1]) + if last.CardDone? && last.status == Failure then [last.title] else []
  }

  /** The total set last. */
  function LastTotal(changes: seq<Change>): int {
    if changes == [] then 0
    else
      var last := changes[|changes| - 1];
      if last.SetTotal? then last.total else LastTotal(changes[..|changes| - 1])
  }

  ghost predicate Tallies(e: Entry, changes: seq<Change>) {
    && e.report.successes == CardsDone(changes, Success)
    && e.report.unchanges == CardsDone(changes, Unchanged)
    && e.report.failures == CardsDone(changes, Failure)
    && e.report.progress == CardsDone(changes, Success) + CardsDone(changes, Unchanged) + CardsDone(changes, Failure)
    && e.report.total == LastTotal(changes)
    && e.appended == FailedTitles(changes)
  }

  lemma ChangeTallies(e: Entry, changes: seq<Change>, c: Change, owner: Option<Thread>)
    requires Tallies(e, changes)
    ensures Tallies(Mutated(e, c).(owner := owner), changes + [c])
  {
    assert (changes + [c])[..|changes|] == changes;
  }

  /** Any other step leaves the numbers and the titles of an entry alone. */
  lemma NumbersKept(s: State, t: Thread, step: Step, id: ID)
    requires Do(s, t, step).Some? && id in s.entries
    requires !(step.Mutate? && At(s, t).Changing? && At(s, t).id == id)
    ensures var s' := Do(s, t, step).value;
            && id in s'.entries && s'.entries[id].appended == s.entries[id].appended
            && s'.entries[id].report.(aux := []) == s.entries[id].report.(aux := [])
  {
  }

  /** Entries are made by publishing only, with empty reports. */
  lemma EntryMade(s: State, t: Thread, step: Step, id: ID)
    requires Do(s, t, step).Some? && id !in s.entries && id in Do(s, t, step).value.entries
    ensures step == Publish(id) && Tallies(Do(s, t, step).value.entries[id], [])
  {
  }

  /** Nothing takes effect on an operation before it is published. */
  lemma {:induction false} NoEffectBefore(moves: seq<Move>, id: ID)
    requires Run(moves).Some? && id !in Run(moves).value.entries
    ensures Effective(moves, id) == []
  {
    if moves != [] {
      FrontRuns(moves);
      NoEffectBefore(moves[..|moves| - 1], id);
    }
  }

  lemma SameTallies(e: Entry, e': Entry, changes: seq<Change>)
    requires Tallies(e, changes) && e'.appended == e.appended && e'.report.(aux := []) == e.report.(aux := [])
    ensures Tallies(e', changes)
  {
  }

  lemma ChangeTakesEffect(s: State, t: Thread, step: Step)
    requires Do(s, t, step).Some? && step.Mutate? && At(s, t).Changing?
    ensures var id := At(s, t).id;
            && id in s.entries && id in Do(s, t, step).value.entries
            && Do(s, t, step).value.entries[id] == Mutated(s.entries[id], At(s, t).change).(owner := Some(t))
  {
  }

  lemma TallyStep(s: State, m: Move, s': State, id: ID, changes: seq<Change>, changes': seq<Change>)
    requires Do(s, m.thread, m.step) == Some(s') && id in s'.entries
    requires if id in s.entries then Tallies(s.entries[id], changes) else changes == []
    requires changes' == changes + EffectOf(Some(s), m, id)
    ensures Tallies(s'.entries[id], changes')
  {
    if id !in s.entries {
      EntryMade(s, m.thread, m.step, id);
    } else if m.step.Mutate? && At(s, m.thread).Changing? && At(s, m.thread).id == id {
      ChangeTakesEffect(s, m.thread, m.step);
      ChangeTallies(s.entries[id], changes, At(s, m.thread).change, Some(m.thread));
    } else {
      NumbersKept(s, m.thread, m.step, id);
      assert changes' == changes;
      SameTallies(s.entries[id], s'.entries[id], changes);
    }
  }

  /** Under any interleaving an operation's report counts exactly the changes that
      took effect: its successes, its unchanged cards, its failures and their titles,
      and the total set last. */
  lemma {:induction false} ReportsTally(moves: seq<Move>, id: ID)
    requires Run(moves).Some? && id in Run(moves).value.entries
    ensures var e, changes := Run(moves).value.entries[id], Effective(moves, id);
            && e.report.successes == CardsDone(changes, Success)
            && e.report.unchanges == CardsDone(changes, Unchanged)
            && e.report.failures == CardsDone(changes, Failure)
            && e.report.progress ==
               CardsDone(changes, Success) + CardsDone(changes, Unchanged) + CardsDone(changes, Failure)
            && e.report.total == LastTotal(changes)
            && e.appended == FailedTitles(changes)
  {
    if moves != [] {
      FrontRuns(moves);
      var front, last := moves[..|moves| - 1], moves[|moves| - 1];
      if id in Run(front).value.entries {
        ReportsTally(front, id);
      } else {
        NoEffectBefore(front, id);
      }
      TallyStep(Run(front).value, last, Run(moves).value, id, Effective(front, id), Effective(moves, id));
    }
  }

  // ---- cancellations

  predicate CancelledIn(moves: seq<Move>, id: ID) {
    exists i :: 0 <= i < |moves| && moves[i].step == Cancel(id)
  }

  /** A call of MarkTerminated looked at the operation's context at move k. */
  ghost predicate CheckedAt(moves: seq<Move>, id: ID, k: nat) {
    && k < |moves| && moves[k].step == CheckContext && Run(moves[..k]).Some?
    && At(Run(moves[..k]).value, moves[k].thread) == Finding(id)
  }

  /** Some such look found this status to be due: Cancelled if the operation had been
      cancelled by then, Completed if not. */
  ghost predicate Due(moves: seq<Move>, id: ID, status: Status) {
    exists k: nat :: DueAt(moves, id, status, k)
  }

  ghost predicate DueAt(moves: seq<Move>, id: ID, status: Status, k: nat) {
    CheckedAt(moves, id, k) && status == if CancelledIn(moves[..k], id) then Cancelled else Completed
  }

  lemma DueStill(front: seq<Move>, m: Move, id: ID, status: Status)
    requires Due(front, id, status)
    ensures Due(front + [m], id, status)
  {
    var k: nat :| DueAt(front, id, status, k);
    assert (front + [m])[..k] == front[..k] && (front + [m])[k] == front[k];
    assert DueAt(front + [m], id, status, k);
  }

  lemma CancelledMore(front: seq<Move>, m: Move, id: ID)
    ensures CancelledIn(front + [m], id) <==> CancelledIn(front, id) || m.step == Cancel(id)
  {
    var moves := front + [m];
    if i :| 0 <= i < |front| && front[i].step == Cancel(id) {
      assert moves[i].step == Cancel(id);
    }
    assert moves[|front|] == m;
  }

  /** An operation's context is cancelled exactly when Cancel was called for it. */
  lemma {:induction false} CancelledContext(moves: seq<Move>, id: ID)
    requires Run(moves).Some?
    ensures id in Run(moves).value.entries ==> (Run(moves).value.entries[id].cancelled <==> CancelledIn(moves, id))
    ensures id !in Run(moves).value.entries ==> !CancelledIn(moves, id)
  {
    if moves != [] {
      FrontRuns(moves);
      var front, last := moves[..|moves| - 1], moves[|moves| - 1];
      CancelledContext(front, id);
      CancelledMore(front, last, id);
      assert front + [last] == moves;
      ContextStep(Run(front).value, last.thread, last.step, id);
    }
  }

  lemma ContextStep(s: State, t: Thread, step: Step, id: ID)
    requires Do(s, t, step).Some?
    ensures var s' := Do(s, t, step).value;
            && (id in s.entries ==> id in s'.entries)
            && (id in s.entries ==> (s'.entries[id].cancelled <==> s.entries[id].cancelled || step == Cancel(id)))
            && (id !in s.entries ==> step != Cancel(id))
            && (id !in s.entries && id in s'.entries ==> !s'.entries[id].cancelled)
  {
  }

  ghost predicate StatusesDue(moves: seq<Move>, s: State) {
    && (forall t :: t in s.pcs && s.pcs[t].Ending? ==> Due(moves, s.pcs[t].id, s.pcs[t].status))
    && (forall id :: id in s.entries && s.entries[id].status != Ongoing ==> Due(moves, id, s.entries[id].status))
  }

  /** How a step brings about a status: by the look at the context, or by carrying on what it found. */
  lemma StatusStep(s: State, t: Thread, step: Step)
    requires Do(s, t, step).Some?
    ensures var s' := Do(s, t, step).value;
            && (forall u :: u in s'.pcs && s'.pcs[u].Ending? ==>
                  (u in s.pcs && s.pcs[u] == s'.pcs[u])
                  || (u == t && step == CheckContext && At(s, t) == Finding(s'.pcs[u].id) && s'.pcs[u].id in s.entries
                      && s'.pcs[u].status == if s.entries[s'.pcs[u].id].cancelled then Cancelled else Completed))
            && (forall id :: id in s'.entries && s'.entries[id].status != Ongoing ==>
                  (id in s.entries && s.entries[id].status == s'.entries[id].status)
                  || At(s, t) == Ending(id, s'.entries[id].status))
  {
  }

  lemma {:induction false} EveryStatusDue(moves: seq<Move>)
    requires Run(moves).Some?
    ensures StatusesDue(moves, Run(moves).value)
  {
    if moves != [] {
      FrontRuns(moves);
      var front, last := moves[..|moves| - 1], moves[|moves| - 1];
      EveryStatusDue(front);
      assert front + [last] == moves;
      var s, s' := Run(front).value, Run(moves).value;
      StatusStep(s, last.thread, last.step);
      forall u | u in s'.pcs && s'.pcs[u].Ending? ensures Due(moves, s'.pcs[u].id, s'.pcs[u].status) {
        if u in s.pcs && s.pcs[u] == s'.pcs[u] {
          DueStill(front, last, s'.pcs[u].id, s'.pcs[u].status);
        } else {
          CancelledContext(front, s'.pcs[u].id);
          assert moves[..|front|] == front && DueAt(moves, s'.pcs[u].id, s'.pcs[u].status, |front|);
        }
      }
      forall id | id in s'.entries && s'.entries[id].status != Ongoing ensures Due(moves, id, s'.entries[id].status) {
        DueStill(front, last, id, s'.entries[id].status);
      }
    }
  }

  /** In every run a terminated operation is Cancelled exactly if it had been cancelled
      when the call that terminated it looked: so it is Completed if nobody ever
      cancelled it, and Cancelled only if somebody did. */
  lemma TerminalStatus(moves: seq<Move>, id: ID)
    requires Run(moves).Some? && id in Run(moves).value.entries && Run(moves).value.entries[id].status != Ongoing
    ensures Due(moves, id, Run(moves).value.entries[id].status)
    ensures Run(moves).value.entries[id].status == Cancelled ==> CancelledIn(moves, id)
    ensures !CancelledIn(moves, id) ==> Run(moves).value.entries[id].status == Completed
  {
    EveryStatusDue(moves);
    var status := Run(moves).value.entries[id].status;
    var k: nat :| DueAt(moves, id, status, k);
    if CancelledIn(moves[..k], id) {
      var i :| 0 <= i < k && moves[..k][i].step == Cancel(id);
      assert moves[i].step == Cancel(id);
    }
  }

  // ---- the order of publication

  /** The operations published, first to last. */
  function Published(moves: seq<Move>): seq<ID> {
    if moves == [] then []
    else
      var last := moves[|moves| - 1];
      Published(moves[..|moves| - 1]) + if last.step.Publish? then [last.step.id] else []
  }

  /** Any two of the first list stand in the same order in the second. */
  ghost predicate InOrderOf(a: seq<ID>, b: seq<ID>) {
    && (forall i :: 0 <= i < |a| ==> a[i] in b)
    && forall i, j, k, l :: 0 <= i < j < |a| && 0 <= k < |b| && 0 <= l < |b| && a[i] == b[k] && a[j] == b[l] ==> k < l
  }

  lemma HeadInOrder(ids: seq<ID>, rest: seq<ID>, b: seq<ID>)
    requires ids != [] && InOrderOf(ids, b) && InOrderOf(rest, b) && forall x :: x in rest ==> x in ids[1..]
    ensures InOrderOf([ids[0]] + rest, b)
  {
    var all := [ids[0]] + rest;
    forall j, k, l | 0 < j < |all| && 0 <= k < |b| && 0 <= l < |b| && all[0] == b[k] && all[j] == b[l] ensures k < l {
      assert all[j] == rest[j - 1] && rest[j - 1] in rest;
      var i :| 0 <= i < |ids| - 1 && ids[1..][i] == all[j];
      assert ids[0] == b[k] && ids[i + 1] == b[l];
    }
  }

  lemma TailInOrder(ids: seq<ID>, b: seq<ID>)
    requires ids != [] && InOrderOf(ids, b)
    ensures InOrderOf(ids[1..], b)
  {
    assert forall i :: 0 <= i < |ids| - 1 ==> ids[1..][i] == ids[i + 1];
  }

  lemma {:induction false} WithoutInOrder(ids: seq<ID>, gone: seq<ID>, b: seq<ID>)
    requires InOrderOf(ids, b)
    ensures InOrderOf(Without(ids, gone), b)
  {
    if ids != [] {
      TailInOrder(ids, b);
      WithoutInOrder(ids[1..], gone, b);
      if ids[0] !in gone {
        HeadInOrder(ids, Without(ids[1..], gone), b);
      }
    }
  }

  lemma AppendInOrder(a: seq<ID>, b: seq<ID>, id: ID)
    requires InOrderOf(a, b) && id !in b
    ensures InOrderOf(a + [id], b + [id])
  {
    var a', b' := a + [id], b + [id];
    assert id !in a;
    forall i | 0 <= i < |a'| ensures a'[i] in b' {
      assert b'[|b|] == id;
      if i < |a| {
        assert a[i] in b;
      }
    }
  }

  ghost predicate OrderPublished(moves: seq<Move>, s: State) {
    && NoRepeats(Published(moves)) && InOrderOf(s.order, Published(moves))
    && forall id :: id in Published(moves) <==> id in s.entries
  }

  lemma PublishedStep(s: State, t: Thread, step: Step)
    requires Do(s, t, step).Some?
    ensures var s' := Do(s, t, step).value;
            && (step.Publish? ==> step.id !in s.entries && s'.order == s.order + [step.id]
                                  && s'.entries.Keys == s.entries.Keys + {step.id})
            && (step.Clean? ==> s'.order == Without(s.order, At(s, t).toClean))
            && (!step.Publish? ==> s'.entries.Keys == s.entries.Keys && (!step.Clean? ==> s'.order == s.order))
  {
  }

  /** In every run the operations listed stand in the order of their publication,
      each once. */
  lemma {:induction false} ListedAsPublished(moves: seq<Move>)
    requires Run(moves).Some?
    ensures OrderPublished(moves, Run(moves).value)
    ensures NoRepeats(Run(moves).value.order)
  {
    if moves != [] {
      FrontRuns(moves);
      var front, last := moves[..|moves| - 1], moves[|moves| - 1];
      ListedAsPublished(front);
      PublicationStep(front, last, Run(front).value, Run(moves).value);
    }
    InOrderNoRepeats(Run(moves).value.order, Published(moves));
  }

  lemma PublicationStep(front: seq<Move>, m: Move, s: State, s': State)
    requires OrderPublished(front, s) && Do(s, m.thread, m.step) == Some(s')
    ensures var published := Published(front) + if m.step.Publish? then [m.step.id] else [];
            && NoRepeats(published) && InOrderOf(s'.order, published)
            && forall id :: id in published <==> id in s'.entries
  {
    PublishedStep(s, m.thread, m.step);
    if m.step.Publish? {
      AppendInOrder(s.order, Published(front), m.step.id);
    } else {
      assert Published(front) + [] == Published(front);
      if m.step.Clean? {
        WithoutInOrder(s.order, At(s, m.thread).toClean, Published(front));
      }
    }
  }

  lemma InOrderNoRepeats(a: seq<ID>, b: seq<ID>)
    requires InOrderOf(a, b) && NoRepeats(b)
    ensures NoRepeats(a)
  {
    forall i, j | 0 <= i < j < |a| ensures a[i] != a[j] {
      var k :| 0 <= k < |b| && b[k] == a[i];
      assert a[j] in b;
    }
  }
}
