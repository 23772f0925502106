/** The operation registry under any interleaving: every atomic access and every
    lock-delimited section of opcache is one step of one thread. */
module OperationRegistry {
  import opened Wrappers

  type ID = string
  type Thread = nat

  datatype Status = Ongoing | Completed | Cancelled

  datatype CardStatus = Success | Unchanged | Failure

  datatype Report = Report(progress: int, total: int, successes: int, unchanges: int, failures: int, aux: seq<string>)

  /** What an update operation does to its report. */
  datatype Change = SetTotal(total: int) | CardDone(status: CardStatus, title: string)

  /** The last two fields are history: whether some change has not been listed,
      and the failure titles that were ever appended. */
  datatype Entry = Entry(
    status: Status, cancelled: bool, disposable: bool, report: Report, owner: Option<Thread>,
    unseen: bool, appended: seq<string>)

  /** Where a thread stands inside a registry call. */
  datatype Pc =
    | Idle
    | Counted                                     // NewOperation: counter raised
    | Published(id: ID)                           // ... entry in the map
    | Finding(id: ID)                             // MarkTerminated: entry found
    | Ending(id: ID, status: Status)              // ... context checked
    | Ended(id: ID)                               // ... holds the entry, status set
    | Uncounted(id: ID)                           // ... holds the entry, counter lowered
    | Changing(id: ID, change: Change)            // MutateReport: entry found
    | Changed(id: ID)                             // ... holds the entry, report changed
    | Cleared                                     // ListReports: flag cleared
    | Listing(todo: seq<ID>, toClean: seq<ID>)    // ... holds the map for reading
    | Cleaning(toClean: seq<ID>)                  // ... about to remove

  /** What a listing returns for one operation, the failure titles included. */
  datatype UnifiedReport = UnifiedReport(id: ID, status: Status, report: Report)

  datatype State = State(
    entries: map<ID, Entry>, order: seq<ID>, active: int, dirty: bool,
    pcs: map<Thread, Pc>, shown: seq<UnifiedReport>)

  const INIT := State(map[], [], 0, false, map[], [])

  datatype Step =
    | Count | Publish(id: ID) | FlagPublished
    | FindToEnd(id: ID) | CheckContext | End | Uncount | FlagEnded
    | Cancel(id: ID)
    | FindToChange(id: ID, change: Change) | Mutate | FlagChanged
    | ClearFlag | LockMap | Visit | UnlockMap | Clean

  function At(s: State, t: Thread): Pc {
    if t in s.pcs then s.pcs[t] else Idle
  }

  /** What one step changes: the thread's position, at most one entry, and the rest. */
  datatype Effect = Effect(
    pc: Pc, entry: Option<(ID, Entry)>, order: seq<ID>, active: int, dirty: bool, shown: seq<UnifiedReport>)

  function Goto(s: State, pc: Pc): Effect {
    Effect(pc, None, s.order, s.active, s.dirty, s.shown)
  }

  function Apply(s: State, t: Thread, e: Effect): State {
    State(if e.entry.Some? then s.entries[e.entry.value.0 := e.entry.value.1] else s.entries,
          e.order, e.active, e.dirty, s.pcs[t := e.pc], e.shown)
  }

  predicate MapIsRead(s: State) {
    exists t :: t in s.pcs && s.pcs[t].Listing?
  }

  function Mutated(e: Entry, c: Change): Entry {
    var r := e.report;
    match c
    case SetTotal(n) => e.(report := r.(total := n), unseen := true)
    case CardDone(Success, _) =>
      e.(report := r.(progress := r.progress + 1, successes := r.successes + 1), unseen := true)
    case CardDone(Unchanged, _) =>
      e.(report := r.(progress := r.progress + 1, unchanges := r.unchanges + 1), unseen := true)
    case CardDone(Failure, title) =>
      e.(report := r.(progress := r.progress + 1, failures := r.failures + 1, aux := r.aux + [title]),
         unseen := true, appended := e.appended + [title])
  }

  /** A listing shows an entry: its failure titles are handed out, and a
      terminated operation has been shown for the last time. */
  function Seen(e: Entry): Entry {
    e.(disposable := e.status != Ongoing, unseen := false, report := e.report.(aux := []))
  }

  function Without(order: seq<ID>, gone: seq<ID>): (r: seq<ID>)
    ensures forall id :: id in r <==> id in order && id !in gone
  {
    if order == [] then []
    else (if order[0] in gone then [] else [order[0]]) + Without(order[1..], gone)
  }

  /** The registry's map is ordered by insertion and holds each identifier once. */
  predicate NoRepeats(ids: seq<ID>) {
    forall i, j :: 0 <= i < j < |ids| ==> ids[i] != ids[j]
  }

  // ---- NewOperation

  function DoCount(s: State, t: Thread): Option<Effect> {
    if At(s, t) != Idle then None else Some(Goto(s, Counted).(active := s.active + 1))
  }

  /** Identifiers are fresh; the map is locked for writing. */
  function DoPublish(s: State, t: Thread, id: ID): Option<Effect> {
    if At(s, t) != Counted || id in s.entries || MapIsRead(s) then None
    else
      var e := Entry(Ongoing, false, false, Report(0, 0, 0, 0, 0, []), None, true, []);
      Some(Goto(s, Published(id)).(entry := Some((id, e)), order := s.order + [id]))
  }

  function DoFlagPublished(s: State, t: Thread): Option<Effect> {
    if !At(s, t).Published? then None else Some(Goto(s, Idle).(dirty := true))
  }

  // ---- MarkTerminated and Cancel

  function DoFindToEnd(s: State, t: Thread, id: ID): Option<Effect> {
    if At(s, t) != Idle || id !in s.order || id !in s.entries then None
    else Some(Goto(s, Finding(id)))
  }

  function DoCheckContext(s: State, t: Thread): Option<Effect> {
    var pc := At(s, t);
    if !pc.Finding? || pc.id !in s.entries then None
    else Some(Goto(s, Ending(pc.id, if s.entries[pc.id].cancelled then Cancelled else Completed)))
  }

  /** An operation that has already been terminated is an error and stays as it is. */
  function DoEnd(s: State, t: Thread): Option<Effect> {
    var pc := At(s, t);
    if !pc.Ending? || pc.id !in s.entries || s.entries[pc.id].owner.Some? then None
    else
      var e := s.entries[pc.id];
      if e.status != Ongoing then Some(Goto(s, Idle))
      else
        var e' := e.(status := pc.status, owner := Some(t), unseen := true);
        Some(Goto(s, Ended(pc.id)).(entry := Some((pc.id, e'))))
  }

  function DoUncount(s: State, t: Thread): Option<Effect> {
    var pc := At(s, t);
    if !pc.Ended? then None else Some(Goto(s, Uncounted(pc.id)).(active := s.active - 1))
  }

  /** The flag is raised, then the entry's lock released. */
  function DoRelease(s: State, t: Thread, id: ID): Option<Effect> {
    if id !in s.entries then None
    else Some(Goto(s, Idle).(dirty := true, entry := Some((id, s.entries[id].(owner := None)))))
  }

  function DoCancel(s: State, t: Thread, id: ID): Option<Effect> {
    if At(s, t) != Idle || id !in s.order || id !in s.entries then None
    else Some(Goto(s, Idle).(entry := Some((id, s.entries[id].(cancelled := true)))))
  }

  // ---- MutateReport

  function DoFindToChange(s: State, t: Thread, id: ID, change: Change): Option<Effect> {
    if At(s, t) != Idle || id !in s.order then None else Some(Goto(s, Changing(id, change)))
  }

  function DoMutate(s: State, t: Thread): Option<Effect> {
    var pc := At(s, t);
    if !pc.Changing? || pc.id !in s.entries || s.entries[pc.id].owner.Some? then None
    else
      var e' := Mutated(s.entries[pc.id], pc.change).(owner := Some(t));
      Some(Goto(s, Changed(pc.id)).(entry := Some((pc.id, e'))))
  }

  // ---- ListReports

  function DoClearFlag(s: State, t: Thread): Option<Effect> {
    if At(s, t) != Idle then None else Some(Goto(s, Cleared).(dirty := false))
  }

  function DoLockMap(s: State, t: Thread): Option<Effect> {
    if At(s, t) != Cleared then None else Some(Goto(s, Listing(s.order, [])))
  }

  function DoVisit(s: State, t: Thread): Option<Effect> {
    var pc := At(s, t);
    if !pc.Listing? || pc.todo == [] || pc.todo[0] !in s.entries || s.entries[pc.todo[0]].owner.Some? then None
    else
      var id := pc.todo[0];
      var e := s.entries[id];
      if e.disposable then Some(Goto(s, Listing(pc.todo[1..], pc.toClean + [id])))
      else Some(Goto(s, Listing(pc.todo[1..], pc.toClean)).(
                  entry := Some((id, Seen(e))), shown := s.shown + [UnifiedReport(id, e.status, e.report)]))
  }

  function DoUnlockMap(s: State, t: Thread): Option<Effect> {
    var pc := At(s, t);
    if !pc.Listing? || pc.todo != [] then None
    else Some(Goto(s, if pc.toClean == [] then Idle else Cleaning(pc.toClean)))
  }

  function DoClean(s: State, t: Thread): Option<Effect> {
    var pc := At(s, t);
    if !pc.Cleaning? || MapIsRead(s) then None
    else Some(Goto(s, Idle).(order := Without(s.order, pc.toClean)))
  }

  function Act(s: State, t: Thread, step: Step): Option<Effect> {
    match step
    case Count => DoCount(s, t)
    case Publish(id) => DoPublish(s, t, id)
    case FlagPublished => DoFlagPublished(s, t)
    case FindToEnd(id) => DoFindToEnd(s, t, id)
    case CheckContext => DoCheckContext(s, t)
    case End => DoEnd(s, t)
    case Uncount => DoUncount(s, t)
    case FlagEnded => if At(s, t).Uncounted? then DoRelease(s, t, At(s, t).id) else None
    case Cancel(id) => DoCancel(s, t, id)
    case FindToChange(id, change) => DoFindToChange(s, t, id, change)
    case Mutate => DoMutate(s, t)
    case FlagChanged => if At(s, t).Changed? then DoRelease(s, t, At(s, t).id) else None
    case ClearFlag => DoClearFlag(s, t)
    case LockMap => DoLockMap(s, t)
    case Visit => DoVisit(s, t)
    case UnlockMap => DoUnlockMap(s, t)
    case Clean => DoClean(s, t)
  }

  /** The state after thread t takes the step, if it can be taken. */
  function Do(s: State, t: Thread, step: Step): Option<State> {
    var e := Act(s, t, step);
    if e.None? then None else Some(Apply(s, t, e.value))
  }

  // ---- structure

  predicate Holds(pc: Pc, id: ID) {
    (pc.Ended? || pc.Uncounted? || pc.Changed?) && pc.id == id
  }

  /** The ordered map lists published entries, and every one not yet disposable. */
  ghost predicate OrderOk(s: State) {
    && (forall id :: id in s.order ==> id in s.entries)
    && (forall id :: id in s.entries && !s.entries[id].disposable ==> id in s.order)
  }

  /** A thread inside an entry's critical section is the one that holds its lock. */
  ghost predicate LocksOk(s: State) {
    forall t, id :: t in s.pcs && Holds(s.pcs[t], id) ==> id in s.entries && s.entries[id].owner == Some(t)
  }

  ghost predicate EndingsOk(s: State) {
    forall t :: t in s.pcs && s.pcs[t].Ending? ==> s.pcs[t].status != Ongoing
  }

  /** Listings go through entries of the map and remove disposable ones only. */
  ghost predicate ListingsOk(s: State) {
    && (forall t, id :: t in s.pcs && s.pcs[t].Listing? && id in s.pcs[t].todo ==> id in s.order)
    && (forall t, id :: t in s.pcs && ToClean(s.pcs[t], id) ==> id in s.entries && s.entries[id].disposable)
  }

  predicate ToClean(pc: Pc, id: ID) {
    (pc.Listing? || pc.Cleaning?) && id in pc.toClean
  }

  ghost predicate Structure(s: State) {
    OrderOk(s) && LocksOk(s) && EndingsOk(s) && ListingsOk(s)
  }

  // ---- no change goes unannounced

  predicate WillShow(pc: Pc, id: ID) {
    pc.Cleared? || (pc.Listing? && id in pc.todo)
  }

  predicate WillFlag(pc: Pc, id: ID) {
    Holds(pc, id) || (pc.Published? && pc.id == id)
  }

  predicate Covers(pc: Pc, id: ID) {
    WillShow(pc, id) || WillFlag(pc, id)
  }

  /** The flag is up, or a running listing has still to reach the operation, or
      whoever changed it has still to raise the flag. */
  ghost predicate Announced(s: State, id: ID) {
    s.dirty || exists t :: t in s.pcs && Covers(s.pcs[t], id)
  }

  ghost predicate NoLostNotice(s: State) {
    forall id :: id in s.entries && s.entries[id].unseen && !s.entries[id].disposable ==> Announced(s, id)
  }

  // ---- each operation is shown terminated once, and last

  ghost predicate TerminalOnce(s: State) {
    && (forall i :: 0 <= i < |s.shown| ==> s.shown[i].id in s.entries)
    && (forall i :: 0 <= i < |s.shown| && s.shown[i].status != Ongoing ==>
          s.entries[s.shown[i].id].disposable && s.entries[s.shown[i].id].status == s.shown[i].status)
    && (forall i, j :: 0 <= i < j < |s.shown| && s.shown[i].id == s.shown[j].id ==> s.shown[i].status == Ongoing)
    && (forall id :: id in s.entries && s.entries[id].disposable ==>
          s.entries[id].status != Ongoing && ShownAs(s.shown, id, s.entries[id].status))
  }

  ghost predicate ShownAs(shown: seq<UnifiedReport>, id: ID, status: Status) {
    exists i :: 0 <= i < |shown| && shown[i].id == id && shown[i].status == status
  }

  // ---- nothing handed out is lost, and the numbers add up

  /** The failure titles of an operation in all the reports returned so far. */
  function HandedOut(shown: seq<UnifiedReport>, id: ID): seq<string> {
    if shown == [] then []
    else
      var last := shown[|shown| - 1];
      HandedOut(shown[..|shown| - 1], id) + if last.id == id then last.report.aux else []
  }

  /** The titles handed out, then those pending, are the ones appended; their number
      is the number of failures. */
  ghost predicate Conserved(shown: seq<UnifiedReport>, id: ID, e: Entry) {
    && HandedOut(shown, id) + e.report.aux == e.appended
    && e.report.failures == |e.appended|
    && e.report.progress == e.report.successes + e.report.unchanges + e.report.failures
  }

  ghost predicate AllConserved(s: State) {
    forall id :: id in s.entries ==> Conserved(s.shown, id, s.entries[id])
  }

  // ---- the active counter

  ghost function OngoingIds(s: State): set<ID> {
    set id | id in s.entries && s.entries[id].status == Ongoing
  }

  /** NewOperation calls that are counted but not published, and MarkTerminated
      calls that have set the status but not yet lowered the counter. */
  ghost function InBetween(s: State): set<Thread> {
    set t | t in s.pcs && (s.pcs[t].Counted? || s.pcs[t].Ended?)
  }

  ghost predicate Counter(s: State) {
    s.active == |OngoingIds(s)| + |InBetween(s)|
  }

  ghost predicate Inv(s: State) {
    Structure(s) && NoLostNotice(s) && TerminalOnce(s) && AllConserved(s) && Counter(s)
  }

  // ---- one step keeps each of them

  lemma OrderStep(s: State, t: Thread, step: Step)
    requires OrderOk(s) && ListingsOk(s) && Do(s, t, step).Some?
    ensures OrderOk(Do(s, t, step).value)
  {
    var s' := Do(s, t, step).value;
    if step.Clean? {
      assert forall id :: id in s.pcs[t].toClean ==> ToClean(s.pcs[t], id);
    }
  }

  lemma LocksStep(s: State, t: Thread, step: Step)
    requires LocksOk(s) && Do(s, t, step).Some?
    ensures LocksOk(Do(s, t, step).value)
  {
    var s' := Do(s, t, step).value;
    forall u, id | u in s'.pcs && Holds(s'.pcs[u], id)
      ensures id in s'.entries && s'.entries[id].owner == Some(u)
    {
      if u != t {
        assert Holds(s.pcs[u], id);
      } else if t in s.pcs && s.pcs[t].Ended? {
        assert Holds(s.pcs[t], id);
      }
    }
  }

  lemma EndingsStep(s: State, t: Thread, step: Step)
    requires EndingsOk(s) && Do(s, t, step).Some?
    ensures EndingsOk(Do(s, t, step).value)
  {
  }

  lemma ListedStay(s: State, t: Thread, step: Step, u: Thread, id: ID)
    requires OrderOk(s) && ListingsOk(s) && Do(s, t, step).Some?
    requires var s' := Do(s, t, step).value; u in s'.pcs && s'.pcs[u].Listing? && id in s'.pcs[u].todo
    ensures id in Do(s, t, step).value.order
  {
    if u != t || step.Visit? {
      assert id in s.pcs[u].todo;
    }
  }

  lemma CleanedStay(s: State, t: Thread, step: Step, u: Thread, id: ID)
    requires OrderOk(s) && ListingsOk(s) && Do(s, t, step).Some?
    requires var s' := Do(s, t, step).value; u in s'.pcs && ToClean(s'.pcs[u], id)
    ensures var s' := Do(s, t, step).value; id in s'.entries && s'.entries[id].disposable
  {
    if u != t || (step.Visit? && id != s.pcs[t].todo[0]) || step.UnlockMap? {
      assert ToClean(s.pcs[u], id);
    }
  }

  lemma ListingsStep(s: State, t: Thread, step: Step)
    requires OrderOk(s) && ListingsOk(s) && Do(s, t, step).Some?
    ensures ListingsOk(Do(s, t, step).value)
  {
    var s' := Do(s, t, step).value;
    forall u, id | u in s'.pcs && s'.pcs[u].Listing? && id in s'.pcs[u].todo
      ensures id in s'.order
    {
      ListedStay(s, t, step, u, id);
    }
    forall u, id | u in s'.pcs && ToClean(s'.pcs[u], id)
      ensures id in s'.entries && s'.entries[id].disposable
    {
      CleanedStay(s, t, step, u, id);
    }
  }

  /** A change still to be announced, in the state an effect leads to. */
  predicate StillOwed(s: State, e: Effect, id: ID) {
    if e.entry.Some? && e.entry.value.0 == id then e.entry.value.1.unseen && !e.entry.value.1.disposable
    else id in s.entries && s.entries[id].unseen && !s.entries[id].disposable
  }

  lemma NoticeApply(s: State, t: Thread, e: Effect)
    requires NoLostNotice(s)
    requires s.dirty && !e.dirty ==> e.pc == Cleared
    requires forall id :: StillOwed(s, e, id) && !e.dirty && Covers(At(s, t), id) ==> Covers(e.pc, id)
    requires forall id :: StillOwed(s, e, id) && !(id in s.entries && s.entries[id].unseen && !s.entries[id].disposable)
                          ==> Covers(e.pc, id)
    ensures NoLostNotice(Apply(s, t, e))
  {
    var s' := Apply(s, t, e);
    forall id | id in s'.entries && s'.entries[id].unseen && !s'.entries[id].disposable
      ensures Announced(s', id)
    {
      assert StillOwed(s, e, id);
      if !e.dirty && !Covers(e.pc, id) {
        assert !s.dirty && Announced(s, id);
        var u :| u in s.pcs && Covers(s.pcs[u], id);
        assert u in s'.pcs && s'.pcs[u] == s.pcs[u];
      } else {
        assert t in s'.pcs && s'.pcs[t] == e.pc;
      }
    }
  }

  lemma NoticeStep(s: State, t: Thread, step: Step)
    requires OrderOk(s) && NoLostNotice(s) && Do(s, t, step).Some?
    ensures NoLostNotice(Do(s, t, step).value)
  {
    NoticeApply(s, t, Act(s, t, step).value);
  }

  lemma TerminalKept(s: State, t: Thread, e: Effect)
    requires TerminalOnce(s) && e.shown == s.shown
    requires e.entry.Some? ==>
               var (id, n) := e.entry.value;
               if id in s.entries
               then n.disposable == s.entries[id].disposable && (n.disposable ==> n.status == s.entries[id].status)
               else !n.disposable
    ensures TerminalOnce(Apply(s, t, e))
  {
  }

  lemma ShownStill(shown: seq<UnifiedReport>, id: ID, status: Status, r: UnifiedReport)
    requires ShownAs(shown, id, status)
    ensures ShownAs(shown + [r], id, status)
  {
    var i :| 0 <= i < |shown| && shown[i].id == id && shown[i].status == status;
    assert (shown + [r])[i] == shown[i];
  }

  lemma TerminalShown(s: State, t: Thread, e: Effect, id: ID)
    requires TerminalOnce(s) && id in s.entries && !s.entries[id].disposable
    requires e.shown == s.shown + [UnifiedReport(id, s.entries[id].status, s.entries[id].report)]
    requires e.entry == Some((id, Seen(s.entries[id])))
    ensures TerminalOnce(Apply(s, t, e))
  {
    var s' := Apply(s, t, e);
    forall other | other in s'.entries && s'.entries[other].disposable
      ensures s'.entries[other].status != Ongoing && ShownAs(s'.shown, other, s'.entries[other].status)
    {
      if other == id {
        assert s'.shown[|s.shown|].id == id;
      } else {
        ShownStill(s.shown, other, s.entries[other].status, s'.shown[|s.shown|]);
      }
    }
  }

  lemma TerminalStep(s: State, t: Thread, step: Step)
    requires TerminalOnce(s) && Do(s, t, step).Some?
    ensures TerminalOnce(Do(s, t, step).value)
  {
    var e := Act(s, t, step).value;
    if step.Visit? && !s.entries[At(s, t).todo[0]].disposable {
      TerminalShown(s, t, e, At(s, t).todo[0]);
    } else {
      TerminalOwner(s);
      TerminalKept(s, t, e);
    }
  }

  /** A disposable operation has been terminated. */
  lemma TerminalOwner(s: State)
    requires TerminalOnce(s)
    ensures forall id :: id in s.entries && s.entries[id].disposable ==> s.entries[id].status != Ongoing
  {
  }

  lemma HandedOutMore(shown: seq<UnifiedReport>, r: UnifiedReport, id: ID)
    ensures HandedOut(shown + [r], id) == HandedOut(shown, id) + if r.id == id then r.report.aux else []
  {
    assert (shown + [r])[..|shown|] == shown;
  }

  lemma {:induction false} NothingHandedOut(shown: seq<UnifiedReport>, id: ID)
    requires forall i :: 0 <= i < |shown| ==> shown[i].id != id
    ensures HandedOut(shown, id) == []
  {
    if shown != [] {
      NothingHandedOut(shown[..|shown| - 1], id);
    }
  }

  /** A step that shows nothing and leaves its entry conserved. */
  lemma ConservedKept(s: State, t: Thread, e: Effect)
    requires AllConserved(s) && e.shown == s.shown
    requires e.entry.Some? ==> Conserved(s.shown, e.entry.value.0, e.entry.value.1)
    ensures AllConserved(Apply(s, t, e))
  {
  }

  /** A step that shows one entry and clears its titles. */
  lemma ConservedShown(s: State, t: Thread, e: Effect, id: ID)
    requires AllConserved(s) && id in s.entries
    requires e.shown == s.shown + [UnifiedReport(id, s.entries[id].status, s.entries[id].report)]
    requires e.entry == Some((id, Seen(s.entries[id])))
    ensures AllConserved(Apply(s, t, e))
  {
    var s' := Apply(s, t, e);
    forall other | other in s'.entries ensures Conserved(s'.shown, other, s'.entries[other]) {
      HandedOutMore(s.shown, s'.shown[|s.shown|], other);
    }
  }

  lemma MutatedConserved(shown: seq<UnifiedReport>, id: ID, e: Entry, c: Change, owner: Option<Thread>)
    requires Conserved(shown, id, e)
    ensures Conserved(shown, id, Mutated(e, c).(owner := owner))
  {
    if c.CardDone? && c.status == Failure {
      assert HandedOut(shown, id) + (e.report.aux + [c.title]) == HandedOut(shown, id) + e.report.aux + [c.title];
    }
  }

  lemma ConservedStep(s: State, t: Thread, step: Step)
    requires TerminalOnce(s) && AllConserved(s) && Do(s, t, step).Some?
    ensures AllConserved(Do(s, t, step).value)
  {
    var e := Act(s, t, step).value;
    if step.Visit? && !s.entries[At(s, t).todo[0]].disposable {
      ConservedShown(s, t, e, At(s, t).todo[0]);
    } else {
      if step.Publish? {
        NothingHandedOut(s.shown, step.id);
      } else if step.Mutate? {
        var pc := At(s, t);
        MutatedConserved(s.shown, pc.id, s.entries[pc.id], pc.change, Some(t));
      }
      ConservedKept(s, t, e);
    }
  }

  function InBetweenAt(pc: Pc): int {
    if pc.Counted? || pc.Ended? then 1 else 0
  }

  lemma SplitOff<T>(a: set<T>, x: T)
    ensures |a| == |a - {x}| + if x in a then 1 else 0
  {
    if x in a {
      assert a == a - {x} + {x};
    } else {
      assert a == a - {x};
    }
  }

  lemma InBetweenOthers(s: State, t: Thread, e: Effect)
    ensures InBetween(Apply(s, t, e)) - {t} == InBetween(s) - {t}
  {
    forall u | u != t ensures u in InBetween(Apply(s, t, e)) <==> u in InBetween(s) {
    }
  }

  lemma InBetweenMember(s: State, t: Thread)
    ensures t in InBetween(s) <==> InBetweenAt(At(s, t)) == 1
  {
  }

  lemma InBetweenApply(s: State, t: Thread, e: Effect)
    ensures |InBetween(Apply(s, t, e))| == |InBetween(s)| + InBetweenAt(e.pc) - InBetweenAt(At(s, t))
  {
    var s' := Apply(s, t, e);
    InBetweenOthers(s, t, e);
    InBetweenMember(s', t);
    InBetweenMember(s, t);
    assert At(s', t) == e.pc;
    SplitOff(InBetween(s'), t);
    SplitOff(InBetween(s), t);
  }

  function OngoingAt(entries: map<ID, Entry>, id: ID): int {
    if id in entries && entries[id].status == Ongoing then 1 else 0
  }

  lemma OngoingApply(s: State, t: Thread, e: Effect)
    ensures var s' := Apply(s, t, e);
            |OngoingIds(s')| == |OngoingIds(s)| +
            if e.entry.None? then 0
            else OngoingAt(s'.entries, e.entry.value.0) - OngoingAt(s.entries, e.entry.value.0)
  {
    var s' := Apply(s, t, e);
    if e.entry.None? {
      assert OngoingIds(s') == OngoingIds(s);
    } else {
      var id := e.entry.value.0;
      assert OngoingIds(s') - {id} == OngoingIds(s) - {id};
      SplitOff(OngoingIds(s'), id);
      SplitOff(OngoingIds(s), id);
    }
  }

  lemma CounterStep(s: State, t: Thread, step: Step)
    requires EndingsOk(s) && Counter(s) && Do(s, t, step).Some?
    ensures Counter(Do(s, t, step).value)
  {
    var e := Act(s, t, step).value;
    InBetweenApply(s, t, e);
    OngoingApply(s, t, e);
    CounterBalance(s, t, step);
  }

  /** How a step moves the counter, the ongoing entries and the calls in between. */
  lemma CounterBalance(s: State, t: Thread, step: Step)
    requires EndingsOk(s) && Do(s, t, step).Some?
    ensures var e := Act(s, t, step).value;
            e.active - s.active == InBetweenAt(e.pc) - InBetweenAt(At(s, t)) +
            if e.entry.None? then 0
            else OngoingAt(Apply(s, t, e).entries, e.entry.value.0) - OngoingAt(s.entries, e.entry.value.0)
  {
  }

  // ---- every run

  datatype Move = Move(thread: Thread, step: Step)

  /** The state a run ends in; moves that cannot be taken make it no run at all. */
  function Run(moves: seq<Move>): Option<State> {
    if moves == [] then Some(INIT)
    else
      var last := moves[|moves| - 1];
      match Run(moves[..|moves| - 1])
      case None => None
      case Some(s) => Do(s, last.thread, last.step)
  }

  lemma {:induction false} EveryRun(moves: seq<Move>)
    requires Run(moves).Some?
    ensures Inv(Run(moves).value)
  {
    if moves == [] {
      assert OngoingIds(INIT) == {} && InBetween(INIT) == {};
    } else {
      EveryRun(moves[..|moves| - 1]);
      var s, last := Run(moves[..|moves| - 1]).value, moves[|moves| - 1];
      OrderStep(s, last.thread, last.step);
      LocksStep(s, last.thread, last.step);
      EndingsStep(s, last.thread, last.step);
      ListingsStep(s, last.thread, last.step);
      NoticeStep(s, last.thread, last.step);
      TerminalStep(s, last.thread, last.step);
      ConservedStep(s, last.thread, last.step);
      CounterStep(s, last.thread, last.step);
    }
  }

  // ---- what a client can rely on

  ghost predicate Quiet(s: State) {
    forall t :: t in s.pcs ==> s.pcs[t] == Idle
  }

  /** With no call in progress, HasChanges answers false only when every operation
      that is still to be listed has been listed since its last change, and the
      active counter is the number of ongoing operations. */
  lemma QuietRegistry(moves: seq<Move>)
    requires Run(moves).Some? && Quiet(Run(moves).value)
    ensures var s := Run(moves).value;
            && (!s.dirty ==> forall id :: id in s.entries && !s.entries[id].disposable ==> !s.entries[id].unseen)
            && s.active == |OngoingIds(s)|
  {
    EveryRun(moves);
    assert InBetween(Run(moves).value) == {};
  }

  lemma ShownStep(s: State, m: Move)
    requires Do(s, m.thread, m.step).Some?
    ensures s.shown <= Do(s, m.thread, m.step).value.shown
  {
  }

  lemma {:induction false} ShownGrows(moves: seq<Move>, more: seq<Move>)
    requires Run(moves + more).Some?
    ensures Run(moves).Some?
    ensures Run(moves).value.shown <= Run(moves + more).value.shown
    decreases |more|
  {
    if more == [] {
      assert moves + more == moves;
    } else {
      assert (moves + more)[..|moves + more| - 1] == moves + more[..|more| - 1];
      ShownGrows(moves, more[..|more| - 1]);
      ShownStep(Run(moves + more[..|more| - 1]).value, more[|more| - 1]);
    }
  }

  /** Under any interleaving the failure titles in the reports returned so far, then
      those still pending, are exactly the titles appended, one for each failure. */
  lemma TitlesConserved(moves: seq<Move>, id: ID)
    requires Run(moves).Some? && id in Run(moves).value.entries
    ensures var s, e := Run(moves).value, Run(moves).value.entries[id];
            && HandedOut(s.shown, id) + e.report.aux == e.appended && e.report.failures == |e.appended|
            && e.report.progress == e.report.successes + e.report.unchanges + e.report.failures
  {
    EveryRun(moves);
  }

  /** What has been listed stays listed: entries never disappear and a listed
      terminated operation is never listed again, in any continuation of a run. */
  lemma ShownForever(moves: seq<Move>, more: seq<Move>, i: nat)
    requires Run(moves).Some? && Run(moves + more).Some? && i < |Run(moves).value.shown|
    requires Run(moves).value.shown[i].status != Ongoing
    ensures Run(moves).value.shown <= Run(moves + more).value.shown
    ensures forall j :: i < j < |Run(moves + more).value.shown| ==>
              Run(moves + more).value.shown[j].id != Run(moves).value.shown[i].id
  {
    EveryRun(moves + more);
    ShownGrows(moves, more);
    assert Run(moves + more).value.shown[i] == Run(moves).value.shown[i];
  }
}
