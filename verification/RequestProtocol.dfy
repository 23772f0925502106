/** The facade's buffer of finished requests under any interleaving: workers push,
    one or more readers flush, and every section under the buffer's lock is one step. */
module RequestProtocol {
  import opened Wrappers
  import opened Keys
  import opened Records

  type OpID = string
  type Thread = nat

  datatype Request = Request(rid: RID, op: OpID)

  datatype Payload = Payload(op: OpID, record: Record)

  datatype Box = Box(items: seq<Payload>, timestamp: int)

  /** What the vault and its database answer when a flush reads the records. */
  datatype VaultAnswer = NoVault(now: int) | ReadFailed(readAt: int) | Found(records: seq<Record>, readAt: int)

  /** The two parallel slices behind the lock. */
  datatype Buffer = Buffer(rids: seq<RID>, ops: seq<OpID>)

  const EMPTY_BUFFER := Buffer([], [])

  // ---- what a request is answered with

  /** A record of which nothing is known but that it is missing. */
  function MissingRecord(rid: RID, syncTime: int): Record {
    Record(rid, ImportData(0, 0), Unsupported(""), CardInfo("", "", "", "", "", "", "", 0, 0, 0, 0, false), [],
           Creator(Unsupported(""), CreatorInfo("", "", "")), SyncData(Missing, syncTime), ExportData(0, 0), false)
  }

  function Answer(q: Request, records: map<RID, Record>, readAt: int): Payload {
    Payload(q.op, if q.rid in records then records[q.rid] else MissingRecord(q.rid, readAt))
  }

  function Answers(qs: seq<Request>, records: map<RID, Record>, readAt: int): seq<Payload> {
    seq(|qs|, i requires 0 <= i < |qs| => Answer(qs[i], records, readAt))
  }

  /** Records by identifier; a later duplicate replaces an earlier one. */
  function ById(records: seq<Record>): map<RID, Record> {
    if records == [] then map[]
    else ById(records[..|records| - 1])[records[|records| - 1].id := records[|records| - 1]]
  }

  function BoxFor(qs: seq<Request>, vault: VaultAnswer): Box {
    match vault
    case NoVault(now) => Box(Answers(qs, map[], now), now)
    case ReadFailed(at) => Box(Answers(qs, map[], at), at)
    case Found(records, at) => Box(Answers(qs, ById(records), at), at)
  }

  /** A request is answered as missing exactly when the database did not return
      its record, and otherwise with the record that bears its identifier. */
  lemma AnswerIsRight(q: Request, records: seq<Record>, readAt: int)
    ensures var a := Answer(q, ById(records), readAt);
            && a.op == q.op && a.record.id == q.rid
            && (if exists r :: r in records && r.id == q.rid then a.record in records
                else a.record == MissingRecord(q.rid, readAt))
  {
    ByIdFinds(records);
  }

  /** A box has one payload for each request, in order, each with the request's operation
      and identifier. If the database returned the record it is that one; otherwise it
      has the status missing as of the time of the box and no other content. */
  lemma BoxMeans(qs: seq<Request>, vault: VaultAnswer)
    ensures var box := BoxFor(qs, vault);
            && box.timestamp == (if vault.NoVault? then vault.now else vault.readAt) && |box.items| == |qs|
            && forall i :: 0 <= i < |qs| ==>
                 && box.items[i].op == qs[i].op && box.items[i].record.id == qs[i].rid
                 && if vault.Found? && exists r :: r in vault.records && r.id == qs[i].rid
                    then box.items[i].record in vault.records
                    else IsMissing(box.items[i].record, box.timestamp)
  {
    var box := BoxFor(qs, vault);
    forall i | 0 <= i < |qs|
      ensures box.items[i].op == qs[i].op && box.items[i].record.id == qs[i].rid
      ensures if vault.Found? && exists r :: r in vault.records && r.id == qs[i].rid
              then box.items[i].record in vault.records else IsMissing(box.items[i].record, box.timestamp)
    {
      if vault.Found? {
        AnswerIsRight(qs[i], vault.records, vault.readAt);
      }
    }
  }

  /** A record that says only which card is missing, and since when. */
  predicate IsMissing(rec: Record, syncTime: int) {
    && rec.sync.status == Missing && rec.sync.time == syncTime
    && rec.source == rec.creator.source == Unsupported("") && rec.tags == [] && !rec.favorite
    && rec.info.normalizedURL == rec.info.directURL == rec.info.platformID == rec.info.characterID == ""
    && rec.info.name == rec.info.title == rec.info.tagline == "" && !rec.info.isFork
    && rec.info.createTime == rec.info.updateTime == rec.info.bookUpdateTime == rec.info.greetingsCount == 0
    && rec.creator.info.nickname == rec.creator.info.username == rec.creator.info.platformID == ""
    && rec.imported.time == rec.imported.index == 0 && rec.exported.time == rec.exported.version == 0
  }

  lemma {:induction false} ByIdFinds(records: seq<Record>)
    ensures forall r :: r in records ==> r.id in ById(records)
    ensures forall id :: id in ById(records) ==> ById(records)[id] in records && ById(records)[id].id == id
  {
    if records != [] {
      ByIdFinds(records[..|records| - 1]);
      assert records == records[..|records| - 1] + [records[|records| - 1]];
    }
  }

  // ---- what the code computes from two slices

  function PayloadsOf(b: Buffer, records: map<RID, Record>, at: int): seq<Payload>
    requires |b.rids| <= |b.ops|
  {
    seq(|b.rids|, i requires 0 <= i < |b.rids| =>
      Payload(b.ops[i], if b.rids[i] in records then records[b.rids[i]] else MissingRecord(b.rids[i], at)))
  }

  function BoxOf(b: Buffer, vault: VaultAnswer): Box
    requires |b.rids| <= |b.ops|
  {
    match vault
    case NoVault(now) => Box(PayloadsOf(b, map[], now), now)
    case ReadFailed(at) => Box(PayloadsOf(b, map[], at), at)
    case Found(records, at) => Box(PayloadsOf(b, ById(records), at), at)
  }

  // ---- the machine

  datatype Pc =
    | Idle
    | Checked                        // Flush: found the buffer non-empty
    | Holding(batch: nat, b: Buffer) // ... has drained it into a batch, has still to answer

  datatype Reply = Reply(vault: VaultAnswer, box: Box)

  /** The last four fields are history: the requests pushed, the batches drained, the
      replies given, and whether building payloads ran past the end of a slice. */
  datatype State = State(
    buffer: Buffer, pcs: map<Thread, Pc>,
    pushed: seq<Request>, batches: seq<Buffer>, replies: map<nat, Reply>, panicked: bool)

  const INIT := State(EMPTY_BUFFER, map[], [], [], map[], false)

  datatype Step = Push(rid: RID, op: OpID) | Check | Drain | Respond(vault: VaultAnswer)

  function At(s: State, t: Thread): Pc {
    if t in s.pcs then s.pcs[t] else Idle
  }

  function DoPush(s: State, t: Thread, rid: RID, op: OpID): Option<State> {
    if At(s, t) != Idle then None
    else Some(s.(buffer := Buffer(s.buffer.rids + [rid], s.buffer.ops + [op]), pushed := s.pushed + [Request(rid, op)]))
  }

  /** An empty buffer ends a flush at once. */
  function DoCheck(s: State, t: Thread): Option<State> {
    if At(s, t) != Idle then None
    else Some(s.(pcs := s.pcs[t := if |s.buffer.rids| > 0 then Checked else Idle]))
  }

  /** Another flush may have emptied the buffer in between. */
  function DoDrain(s: State, t: Thread): Option<State> {
    if At(s, t) != Checked then None
    else Some(s.(buffer := EMPTY_BUFFER, batches := s.batches + [s.buffer],
                 pcs := s.pcs[t := Holding(|s.batches|, s.buffer)]))
  }

  function DoRespond(s: State, t: Thread, vault: VaultAnswer): Option<State> {
    var pc := At(s, t);
    if !pc.Holding? then None
    else if |pc.b.rids| > |pc.b.ops| then Some(s.(pcs := s.pcs[t := Idle], panicked := true))
    else Some(s.(pcs := s.pcs[t := Idle], replies := s.replies[pc.batch := Reply(vault, BoxOf(pc.b, vault))]))
  }

  function Do(s: State, t: Thread, step: Step): Option<State> {
    match step
    case Push(rid, op) => DoPush(s, t, rid, op)
    case Check => DoCheck(s, t)
    case Drain => DoDrain(s, t)
    case Respond(vault) => DoRespond(s, t, vault)
  }

  // ---- what every step keeps

  predicate Paired(b: Buffer) {
    |b.rids| == |b.ops|
  }

  function Requests(b: Buffer): seq<Request>
    requires Paired(b)
  {
    seq(|b.rids|, i requires 0 <= i < |b.rids| => Request(b.rids[i], b.ops[i]))
  }

  predicate AllPaired(bs: seq<Buffer>) {
    forall i :: 0 <= i < |bs| ==> Paired(bs[i])
  }

  /** The requests of several batches, one batch after the other. */
  function Flatten(bs: seq<Buffer>): seq<Request>
    requires AllPaired(bs)
  {
    if bs == [] then [] else Flatten(bs[..|bs| - 1]) + Requests(bs[|bs| - 1])
  }

  /** Every request pushed is in one batch or still waiting, paired as it was pushed. */
  ghost predicate Conserved(s: State) {
    Paired(s.buffer) && AllPaired(s.batches) && s.pushed == Flatten(s.batches) + Requests(s.buffer)
  }

  ghost predicate HeldBy(s: State, t: Thread, k: nat) {
    t in s.pcs && s.pcs[t].Holding? && s.pcs[t].batch == k
  }

  /** A batch is with exactly one thread until it is answered, and then with none. */
  ghost predicate HoldersOk(s: State) {
    && (forall t :: t in s.pcs && s.pcs[t].Holding? ==>
          s.pcs[t].batch < |s.batches| && s.pcs[t].b == s.batches[s.pcs[t].batch])
    && (forall t, u, k :: HeldBy(s, t, k) && HeldBy(s, u, k) ==> t == u)
    && (forall k :: k in s.replies ==> k < |s.batches|)
    && (forall k :: 0 <= k < |s.batches| ==> (k !in s.replies <==> exists t :: HeldBy(s, t, k)))
  }

  ghost predicate RepliesOk(s: State) {
    !s.panicked && AllPaired(s.batches) &&
    forall k :: k in s.replies && k < |s.batches| ==>
      s.replies[k].box == BoxFor(Requests(s.batches[k]), s.replies[k].vault)
  }

  ghost predicate Inv(s: State) {
    Conserved(s) && HoldersOk(s) && RepliesOk(s)
  }

  lemma RequestsOfOneMore(b: Buffer, rid: RID, op: OpID)
    requires Paired(b)
    ensures Requests(Buffer(b.rids + [rid], b.ops + [op])) == Requests(b) + [Request(rid, op)]
  {
  }

  lemma FlattenOneMore(bs: seq<Buffer>, b: Buffer)
    requires AllPaired(bs) && Paired(b)
    ensures AllPaired(bs + [b]) && Flatten(bs + [b]) == Flatten(bs) + Requests(b)
  {
    assert (bs + [b])[..|bs|] == bs;
  }

  lemma PushConserves(s: State, t: Thread, rid: RID, op: OpID)
    requires Conserved(s) && DoPush(s, t, rid, op).Some?
    ensures Conserved(DoPush(s, t, rid, op).value)
  {
    RequestsOfOneMore(s.buffer, rid, op);
    var before, waiting, q := Flatten(s.batches), Requests(s.buffer), Request(rid, op);
    assert before + (waiting + [q]) == before + waiting + [q];
  }

  lemma DrainConserves(s: State, t: Thread)
    requires Conserved(s) && DoDrain(s, t).Some?
    ensures Conserved(DoDrain(s, t).value)
  {
    FlattenOneMore(s.batches, s.buffer);
    NothingWaiting();
  }

  lemma NothingWaiting()
    ensures Requests(EMPTY_BUFFER) == []
  {
  }

  lemma ConservedStep(s: State, t: Thread, step: Step)
    requires Conserved(s) && Do(s, t, step).Some?
    ensures Conserved(Do(s, t, step).value)
  {
    match step
    case Push(rid, op) => PushConserves(s, t, rid, op);
    case Check =>
    case Drain => DrainConserves(s, t);
    case Respond(_) => RespondConserves(s, t, step.vault);
  }

  lemma RespondConserves(s: State, t: Thread, vault: VaultAnswer)
    requires Conserved(s) && DoRespond(s, t, vault).Some?
    ensures Conserved(DoRespond(s, t, vault).value)
  {
    var s' := DoRespond(s, t, vault).value;
    assert s'.buffer == s.buffer && s'.batches == s.batches && s'.pushed == s.pushed;
  }

  lemma DrainKeepsHolders(s: State, t: Thread)
    requires HoldersOk(s) && DoDrain(s, t).Some?
    ensures HoldersOk(DoDrain(s, t).value)
  {
    var s' := DoDrain(s, t).value;
    forall k | 0 <= k < |s'.batches| ensures k !in s'.replies <==> exists u :: HeldBy(s', u, k) {
      if k == |s.batches| {
        assert HeldBy(s', t, k);
      } else if u :| HeldBy(s, u, k) {
        assert HeldBy(s', u, k);
      } else {
        assert forall u :: HeldBy(s', u, k) ==> HeldBy(s, u, k);
      }
    }
    assert forall u, k :: HeldBy(s', u, k) && u != t ==> HeldBy(s, u, k);
  }

  lemma RespondKeepsHolders(s: State, t: Thread, vault: VaultAnswer)
    requires HoldersOk(s) && RepliesOk(s) && DoRespond(s, t, vault).Some?
    ensures HoldersOk(DoRespond(s, t, vault).value) && !DoRespond(s, t, vault).value.panicked
  {
    var s' := DoRespond(s, t, vault).value;
    var mine := s.pcs[t].batch;
    assert HeldBy(s, t, mine) && Paired(s.batches[mine]);
    forall k | 0 <= k < |s'.batches| ensures k !in s'.replies <==> exists u :: HeldBy(s', u, k) {
      if k == mine {
        assert forall u :: HeldBy(s', u, k) ==> HeldBy(s, u, k) && u != t;
      } else if u :| HeldBy(s, u, k) {
        assert HeldBy(s', u, k);
      } else {
        assert forall u :: HeldBy(s', u, k) ==> HeldBy(s, u, k);
      }
    }
    assert forall u, k :: HeldBy(s', u, k) ==> HeldBy(s, u, k);
  }

  lemma OthersKeepHolders(s: State, t: Thread, step: Step)
    requires HoldersOk(s) && (step.Push? || step.Check?) && Do(s, t, step).Some?
    ensures HoldersOk(Do(s, t, step).value)
  {
    var s' := Do(s, t, step).value;
    assert forall u, k :: HeldBy(s', u, k) <==> HeldBy(s, u, k);
  }

  /** Payloads built from two parallel slices are the answers to the paired requests. */
  lemma BoxIsRight(b: Buffer, vault: VaultAnswer)
    requires Paired(b)
    ensures BoxOf(b, vault) == BoxFor(Requests(b), vault)
  {
    match vault
    case NoVault(now) => assert PayloadsOf(b, map[], now) == Answers(Requests(b), map[], now);
    case ReadFailed(at) => assert PayloadsOf(b, map[], at) == Answers(Requests(b), map[], at);
    case Found(records, at) => assert PayloadsOf(b, ById(records), at) == Answers(Requests(b), ById(records), at);
  }

  lemma RepliesStep(s: State, t: Thread, step: Step)
    requires Inv(s) && Do(s, t, step).Some?
    ensures RepliesOk(Do(s, t, step).value)
  {
    if step.Respond? {
      RespondKeepsHolders(s, t, step.vault);
      BoxIsRight(s.pcs[t].b, step.vault);
    }
  }

  // ---- every run

  datatype Move = Move(thread: Thread, step: Step)

  function Run(moves: seq<Move>): Option<State> {
    if moves == [] then Some(INIT)
    else
      var last := moves[|moves| - 1];
      match Run(moves[..|moves| - 1])
      case None => None
      case Some(s) => Do(s, last.thread, last.step)
  }

  lemma {:induction false} EveryRun(moves: seq<Move>)
    requires Run(moves).Some?
    ensures Inv(Run(moves).value)
  {
    if moves != [] {
      EveryRun(moves[..|moves| - 1]);
      var s, last := Run(moves[..|moves| - 1]).value, moves[|moves| - 1];
      InvStep(s, last.thread, last.step);
    }
  }

  lemma InvStep(s: State, t: Thread, step: Step)
    requires Inv(s) && Do(s, t, step).Some?
    ensures Inv(Do(s, t, step).value)
  {
    ConservedStep(s, t, step);
    RepliesStep(s, t, step);
    match step
    case Drain => DrainKeepsHolders(s, t);
    case Respond(vault) => RespondKeepsHolders(s, t, vault);
    case _ => OthersKeepHolders(s, t, step);
  }

  /** However pushes and flushes of any threads interleave, the requests pushed are
      those of the batches drained, in order, followed by those still waiting, each
      RID with its operation. */
  lemma NothingLost(moves: seq<Move>)
    requires Run(moves).Some?
    ensures var s := Run(moves).value;
            Paired(s.buffer) && AllPaired(s.batches) && s.pushed == Flatten(s.batches) + Requests(s.buffer)
  {
    EveryRun(moves);
  }

  /** A batch that has been answered got one payload for each of its requests, in
      order, whatever the vault answered; any other is with a thread that can answer it. */
  lemma EveryBatchAnswered(moves: seq<Move>, k: nat, vault: VaultAnswer)
    requires Run(moves).Some? && k < |Run(moves).value.batches|
    ensures var s := Run(moves).value;
            && AllPaired(s.batches)
            && if k in s.replies then s.replies[k].box == BoxFor(Requests(s.batches[k]), s.replies[k].vault)
               else exists t :: HeldBy(s, t, k) && Do(s, t, Respond(vault)).Some?
                                && k in Do(s, t, Respond(vault)).value.replies
  {
    EveryRun(moves);
    var s := Run(moves).value;
    if k !in s.replies {
      var t :| HeldBy(s, t, k);
      assert Paired(s.pcs[t].b);
      assert k in Do(s, t, Respond(vault)).value.replies;
    }
  }

  ghost predicate Quiet(s: State) {
    forall t :: t in s.pcs ==> s.pcs[t] == Idle
  }

  /** With no flush in progress and nothing waiting, every request ever pushed is in
      a batch and every batch has its reply. */
  lemma QuietBuffer(moves: seq<Move>)
    requires Run(moves).Some? && Quiet(Run(moves).value) && Run(moves).value.buffer.rids == []
    ensures var s := Run(moves).value;
            && AllPaired(s.batches) && s.pushed == Flatten(s.batches)
            && forall k :: 0 <= k < |s.batches| ==>
                 k in s.replies && s.replies[k].box == BoxFor(Requests(s.batches[k]), s.replies[k].vault)
  {
    EveryRun(moves);
    var s := Run(moves).value;
    assert Requests(s.buffer) == [];
    forall k | 0 <= k < |s.batches| ensures k in s.replies {
      assert forall t :: !HeldBy(s, t, k);
    }
  }

  lemma RunOneMore(moves: seq<Move>, t: Thread, step: Step)
    requires Run(moves).Some?
    ensures Run(moves + [Move(t, step)]) == Do(Run(moves).value, t, step)
  {
    assert (moves + [Move(t, step)])[..|moves|] == moves;
  }

  /** Two flushes find the request of thread 0 in the buffer. */
  lemma BothFindIt(rid: RID, op: OpID) returns (moves: seq<Move>)
    ensures Run(moves) == Some(State(Buffer([rid], [op]), map[1 := Checked, 2 := Checked],
                                     [Request(rid, op)], [], map[], false))
  {
    RunOneMore([], 0, Push(rid, op));
    moves := [] + [Move(0, Push(rid, op))];
    assert Run(moves).value.buffer == Buffer([rid], [op]) && Run(moves).value.pushed == [Request(rid, op)];
    RunOneMore(moves, 1, Check);
    moves := moves + [Move(1, Check)];
    RunOneMore(moves, 2, Check);
    moves := moves + [Move(2, Check)];
    assert Run(moves).value.pcs == map[1 := Checked, 2 := Checked];
  }

  /** Two flushes can race for one request: the second drains nothing and answers nothing. */
  lemma RacingFlush(rid: RID, op: OpID, vault: VaultAnswer) returns (moves: seq<Move>)
    ensures Run(moves).Some?
    ensures var s := Run(moves).value;
            && s.batches == [Buffer([rid], [op]), EMPTY_BUFFER]
            && 1 in s.replies && s.replies[1].box.items == []
  {
    moves := BothFindIt(rid, op);
    RunOneMore(moves, 1, Drain);
    moves := moves + [Move(1, Drain)];
    assert Run(moves).value.batches == [Buffer([rid], [op])];
    RunOneMore(moves, 2, Drain);
    moves := moves + [Move(2, Drain)];
    RunOneMore(moves, 2, Respond(vault));
    moves := moves + [Move(2, Respond(vault))];
  }
}
