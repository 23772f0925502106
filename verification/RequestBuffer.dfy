/** The facade's cache manager as it is written, one call at a time, each shown to be
    a sequence of the buffer's steps. */
module RequestBuffer {
  import opened Wrappers
  import opened Keys
  import opened Records
  import opened Calls
  import opened RequestProtocol

  /** One undisturbed push. */
  lemma PushSteps(s: State, t: Thread, rid: RID, op: OpID)
    requires Quiet(s)
    ensures After(Do, s, t, [Push(rid, op)]) ==
            Some(s.(buffer := Buffer(s.buffer.rids + [rid], s.buffer.ops + [op]),
                    pushed := s.pushed + [Request(rid, op)]))
  {
    OneMore(Do, s, t, [], s, Push(rid, op));
    assert [] + [Push(rid, op)] == [Push(rid, op)];
  }

  /** One undisturbed flush of an empty buffer. */
  lemma EmptyFlushSteps(s: State, t: Thread)
    requires Quiet(s) && s.buffer.rids == []
    ensures After(Do, s, t, [Check]) == Some(s.(pcs := s.pcs[t := Idle]))
  {
    OneMore(Do, s, t, [], s, Check);
    assert [] + [Check] == [Check];
  }

  /** The state after one undisturbed flush of a buffer that is not empty. */
  function Flushed(s: State, t: Thread, vault: VaultAnswer): State
    requires Paired(s.buffer)
  {
    s.(buffer := EMPTY_BUFFER, pcs := s.pcs[t := Idle], batches := s.batches + [s.buffer],
       replies := s.replies[|s.batches| := Reply(vault, BoxOf(s.buffer, vault))])
  }

  lemma FlushSteps(s: State, t: Thread, vault: VaultAnswer)
    requires Quiet(s) && Paired(s.buffer) && s.buffer.rids != []
    ensures After(Do, s, t, [Check, Drain, Respond(vault)]) == Some(Flushed(s, t, vault))
  {
    var u := s.(pcs := s.pcs[t := Checked]);
    var w := s.(buffer := EMPTY_BUFFER, batches := s.batches + [s.buffer],
                pcs := s.pcs[t := Holding(|s.batches|, s.buffer)]);
    UpdateTwice(s.pcs, t, Checked, Holding(|s.batches|, s.buffer));
    UpdateTwice(s.pcs, t, Holding(|s.batches|, s.buffer), Idle);
    ThreeSteps(Do, s, t, Check, Drain, Respond(vault), u, w);
  }

  /** A sequence of steps keeps what every step keeps. */
  lemma {:induction false} InvAfter(s: State, t: Thread, steps: seq<Step>)
    requires Inv(s) && After(Do, s, t, steps).Some?
    ensures Inv(After(Do, s, t, steps).value)
  {
    if steps != [] {
      InvAfter(s, t, steps[..|steps| - 1]);
      InvStep(After(Do, s, t, steps[..|steps| - 1]).value, t, steps[|steps| - 1]);
    }
  }

  /** All there is to say about an undisturbed flush that finds something. */
  lemma FlushKeeps(s: State, t: Thread, vault: VaultAnswer)
    requires Inv(s) && Quiet(s) && s.buffer.rids != []
    ensures After(Do, s, t, [Check, Drain, Respond(vault)]) == Some(Flushed(s, t, vault))
    ensures Inv(Flushed(s, t, vault)) && Quiet(Flushed(s, t, vault))
    ensures BoxOf(s.buffer, vault) == BoxFor(Requests(s.buffer), vault)
    ensures s.pushed == Flatten(Flushed(s, t, vault).batches)
  {
    FlushSteps(s, t, vault);
    InvAfter(s, t, [Check, Drain, Respond(vault)]);
    BoxIsRight(s.buffer, vault);
    assert Requests(EMPTY_BUFFER) == [];
  }

  lemma EmptyFlushKeeps(s: State, t: Thread)
    requires Inv(s) && Quiet(s) && s.buffer.rids == []
    ensures var s' := s.(pcs := s.pcs[t := Idle]);
            After(Do, s, t, [Check]) == Some(s') && Inv(s') && Quiet(s') && s.pushed == Flatten(s.batches)
  {
    EmptyFlushSteps(s, t);
    InvAfter(s, t, [Check]);
    assert Requests(s.buffer) == [];
  }

  class CacheManager {
    var rids: seq<RID>
    var ops: seq<OpID>
    ghost var pcs: map<Thread, Pc>
    ghost var pushed: seq<Request>
    ghost var batches: seq<Buffer>
    ghost var replies: map<nat, Reply>

    ghost function View(): State
      reads this
    {
      State(Buffer(rids, ops), pcs, pushed, batches, replies, false)
    }

    ghost predicate Valid()
      reads this
    {
      Inv(View()) && Quiet(View())
    }

    constructor ()
      ensures Valid() && View() == INIT
    {
      rids, ops := [], [];
      pcs, pushed, batches, replies := map[], [], [], map[];
    }

    method Push(ghost t: Thread, rid: RID, op: OpID)
      requires Valid()
      modifies this
      ensures Valid() && After(Do, old(View()), t, [Step.Push(rid, op)]) == Some(View())
      ensures pushed == old(pushed) + [Request(rid, op)] && batches == old(batches)
    {
      ghost var s := View();
      PushSteps(s, t, rid, op);
      InvAfter(s, t, [Step.Push(rid, op)]);
      rids := rids + [rid];
      ops := ops + [op];
      pushed := pushed + [Request(rid, op)];
    }

    method HasRequests() returns (yes: bool)
      requires Valid()
      ensures yes <==> rids != []
      ensures yes <==> pushed != Flatten(batches)
    {
      yes := |rids| > 0;
      assert |Requests(Buffer(rids, ops))| == |rids|;
      assert |pushed| == |Flatten(batches)| + |rids|;
      if |rids| == 0 {
        assert Requests(Buffer(rids, ops)) == [];
      }
    }

    /** One payload for each drained request, in order, whatever the vault answers. */
    method Flush(ghost t: Thread, vault: VaultAnswer, now: int) returns (box: Box, ghost taken: seq<Request>)
      requires Valid()
      modifies this
      ensures Valid() && pushed == old(pushed) == Flatten(batches) && rids == []
      ensures if old(rids) == [] then
                && taken == [] && box == Box([], now) && batches == old(batches)
                && After(Do, old(View()), t, [Check]) == Some(View())
              else
                && taken == Requests(Buffer(old(rids), old(ops))) && box == BoxFor(taken, vault)
                && batches == old(batches) + [Buffer(old(rids), old(ops))]
                && After(Do, old(View()), t, [Check, Drain, Respond(vault)]) == Some(View())
    {
      var has := HasRequests();
      if has {
        box, taken := FlushAll(t, vault);
      } else {
        EmptyFlushKeeps(View(), t);
        pcs := pcs[t := Idle];
        box, taken := Box([], now), [];
      }
    }

    /** The part of a flush after the buffer was found not empty. */
    method FlushAll(ghost t: Thread, vault: VaultAnswer) returns (box: Box, ghost taken: seq<Request>)
      requires Valid() && rids != []
      modifies this
      ensures Valid() && View() == Flushed(old(View()), t, vault) && pushed == Flatten(batches)
      ensures After(Do, old(View()), t, [Check, Drain, Respond(vault)]) == Some(View())
      ensures taken == Requests(Buffer(old(rids), old(ops))) && box == BoxFor(taken, vault)
    {
      ghost var s := View();
      FlushKeeps(s, t, vault);
      var b := Buffer(rids, ops);
      taken := Requests(b);
      rids, ops := [], [];
      box := AnswerAll(b, vault);
      pcs := pcs[t := Idle];
      batches := batches + [b];
      replies := replies[|s.batches| := Reply(vault, box)];
      assert View() == Flushed(s, t, vault);
    }
  }

  method AnswerAll(b: Buffer, vault: VaultAnswer) returns (box: Box)
    requires Paired(b)
    ensures box == BoxFor(Requests(b), vault)
  {
    match vault
    case NoVault(at) => box := BuildMissingPayloads(b, at);
    case ReadFailed(at) => box := BuildMissingPayloads(b, at);
    case Found(records, at) => box := BuildPayloads(b, records, at);
  }

  method BuildMissingPayloads(b: Buffer, syncTime: int) returns (box: Box)
    requires Paired(b)
    ensures box == Box(Answers(Requests(b), map[], syncTime), syncTime)
  {
    var payloads: seq<Payload> := [];
    for i := 0 to |b.rids|
      invariant payloads == Answers(Requests(b), map[], syncTime)[..i]
    {
      payloads := payloads + [Payload(b.ops[i], MissingRecord(b.rids[i], syncTime))];
    }
    box := Box(payloads, syncTime);
  }

  method BuildPayloads(b: Buffer, records: seq<Record>, readAt: int) returns (box: Box)
    requires Paired(b)
    ensures box == Box(Answers(Requests(b), ById(records), readAt), readAt)
  {
    var recordMap: map<RID, Record> := map[];
    for i := 0 to |records|
      invariant recordMap == ById(records[..i])
    {
      assert records[..i + 1][..i] == records[..i];
      recordMap := recordMap[records[i].id := records[i]];
    }
    assert records[..|records|] == records;
    var payloads: seq<Payload> := [];
    for i := 0 to |b.rids|
      invariant payloads == Answers(Requests(b), ById(records), readAt)[..i]
    {
      var rid := b.rids[i];
      if rid !in recordMap {
        payloads := payloads + [Payload(b.ops[i], MissingRecord(rid, readAt))];
      } else {
        payloads := payloads + [Payload(b.ops[i], recordMap[rid])];
      }
    }
    box := Box(payloads, readAt);
  }
}
