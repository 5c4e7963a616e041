/**
 * The sharded front end does get things done: with room in its queue a command
 * is accepted, a queued command is applied, wait_idle returns when all is idle,
 * and a stopped worker drains its queue and exits.
 */
module Progress {
  import opened Commands
  import opened Sharded
  import RingBuffers
  import Bits

  // ---- Runs in parts -------------------------------------------------------------------

  lemma {:induction false} RunInParts(s: System, a: seq<Event>, b: seq<Event>)
    requires CanRun(s, a) && CanRun(Run(s, a), b)
    ensures CanRun(s, a + b) && Run(s, a + b) == Run(Run(s, a), b)
    decreases |a|
  {
    hide Enabled, Next;
    if a == [] {
      assert a + b == b;
    } else {
      RunInParts(Next(s, a[0]), a[1..], b);
      assert (a + b)[0] == a[0] && (a + b)[1..] == a[1..] + b;
    }
  }

  lemma {:induction false} RunOne(s: System, e: Event)
    requires Enabled(s, e)
    ensures CanRun(s, [e]) && Run(s, [e]) == Next(s, e)
  {
    hide Enabled, Next;
    assert [e][1..] == [];
    assert CanRun(Next(s, e), []);
  }

  /** One more event at the end. */
  lemma {:induction false} RunMore(s: System, es: seq<Event>, e: Event)
    requires CanRun(s, es) && Enabled(Run(s, es), e)
    ensures CanRun(s, es + [e]) && Run(s, es + [e]) == Next(Run(s, es), e)
  {
    hide Enabled, Next, CanRun, Run;
    RunOne(Run(s, es), e);
    RunInParts(s, es, [e]);
  }

  // ---- Waiting for idle -------------------------------------------------------------------

  /** One comparison of wait_idle: on to the next shard if the counters agree, back to the first if not. */
  lemma {:induction false} CheckIdleMoves(s: System, seen: nat)
    requires Enabled(s, CheckIdle(seen))
    ensures var s', k := Next(s, CheckIdle(seen)), s.sender.next;
      && (s'.sender == Waiting(k + 1) <==> s.shards[k].submitted == seen)
      && (s.shards[k].submitted != seen ==> s'.sender == Waiting(0))
      && s' == s.(sender := s'.sender)
  {
  }

  /** The comparisons of one scan from shard k on, reading the current counters. */
  function Scan(shards: seq<Shard>, k: nat): seq<Event>
    requires k <= |shards|
    decreases |shards| - k
  {
    if k == |shards| then [] else [CheckIdle(shards[k].processed)] + Scan(shards, k + 1)
  }

  lemma {:induction false} ScanPasses(s: System, k: nat)
    requires 0 < |s.shards| && k <= |s.shards| && s.sender == Waiting(k)
    requires forall j | k <= j < |s.shards| :: s.shards[j].processed == s.shards[j].submitted
    ensures CanRun(s, Scan(s.shards, k)) && Run(s, Scan(s.shards, k)) == s.(sender := Waiting(|s.shards|))
    decreases |s.shards| - k
  {
    if k < |s.shards| {
      var e := CheckIdle(s.shards[k].processed);
      CheckIdleMoves(s, s.shards[k].processed);
      var s' := Next(s, e);
      assert s' == s.(sender := Waiting(k + 1));
      ScanPasses(s', k + 1);
      hide Enabled, Next;
      RunOne(s, e);
      RunInParts(s, [e], Scan(s.shards, k + 1));
    }
  }

  /** With every counter pair equal, wait_idle returns after one scan, having changed nothing. */
  lemma {:induction false} WaitIdleReturns(s: System)
    requires 0 < |s.shards| && s.sender == Ready
    requires forall j | 0 <= j < |s.shards| :: s.shards[j].processed == s.shards[j].submitted
    ensures CanRun(s, [StartWait] + Scan(s.shards, 0) + [EndWait])
    ensures Run(s, [StartWait] + Scan(s.shards, 0) + [EndWait]) == s
  {
    var s1 := Next(s, StartWait);
    assert s1 == s.(sender := Waiting(0));
    ScanPasses(s1, 0);
    var s2 := s.(sender := Waiting(|s.shards|));
    assert Enabled(s2, EndWait) && Next(s2, EndWait) == s;
    hide Enabled, Next, CanRun, Run, Scan;
    RunOne(s, StartWait);
    RunInParts(s, [StartWait], Scan(s.shards, 0));
    RunMore(s, [StartWait] + Scan(s.shards, 0), EndWait);
  }

  // ---- Sending -----------------------------------------------------------------------------

  /** All the accesses of one submit or cancel call, the current head being seen. */
  function SendSteps(s: System, c: Command): seq<Event>
    requires 0 < |s.shards|
  {
    var r := s.shards[Target(c) % |s.shards|].ring;
    [Begin(c), SenderRing(RingBuffers.LoadHead(|r.popped|)), SenderRing(RingBuffers.WriteSlot),
     SenderRing(RingBuffers.StoreTail), Count]
  }

  /** The state after a ring step of the sender in its shard. */
  lemma {:induction false} SenderRingIs(s: System, i: nat, a: RingBuffers.Action<Command>)
    requires i < |s.shards| && s.sender == Pushing(i) && SenderAction(a) && RingBuffers.Enabled(s.shards[i].ring, a)
    ensures Enabled(s, SenderRing(a))
    ensures var r := RingBuffers.Next(s.shards[i].ring, a);
      Next(s, SenderRing(a)) == s.(
        shards := s.shards[i := s.shards[i].(ring := r)],
        sender := if a.StoreTail? then Counting(i) else if r.producer.PushIdle? then Ready else Pushing(i),
        accepted := if a.StoreTail? then s.accepted + [s.shards[i].ring.producer.value] else s.accepted)
  {
    hide RingBuffers.Next, RingBuffers.Enabled;
  }

  /** A command for a queue with room is accepted, queued last in its shard, and counted. */
  lemma {:induction false} CommandIsAccepted(s: System, c: Command, whole: Lots)
    requires Inv(s, whole) && s.sender == Ready && !s.stopping
    requires var r := s.shards[Target(c) % |s.shards|].ring; |r.pushed| - |r.popped| < r.Capacity() - 1
    ensures CanRun(s, SendSteps(s, c))
    ensures var i, s' := Target(c) % |s.shards|, Run(s, SendSteps(s, c));
      && s'.accepted == s.accepted + [c] && s'.sender == Ready && |s'.shards| == |s.shards|
      && s'.shards[i].ring.pushed == s.shards[i].ring.pushed + [c]
      && s'.shards[i] == s.shards[i].(ring := s'.shards[i].ring, submitted := s.shards[i].submitted + 1)
      && (forall j | 0 <= j < |s.shards| && j != i :: s'.shards[j] == s.shards[j])
  {
    var i := Target(c) % |s.shards|;
    assert ShardOk(s, i, whole);
    var r := s.shards[i].ring;
    var a, b := RingBuffers.LoadOwnTail(c), RingBuffers.LoadHead(|r.popped|);
    var d, e := RingBuffers.WriteSlot, RingBuffers.StoreTail;
    PushTrace(r, c);
    var r1 := RingBuffers.Next(r, a);
    var r2 := RingBuffers.Next(r1, b);
    var r3 := RingBuffers.Next(r2, d);
    var r4 := RingBuffers.Next(r3, e);
    hide RingBuffers.Next, RingBuffers.Enabled, RingBuffers.Inv, Inv, CanRun, Run;
    assert Enabled(s, Begin(c));
    var s1 := Next(s, Begin(c));
    assert s1 == s.(shards := s.shards[i := s.shards[i].(ring := r1)], sender := Pushing(i));
    SenderRingIs(s1, i, b);
    var s2 := Next(s1, SenderRing(b));
    SenderRingIs(s2, i, d);
    var s3 := Next(s2, SenderRing(d));
    SenderRingIs(s3, i, e);
    var s4 := Next(s3, SenderRing(e));
    assert Enabled(s4, Count);
    assert Next(s4, Count).shards[i] == s.shards[i].(ring := r4, submitted := s.shards[i].submitted + 1);
    RunFive(s, Begin(c), SenderRing(b), SenderRing(d), SenderRing(e), Count);
  }

  /** A call that finds its queue full, as far as it can see, is refused and leaves no trace. */
  lemma {:induction false} CommandIsRefusedIff(s: System, seen: nat, whole: Lots)
    requires Inv(s, whole) && s.sender.Pushing? && s.sender.shard < |s.shards|
    requires RingBuffers.Enabled(s.shards[s.sender.shard].ring, RingBuffers.LoadHead(seen))
    ensures Enabled(s, SenderRing(RingBuffers.LoadHead(seen)))
    ensures var r, s' := s.shards[s.sender.shard].ring, Next(s, SenderRing(RingBuffers.LoadHead(seen)));
      && (s'.sender == Ready <==> |r.pushed| + 1 == seen + r.Capacity())
      && s'.accepted == s.accepted && s'.shards[s.sender.shard].ring.pushed == r.pushed
  {
    var i := s.sender.shard;
    assert ShardOk(s, i, whole);
    RingBuffers.PushFailsIff(s.shards[i].ring, seen);
    SenderRingIs(s, i, RingBuffers.LoadHead(seen));
    hide RingBuffers.Next, RingBuffers.Enabled, RingBuffers.Inv, Inv, Next;
  }

  /** The ring states of a push with room, one by one. */
  lemma {:induction false} PushTrace(r: RingBuffers.Ring<Command>, c: Command)
    requires RingBuffers.Inv(r) && r.producer.PushIdle? && |r.pushed| - |r.popped| < r.Capacity() - 1
    ensures RingBuffers.Enabled(r, RingBuffers.LoadOwnTail(c))
    ensures var r1 := RingBuffers.Next(r, RingBuffers.LoadOwnTail(c));
      && RingBuffers.Enabled(r1, RingBuffers.LoadHead(|r.popped|))
      && var r2 := RingBuffers.Next(r1, RingBuffers.LoadHead(|r.popped|));
      && !r2.producer.PushIdle? && RingBuffers.Enabled(r2, RingBuffers.WriteSlot)
      && var r3 := RingBuffers.Next(r2, RingBuffers.WriteSlot);
      && !r3.producer.PushIdle? && RingBuffers.Enabled(r3, RingBuffers.StoreTail) && r3.producer.value == c
      && RingBuffers.Next(r3, RingBuffers.StoreTail).pushed == r.pushed + [c]
  {
    hide Bits.BitAnd, Bits.Pow2, RingBuffers.Stored;
    var r1 := RingBuffers.Next(r, RingBuffers.LoadOwnTail(c));
    RingBuffers.StepInv(r, RingBuffers.LoadOwnTail(c));
    RingBuffers.PushFailsIff(r1, |r.popped|);
    RingBuffers.StepInv(r1, RingBuffers.LoadHead(|r.popped|));
    RingBuffers.TailInBuffer(RingBuffers.Next(r1, RingBuffers.LoadHead(|r.popped|)));
  }

  lemma {:induction false} RunFive(s: System, a: Event, b: Event, c: Event, d: Event, e: Event)
    requires Enabled(s, a) && Enabled(Next(s, a), b) && Enabled(Next(Next(s, a), b), c)
    requires Enabled(Next(Next(Next(s, a), b), c), d) && Enabled(Next(Next(Next(Next(s, a), b), c), d), e)
    ensures CanRun(s, [a, b, c, d, e])
    ensures Run(s, [a, b, c, d, e]) == Next(Next(Next(Next(Next(s, a), b), c), d), e)
  {
    hide Enabled, Next, CanRun, Run;
    assert [a] + [b] == [a, b] && [a, b] + [c] == [a, b, c] && [a, b, c] + [d] == [a, b, c, d];
    assert [a, b, c, d] + [e] == [a, b, c, d, e];
    RunOne(s, a);
    RunMore(s, [a], b);
    RunMore(s, [a, b], c);
    RunMore(s, [a, b, c], d);
    RunMore(s, [a, b, c, d], e);
  }

  // ---- Working off the queue ---------------------------------------------------------------

  /** The state after a ring step of worker i. */
  lemma {:induction false} WorkerRingIs(s: System, i: nat, a: RingBuffers.Action<Command>)
    requires i < |s.shards| && s.shards[i].worker.Popping? && WorkerAction(a)
    requires RingBuffers.Enabled(s.shards[i].ring, a)
    ensures Enabled(s, WorkerRing(i, a))
    ensures var sh := s.shards[i];
      Next(s, WorkerRing(i, a))
      == s.(shards := s.shards[i := sh.(ring := RingBuffers.Next(sh.ring, a), worker := AfterPop(sh, a))])
  {
    hide RingBuffers.Next, RingBuffers.Enabled, AfterPop;
  }

  /** A pop that finds nothing sends a draining worker to its exit, and another back to the stop flag. */
  lemma {:induction false} EmptyPopEnds(s: System, i: nat, seen: nat, whole: Lots)
    requires Inv(s, whole) && i < |s.shards| && s.shards[i].worker.Popping?
    requires RingBuffers.Enabled(s.shards[i].ring, RingBuffers.LoadTail(seen))
    ensures Enabled(s, WorkerRing(i, RingBuffers.LoadTail(seen)))
    ensures var sh := s.shards[i];
      Next(s, WorkerRing(i, RingBuffers.LoadTail(seen))).shards[i].worker == (
        if |sh.ring.popped| != seen then sh.worker
        else if sh.worker.draining then Exited else Testing)
  {
    assert ShardOk(s, i, whole);
    RingBuffers.PopFailsIff(s.shards[i].ring, seen);
    WorkerRingIs(s, i, RingBuffers.LoadTail(seen));
    hide RingBuffers.Next, RingBuffers.Enabled, RingBuffers.Inv, Inv, Next;
  }

  /** A worker that does not see its stop flag goes on to pop, from the queue as it is. */
  lemma {:induction false} TestingWorkerPops(s: System, i: nat, whole: Lots)
    requires Inv(s, whole) && i < |s.shards| && s.shards[i].worker == Testing
    ensures Enabled(s, TestStop(i, false))
    ensures Next(s, TestStop(i, false)) == s.(shards := s.shards[i := s.shards[i].(worker := Popping(false))])
    ensures s.shards[i].ring.consumer.PopIdle?
  {
    assert ShardOk(s, i, whole);
    hide RingBuffers.Inv;
  }

  /** The ring states of a pop from a queue that is not empty, one by one. */
  lemma {:induction false} PopTrace(r: RingBuffers.Ring<Command>)
    requires RingBuffers.Inv(r) && r.consumer.PopIdle? && r.Queued() != []
    ensures RingBuffers.Enabled(r, RingBuffers.LoadOwnHead)
    ensures var r1 := RingBuffers.Next(r, RingBuffers.LoadOwnHead);
      && RingBuffers.Enabled(r1, RingBuffers.LoadTail(|r.pushed|))
      && var r2 := RingBuffers.Next(r1, RingBuffers.LoadTail(|r.pushed|));
      && !r2.consumer.PopIdle? && RingBuffers.Enabled(r2, RingBuffers.ReadSlot)
      && var r3 := RingBuffers.Next(r2, RingBuffers.ReadSlot);
      && RingBuffers.Enabled(r3, RingBuffers.StoreHead) && r3.consumer.out == r.Queued()[0]
      && var r4 := RingBuffers.Next(r3, RingBuffers.StoreHead);
      && r4.consumer.PopIdle? && r4.Queued() == r.Queued()[1..] && r4.pushed == r.pushed
  {
    hide Bits.BitAnd, Bits.Pow2, RingBuffers.Stored, RingBuffers.ProducerOk;
    var r1 := RingBuffers.Next(r, RingBuffers.LoadOwnHead);
    RingBuffers.StepInv(r, RingBuffers.LoadOwnHead);
    RingBuffers.PopFailsIff(r1, |r.pushed|);
    RingBuffers.StepInv(r1, RingBuffers.LoadTail(|r.pushed|));
    var r2 := RingBuffers.Next(r1, RingBuffers.LoadTail(|r.pushed|));
    RingBuffers.TailInBuffer(r2);
    RingBuffers.StepInv(r2, RingBuffers.ReadSlot);
    var r3 := RingBuffers.Next(r2, RingBuffers.ReadSlot);
    RingBuffers.StoreHeadStep(r3);
  }

  /** All the steps of worker i handling one command, the current tail being seen. */
  function HandleSteps(s: System, i: nat): seq<Event>
    requires i < |s.shards|
  {
    [WorkerRing(i, RingBuffers.LoadOwnHead), WorkerRing(i, RingBuffers.LoadTail(|s.shards[i].ring.pushed|)),
     WorkerRing(i, RingBuffers.ReadSlot), WorkerRing(i, RingBuffers.StoreHead), Execute(i)] + [CountProcessed(i)]
  }

  /** Only shard i is different. */
  predicate OnlyShard(s: System, s': System, i: nat) {
    i < |s.shards| == |s'.shards| && s' == s.(shards := s.shards[i := s'.shards[i]])
  }

  /** The command queued longest ago is applied to the books of its shard and counted. */
  lemma {:induction false} CommandIsApplied(s: System, i: nat, whole: Lots)
    requires Inv(s, whole) && i < |s.shards| && s.shards[i].worker.Popping?
    requires s.shards[i].ring.consumer.PopIdle? && s.shards[i].ring.Queued() != []
    ensures CanRun(s, HandleSteps(s, i))
    ensures var sh, s' := s.shards[i], Run(s, HandleSteps(s, i));
      && OnlyShard(s, s', i)
      && var sh' := s'.shards[i];
      && sh'.lots == Apply(sh.lots, sh.ring.Queued()[0]) && sh'.processed == sh.processed + 1
      && sh'.worker == (if sh.worker.draining then Popping(true) else Testing)
      && sh'.ring.Queued() == sh.ring.Queued()[1..] && sh'.ring.pushed == sh.ring.pushed
      && sh'.ring.consumer.PopIdle? && sh'.stop == sh.stop && sh'.submitted == sh.submitted
  {
    assert ShardOk(s, i, whole);
    var sh := s.shards[i];
    var r := sh.ring;
    PopTrace(r);
    var b := RingBuffers.LoadTail(|r.pushed|);
    var r1 := RingBuffers.Next(r, RingBuffers.LoadOwnHead);
    var r2 := RingBuffers.Next(r1, b);
    var r3 := RingBuffers.Next(r2, RingBuffers.ReadSlot);
    var r4 := RingBuffers.Next(r3, RingBuffers.StoreHead);
    hide RingBuffers.Next, RingBuffers.Enabled, RingBuffers.Inv, Inv, CanRun, Run, Apply;
    WorkerRingIs(s, i, RingBuffers.LoadOwnHead);
    var s1 := s.(shards := s.shards[i := sh.(ring := r1)]);
    WorkerRingIs(s1, i, b);
    var s2 := s.(shards := s.shards[i := sh.(ring := r2)]);
    assert Next(s1, WorkerRing(i, b)) == s2;
    WorkerRingIs(s2, i, RingBuffers.ReadSlot);
    var s3 := s.(shards := s.shards[i := sh.(ring := r3)]);
    assert Next(s2, WorkerRing(i, RingBuffers.ReadSlot)) == s3;
    WorkerRingIs(s3, i, RingBuffers.StoreHead);
    var held := Holding(r.Queued()[0], sh.worker.draining);
    var s4 := s.(shards := s.shards[i := sh.(ring := r4, worker := held)]);
    assert Next(s3, WorkerRing(i, RingBuffers.StoreHead)) == s4;
    ExecuteAndCount(s4, i);
    var s5 := Next(s4, Execute(i));
    RunFive(s, WorkerRing(i, RingBuffers.LoadOwnHead), WorkerRing(i, b), WorkerRing(i, RingBuffers.ReadSlot),
            WorkerRing(i, RingBuffers.StoreHead), Execute(i));
    RunMore(s, [WorkerRing(i, RingBuffers.LoadOwnHead), WorkerRing(i, b), WorkerRing(i, RingBuffers.ReadSlot),
                WorkerRing(i, RingBuffers.StoreHead), Execute(i)], CountProcessed(i));
  }

  /** What a worker does with the command in its hands. */
  lemma {:induction false} ExecuteAndCount(s: System, i: nat)
    requires i < |s.shards| && s.shards[i].worker.Holding?
    ensures Enabled(s, Execute(i)) && Enabled(Next(s, Execute(i)), CountProcessed(i))
    ensures var sh := s.shards[i];
      Next(Next(s, Execute(i)), CountProcessed(i)) == s.(shards := s.shards[i := sh.(
        lots := Apply(sh.lots, sh.worker.cmd), processed := sh.processed + 1,
        worker := if sh.worker.draining then Popping(true) else Testing)])
  {
    hide Apply;
    var s1 := Next(s, Execute(i));
    assert s1.shards[i := s1.shards[i]] == s1.shards;
  }

  /** A draining worker works off its whole queue and exits; no other shard has a part in it. */
  lemma {:induction false} DrainingWorkerExits(s: System, i: nat, whole: Lots) returns (es: seq<Event>)
    requires Inv(s, whole) && i < |s.shards|
    requires s.shards[i].worker == Popping(true) && s.shards[i].ring.consumer.PopIdle?
    ensures CanRun(s, es) && OnlyShard(s, Run(s, es), i)
    ensures Run(s, es).shards[i].worker == Exited && Run(s, es).shards[i].ring.pushed == s.shards[i].ring.pushed
    decreases |s.shards[i].ring.Queued()|
  {
    if s.shards[i].ring.Queued() == [] {
      es := LastPop(s, i, whole);
    } else {
      var steps := HandleSteps(s, i);
      CommandIsApplied(s, i, whole);
      var s' := Run(s, steps);
      RunInv(s, steps, whole);
      hide Inv, CanRun, Run, Apply, HandleSteps;
      var rest := DrainingWorkerExits(s', i, whole);
      es := steps + rest;
      RunInParts(s, steps, rest);
    }
  }

  /** The queue is empty: one more look, and the worker is gone. */
  lemma {:induction false} LastPop(s: System, i: nat, whole: Lots) returns (es: seq<Event>)
    requires Inv(s, whole) && i < |s.shards|
    requires s.shards[i].worker == Popping(true) && s.shards[i].ring.consumer.PopIdle?
    requires s.shards[i].ring.Queued() == []
    ensures CanRun(s, es) && OnlyShard(s, Run(s, es), i)
    ensures Run(s, es).shards[i].worker == Exited && Run(s, es).shards[i].ring.pushed == s.shards[i].ring.pushed
  {
    assert ShardOk(s, i, whole);
    var r := s.shards[i].ring;
    var a, b := RingBuffers.LoadOwnHead, RingBuffers.LoadTail(|r.pushed|);
    EmptyPopTrace(r);
    WorkerRingIs(s, i, a);
    var s1 := Next(s, WorkerRing(i, a));
    StepInv(s, WorkerRing(i, a), whole);
    EmptyPopEnds(s1, i, |r.pushed|, whole);
    WorkerRingIs(s1, i, b);
    hide RingBuffers.Enabled, RingBuffers.Inv, Inv, CanRun, Run, Next;
    RunOne(s, WorkerRing(i, a));
    RunMore(s, [WorkerRing(i, a)], WorkerRing(i, b));
    es := [WorkerRing(i, a)] + [WorkerRing(i, b)];
  }

  lemma {:induction false} EmptyPopTrace(r: RingBuffers.Ring<Command>)
    requires RingBuffers.Inv(r) && r.consumer.PopIdle? && r.Queued() == []
    ensures RingBuffers.Enabled(r, RingBuffers.LoadOwnHead) && |r.popped| == |r.pushed|
    ensures var r1 := RingBuffers.Next(r, RingBuffers.LoadOwnHead);
      && RingBuffers.Enabled(r1, RingBuffers.LoadTail(|r.pushed|)) && r1.popped == r.popped && r1.pushed == r.pushed
      && RingBuffers.Next(r1, RingBuffers.LoadTail(|r.pushed|)).pushed == r.pushed
  {
    hide Bits.BitAnd, Bits.Pow2, RingBuffers.Stored, RingBuffers.ProducerOk;
  }

  /** Once its stop flag is set, a worker that tests it can only drain and exit. */
  lemma {:induction false} StoppedWorkerExits(s: System, i: nat, whole: Lots) returns (es: seq<Event>)
    requires Inv(s, whole) && i < |s.shards| && s.shards[i].stop && s.shards[i].worker == Testing
    ensures CanRun(s, es) && OnlyShard(s, Run(s, es), i)
    ensures Run(s, es).shards[i].worker == Exited && Run(s, es).shards[i].ring.pushed == s.shards[i].ring.pushed
  {
    var e := TestStop(i, true);
    assert ShardOk(s, i, whole);
    var s1 := Next(s, e);
    StepInv(s, e, whole);
    RunOne(s, e);
    assert s1.shards[i].worker == Popping(true) && s1.shards[i].ring.consumer.PopIdle? && OnlyShard(s, s1, i);
    hide Inv, CanRun, Run, Next, Enabled;
    var rest := DrainingWorkerExits(s1, i, whole);
    RunInParts(s, [e], rest);
    es := [e] + rest;
  }

  /** Shutdown: setting the flag of a shard brings its worker, wherever the queue stands, to its exit. */
  lemma {:induction false} ShutdownEndsWorker(s: System, i: nat, whole: Lots) returns (es: seq<Event>)
    requires Inv(s, whole) && i < |s.shards| && s.sender == Ready && s.shards[i].worker == Testing
    ensures CanRun(s, [SetStop(i)] + es) && |Run(s, [SetStop(i)] + es).shards| == |s.shards|
    ensures Run(s, [SetStop(i)] + es).shards[i].worker == Exited
    ensures Run(s, [SetStop(i)] + es).shards[i].ring.pushed == s.shards[i].ring.pushed
  {
    var e := SetStop(i);
    var s1 := Next(s, e);
    StepInv(s, e, whole);
    RunOne(s, e);
    assert s1.shards[i] == s.shards[i].(stop := true);
    hide Inv, CanRun, Run, Next, Enabled;
    es := StoppedWorkerExits(s1, i, whole);
    RunInParts(s, [e], es);
  }
}
