/**
 * The multi-threaded front end (src/matching/sharded_engine.cpp): one producer
 * and N workers, interleaved at every memory access of the ring buffers, every
 * counter update and every test of a stop flag.
 */
module Sharded {
  import opened Types
  import opened Commands
  import opened RingBuffers

  /** Where a worker is in run_shard; `draining` after it has seen the stop flag. */
  datatype Worker =
    | Testing
    | Popping(draining: bool)
    | Holding(cmd: Command, draining: bool)
    | Applied(draining: bool)
    | Exited

  datatype Shard = Shard(
    ring: Ring<Command>,
    lots: Lots,
    submitted: nat,
    processed: nat,
    stop: bool,
    worker: Worker)

  /** The thread that sends commands, waits for idle and finally shuts down. */
  datatype Sender =
    | Ready
    | Pushing(shard: nat)
    | Counting(shard: nat)
    | Waiting(next: nat)

  datatype System = System(
    shards: seq<Shard>,
    sender: Sender,
    stopping: bool,
    accepted: seq<Command>)  // commands whose submit or cancel pushed successfully, in order

  datatype Event =
    | Begin(cmd: Command)
    | SenderRing(a: Action<Command>)
    | Count
    | StartWait
    | CheckIdle(seen: nat)             // the value read from `processed`
    | EndWait
    | SetStop(shard: nat)
    | TestStop(shard: nat, saw: bool)
    | WorkerRing(shard: nat, a: Action<Command>)
    | Execute(shard: nat)
    | CountProcessed(shard: nat)

  predicate SenderAction(a: Action<Command>) {
    a.LoadHead? || a.WriteSlot? || a.StoreTail?
  }

  predicate WorkerAction(a: Action<Command>) {
    a.LoadOwnHead? || a.LoadTail? || a.ReadSlot? || a.StoreHead?
  }

  predicate Enabled(s: System, e: Event) {
    var n := |s.shards|;
    n > 0 &&
    match e
    case Begin(c) =>
      s.sender.Ready? && !s.stopping && RingBuffers.Enabled(s.shards[Target(c) % n].ring, LoadOwnTail(c))
    case SenderRing(a) =>
      && s.sender.Pushing? && s.sender.shard < n && SenderAction(a)
      && RingBuffers.Enabled(s.shards[s.sender.shard].ring, a)
    case Count => s.sender.Counting? && s.sender.shard < n
    case StartWait => s.sender.Ready?
    case CheckIdle(seen) => s.sender.Waiting? && s.sender.next < n && seen <= s.shards[s.sender.next].processed
    case EndWait => s.sender.Waiting? && s.sender.next == n
    case SetStop(i) => s.sender.Ready? && i < n
    case TestStop(i, saw) => i < n && s.shards[i].worker.Testing? && (saw ==> s.shards[i].stop)
    case WorkerRing(i, a) =>
      i < n && s.shards[i].worker.Popping? && WorkerAction(a) && RingBuffers.Enabled(s.shards[i].ring, a)
    case Execute(i) => i < n && s.shards[i].worker.Holding?
    case CountProcessed(i) => i < n && s.shards[i].worker.Applied?
  }

  /** After a pop step: a failed pop goes back to the test or exits, a successful one holds a command. */
  function AfterPop(sh: Shard, a: Action<Command>): Worker
    requires sh.worker.Popping? && RingBuffers.Enabled(sh.ring, a)
  {
    var r := RingBuffers.Next(sh.ring, a);
    if a.StoreHead? then Holding(sh.ring.consumer.out, sh.worker.draining)
    else if a.LoadTail? && r.consumer.PopIdle? then
      if sh.worker.draining then Exited else Testing
    else sh.worker
  }

  /** Seeing the stop flag also shows every push made before it was set. */
  function SeeStop(r: Ring<Command>): Ring<Command> {
    if r.tails == [] then r else r.(tailSeen := |r.tails| - 1)
  }

  function Next(s: System, e: Event): System
    requires Enabled(s, e)
  {
    var n := |s.shards|;
    match e
    case Begin(c) =>
      var i := Target(c) % n;
      s.(shards := s.shards[i := s.shards[i].(ring := RingBuffers.Next(s.shards[i].ring, LoadOwnTail(c)))],
         sender := Pushing(i))
    case SenderRing(a) =>
      var i := s.sender.shard;
      var r := RingBuffers.Next(s.shards[i].ring, a);
      s.(shards := s.shards[i := s.shards[i].(ring := r)],
         sender := if a.StoreTail? then Counting(i) else if r.producer.PushIdle? then Ready else s.sender,
         accepted := if a.StoreTail? then s.accepted + [s.shards[i].ring.producer.value] else s.accepted)
    case Count =>
      var i := s.sender.shard;
      s.(shards := s.shards[i := s.shards[i].(submitted := s.shards[i].submitted + 1)], sender := Ready)
    case StartWait => s.(sender := Waiting(0))
    case CheckIdle(seen) =>
      s.(sender := Waiting(if s.shards[s.sender.next].submitted == seen then s.sender.next + 1 else 0))
    case EndWait => s.(sender := Ready)
    case SetStop(i) => s.(shards := s.shards[i := s.shards[i].(stop := true)], stopping := true)
    case TestStop(i, saw) =>
      var sh := s.shards[i];
      s.(shards := s.shards[i := sh.(worker := Popping(saw), ring := if saw then SeeStop(sh.ring) else sh.ring)])
    case WorkerRing(i, a) =>
      var sh := s.shards[i];
      s.(shards := s.shards[i := sh.(ring := RingBuffers.Next(sh.ring, a), worker := AfterPop(sh, a))])
    case Execute(i) =>
      var sh := s.shards[i];
      s.(shards := s.shards[i := sh.(lots := Apply(sh.lots, sh.worker.cmd), worker := Applied(sh.worker.draining))])
    case CountProcessed(i) =>
      var sh := s.shards[i];
      s.(shards := s.shards[i := sh.(
           processed := sh.processed + 1,
           worker := if sh.worker.draining then Popping(true) else Testing)])
  }

  // ---- Invariants -----------------------------------------------------------------

  /** The instruments of shard i, as the filter of its engine picks them. */
  function PartOf(whole: Lots, n: nat, i: nat): Lots
    requires n > 0
  {
    map id | id in whole && id % n == i :: whole[id]
  }

  /** The commands whose effect is in the books: all popped ones but the one in hand. */
  function AppliedCommands(sh: Shard): seq<Command> {
    if sh.worker.Holding? && |sh.ring.popped| > 0 then sh.ring.popped[..|sh.ring.popped| - 1] else sh.ring.popped
  }

  predicate IsDraining(w: Worker) {
    w.Exited? || ((w.Popping? || w.Holding? || w.Applied?) && w.draining)
  }

  /** The books are those of the popped commands, and the counter trails by the one in work. */
  predicate WorkerOk(sh: Shard, part: Lots) {
    && (sh.worker.Holding? ==> sh.ring.popped != [] && sh.worker.cmd == sh.ring.popped[|sh.ring.popped| - 1])
    && sh.lots == Replay(part, AppliedCommands(sh))
    && sh.processed + (if sh.worker.Holding? || sh.worker.Applied? then 1 else 0) == |sh.ring.popped|
    && (!sh.worker.Popping? ==> sh.ring.consumer.PopIdle?)
  }

  /** The queue holds the accepted commands of the shard, counted but for the one being counted. */
  predicate SenderOk(sh: Shard, n: nat, i: nat, s: System)
    requires n > 0
  {
    && sh.ring.pushed == ForShard(s.accepted, n, i)
    && sh.submitted + (if s.sender == Counting(i) then 1 else 0) == |sh.ring.pushed|
    && (s.sender != Pushing(i) ==> sh.ring.producer.PushIdle?)
    && (s.sender == Pushing(i) ==> !sh.ring.producer.PushIdle? && (
          !sh.ring.producer.PushIdle? ==> Target(sh.ring.producer.value) % n == i))
  }

  predicate StopOk(sh: Shard, stopping: bool) {
    && (sh.stop ==> stopping)
    && (IsDraining(sh.worker) ==> sh.stop && sh.ring.tailSeen == |sh.ring.pushed|)
    && (sh.worker.Exited? ==> |sh.ring.popped| == |sh.ring.pushed|)
  }

  predicate ShardOk(s: System, i: nat, whole: Lots)
    requires i < |s.shards|
  {
    && RingBuffers.Inv(s.shards[i].ring)
    && WorkerOk(s.shards[i], PartOf(whole, |s.shards|, i))
    && SenderOk(s.shards[i], |s.shards|, i, s)
    && StopOk(s.shards[i], s.stopping)
  }

  /** Every accepted command of the shard has been applied and counted. */
  predicate Idle(sh: Shard) {
    sh.processed == |sh.ring.pushed|
  }

  predicate WaitOk(s: System) {
    s.sender.Waiting? ==>
      s.sender.next <= |s.shards| && forall i | 0 <= i < s.sender.next :: Idle(s.shards[i])
  }

  predicate Inv(s: System, whole: Lots) {
    && |s.shards| > 0
    && (s.stopping ==> s.sender.Ready? || s.sender.Waiting?)
    && WaitOk(s)
    && forall i | 0 <= i < |s.shards| :: ShardOk(s, i, whole)
  }

  // ---- The worker -------------------------------------------------------------------

  /** A change inside shard i that the sender has no part in leaves the other shards alone. */
  lemma {:induction false} OtherShards(s: System, s': System, i: nat, whole: Lots)
    requires Inv(s, whole) && i < |s.shards| && |s'.shards| == |s.shards|
    requires s' == s.(shards := s.shards[i := s'.shards[i]])
    requires ShardOk(s', i, whole)
    requires Idle(s.shards[i]) ==> Idle(s'.shards[i])
    ensures Inv(s', whole)
  {
    hide WorkerOk, StopOk, RingBuffers.Inv;
    forall j | 0 <= j < |s'.shards| ensures ShardOk(s', j, whole) {
      assert ShardOk(s, j, whole);
    }
  }

  lemma {:induction false} TestStopStep(s: System, i: nat, saw: bool, whole: Lots)
    requires Inv(s, whole) && Enabled(s, TestStop(i, saw))
    ensures Inv(Next(s, TestStop(i, saw)), whole)
  {
    hide ForShard, Replay;
    assert ShardOk(s, i, whole);
    var s' := Next(s, TestStop(i, saw));
    SeeStopKeepsInv(s.shards[i].ring);
    assert ShardOk(s', i, whole);
    OtherShards(s, s', i, whole);
  }

  lemma {:induction false} SeeStopKeepsInv(r: Ring<Command>)
    requires RingBuffers.Inv(r) && r.consumer.PopIdle?
    ensures RingBuffers.Inv(SeeStop(r)) && SeeStop(r).tailSeen == |r.pushed|
  {
    hide Bits.Pow2;
    var r' := SeeStop(r);
    forall c | |r'.popped| <= c < |r'.pushed| ensures SlotHolds(r', c) {
      assert SlotHolds(r, c);
    }
  }

  /** A pop step of the worker, seen from its shard alone. */
  lemma {:induction false} PopStep(sh: Shard, a: Action<Command>, part: Lots)
    requires RingBuffers.Inv(sh.ring) && WorkerOk(sh, part) && sh.worker.Popping?
    requires WorkerAction(a) && RingBuffers.Enabled(sh.ring, a)
    ensures var sh' := sh.(ring := RingBuffers.Next(sh.ring, a), worker := AfterPop(sh, a));
      && RingBuffers.Inv(sh'.ring) && WorkerOk(sh', part)
      && sh'.ring.pushed == sh.ring.pushed && sh'.ring.producer == sh.ring.producer
      && (sh.ring.tailSeen == |sh.ring.pushed| ==> sh'.ring.tailSeen == |sh.ring.pushed|)
      && (sh'.worker.Exited? && sh.ring.tailSeen == |sh.ring.pushed| ==> |sh'.ring.popped| == |sh'.ring.pushed|)
      && (IsDraining(sh'.worker) <==> sh.worker.draining)
  {
    RingBuffers.StepInv(sh.ring, a);
    if a.LoadTail? {
      EmptyTest(sh.ring, a.seen);
    }
    hide RingBuffers.Stored, RingBuffers.ProducerOk, Bits.Pow2, Bits.BitAnd, Replay;
    var sh' := sh.(ring := RingBuffers.Next(sh.ring, a), worker := AfterPop(sh, a));
    if a.StoreHead? {
      assert AppliedCommands(sh') == sh.ring.popped;
    }
  }

  lemma {:induction false} WorkerRingStep(s: System, i: nat, a: Action<Command>, whole: Lots)
    requires Inv(s, whole) && Enabled(s, WorkerRing(i, a))
    ensures Inv(Next(s, WorkerRing(i, a)), whole)
  {
    assert ShardOk(s, i, whole);
    var s' := Next(s, WorkerRing(i, a));
    PopStep(s.shards[i], a, PartOf(whole, |s.shards|, i));
    hide ForShard, Replay, RingBuffers.Inv, RingBuffers.Next, AfterPop, WorkerOk;
    assert ShardOk(s', i, whole);
    assert s'.shards[i].processed == s.shards[i].processed;
    OtherShards(s, s', i, whole);
  }

  lemma {:induction false} ExecuteStep(s: System, i: nat, whole: Lots)
    requires Inv(s, whole) && Enabled(s, Execute(i))
    ensures Inv(Next(s, Execute(i)), whole)
  {
    hide ForShard, RingBuffers.Inv, Apply;
    assert ShardOk(s, i, whole);
    var s' := Next(s, Execute(i));
    assert ShardOk(s', i, whole);
    OtherShards(s, s', i, whole);
  }

  lemma {:induction false} CountProcessedStep(s: System, i: nat, whole: Lots)
    requires Inv(s, whole) && Enabled(s, CountProcessed(i))
    ensures Inv(Next(s, CountProcessed(i)), whole)
  {
    hide ForShard, RingBuffers.Inv, Replay;
    assert ShardOk(s, i, whole);
    var s' := Next(s, CountProcessed(i));
    PoppedAtMostPushed(s.shards[i].ring);
    assert ShardOk(s', i, whole);
    OtherShards(s, s', i, whole);
  }

  lemma {:induction false} PoppedAtMostPushed(r: Ring<Command>)
    requires RingBuffers.Inv(r)
    ensures |r.popped| <= |r.pushed| && r.popped <= r.pushed
  {
  }

  // ---- The sender -------------------------------------------------------------------

  lemma {:induction false} BeginStep(s: System, c: Command, whole: Lots)
    requires Inv(s, whole) && Enabled(s, Begin(c))
    ensures Inv(Next(s, Begin(c)), whole)
  {
    var n := |s.shards|;
    var i := Target(c) % n;
    var s' := Next(s, Begin(c));
    assert ShardOk(s, i, whole);
    RingBuffers.StepInv(s.shards[i].ring, LoadOwnTail(c));
    hide ForShard, Replay, RingBuffers.Inv;
    forall j | 0 <= j < n ensures ShardOk(s', j, whole) {
      assert ShardOk(s, j, whole);
    }
  }

  lemma {:induction false} CountStep(s: System, whole: Lots)
    requires Inv(s, whole) && Enabled(s, Count)
    ensures Inv(Next(s, Count), whole)
  {
    hide ForShard, Replay, RingBuffers.Inv;
    var s' := Next(s, Count);
    forall j | 0 <= j < |s.shards| ensures ShardOk(s', j, whole) {
      assert ShardOk(s, j, whole);
    }
  }

  lemma {:induction false} PushStep(r: Ring<Command>, a: Action<Command>)
    requires RingBuffers.Inv(r) && SenderAction(a) && RingBuffers.Enabled(r, a)
    ensures var r' := RingBuffers.Next(r, a);
      && RingBuffers.Inv(r')
      && r'.popped == r.popped && r'.consumer == r.consumer && r'.tailSeen == r.tailSeen
      && r'.pushed == (if a.StoreTail? then r.pushed + [r.producer.value] else r.pushed)
      && (a.StoreTail? ==> r'.producer.PushIdle?)
      && (!r'.producer.PushIdle? ==> !r.producer.PushIdle? && r'.producer.value == r.producer.value)
  {
    RingBuffers.StepInv(r, a);
  }

  /** A push step of the sender, seen from a shard it is not pushing to. */
  lemma {:induction false} SenderRingElsewhere(s: System, a: Action<Command>, j: nat, whole: Lots)
    requires Inv(s, whole) && Enabled(s, SenderRing(a)) && j < |s.shards| && j != s.sender.shard
    ensures ShardOk(Next(s, SenderRing(a)), j, whole)
  {
    var n, i := |s.shards|, s.sender.shard;
    hide ForShard, RingBuffers.Inv, WorkerOk, WaitOk, StopOk;
    assert ShardOk(s, i, whole) && ShardOk(s, j, whole);
    if a.StoreTail? {
      ForShardAppend(s.accepted, s.shards[i].ring.producer.value, n, j);
    }
    hide RingBuffers.Next;
  }

  /** A push step of the sender, seen from the shard it pushes to. */
  lemma {:induction false} SenderRingHere(s: System, a: Action<Command>, whole: Lots)
    requires Inv(s, whole) && Enabled(s, SenderRing(a))
    ensures ShardOk(Next(s, SenderRing(a)), s.sender.shard, whole)
  {
    var n, i := |s.shards|, s.sender.shard;
    hide ForShard, RingBuffers.Inv, RingBuffers.Next, WorkerOk, WaitOk;
    assert ShardOk(s, i, whole);
    var s' := Next(s, SenderRing(a));
    PushStep(s.shards[i].ring, a);
    if a.StoreTail? {
      ForShardAppend(s.accepted, s.shards[i].ring.producer.value, n, i);
    }
    SameWorker(s.shards[i], s'.shards[i], PartOf(whole, n, i));
  }

  lemma {:induction false} SenderRingStep(s: System, a: Action<Command>, whole: Lots)
    requires Inv(s, whole) && Enabled(s, SenderRing(a))
    ensures Inv(Next(s, SenderRing(a)), whole)
  {
    hide ShardOk;
    forall j | 0 <= j < |s.shards| ensures ShardOk(Next(s, SenderRing(a)), j, whole) {
      if j == s.sender.shard {
        SenderRingHere(s, a, whole);
      } else {
        SenderRingElsewhere(s, a, j, whole);
      }
    }
  }

  lemma {:induction false} SameWorker(sh: Shard, sh': Shard, part: Lots)
    requires WorkerOk(sh, part)
    requires sh' == sh.(ring := sh'.ring) && sh'.ring.popped == sh.ring.popped && sh'.ring.consumer == sh.ring.consumer
    ensures WorkerOk(sh', part)
  {
    hide Replay;
  }

  lemma {:induction false} WaitStep(s: System, e: Event, whole: Lots)
    requires Inv(s, whole) && Enabled(s, e) && (e.StartWait? || e.CheckIdle? || e.EndWait? || e.SetStop?)
    ensures Inv(Next(s, e), whole)
  {
    hide ForShard, Replay, RingBuffers.Inv;
    var s' := Next(s, e);
    if e.CheckIdle? {
      var i := s.sender.next;
      assert ShardOk(s, i, whole);
      PoppedAtMostPushed(s.shards[i].ring);
    }
    forall j | 0 <= j < |s.shards| ensures ShardOk(s', j, whole) {
      assert ShardOk(s, j, whole);
    }
  }

  /** Every event keeps the invariant. */
  lemma {:induction false} StepInv(s: System, e: Event, whole: Lots)
    requires Inv(s, whole) && Enabled(s, e)
    ensures Inv(Next(s, e), whole)
  {
    hide Inv, Next, Enabled;
    match e
    case Begin(c) => BeginStep(s, c, whole);
    case SenderRing(a) => SenderRingStep(s, a, whole);
    case Count => CountStep(s, whole);
    case TestStop(i, saw) => TestStopStep(s, i, saw, whole);
    case WorkerRing(i, a) => WorkerRingStep(s, i, a, whole);
    case Execute(i) => ExecuteStep(s, i, whole);
    case CountProcessed(i) => CountProcessedStep(s, i, whole);
    case _ => WaitStep(s, e, whole);
  }

  // ---- Runs -------------------------------------------------------------------------

  /** Fresh shards over the given books. */
  function Init(n: nat, whole: Lots, logCap: nat, zero: seq<Command>): System {
    System(InitShards(n, n, whole, logCap, zero), Ready, false, [])
  }

  function InitShards(n: nat, m: nat, whole: Lots, logCap: nat, zero: seq<Command>): (r: seq<Shard>)
    requires m <= n
    ensures |r| == m
    ensures forall i | 0 <= i < m ::
      r[i] == Shard(RingBuffers.Init(logCap, zero), PartOf(whole, n, i), 0, 0, false, Testing)
  {
    if m == 0 then []
    else
      InitShards(n, m - 1, whole, logCap, zero)
      + [Shard(RingBuffers.Init(logCap, zero), PartOf(whole, n, m - 1), 0, 0, false, Testing)]
  }

  /** A start: at least one shard and queues of a power-of-two capacity. */
  predicate GoodStart(n: nat, logCap: nat, zero: seq<Command>) {
    n > 0 && logCap >= 1 && |zero| == Bits.Pow2(logCap)
  }

  lemma {:induction false} InitInv(n: nat, whole: Lots, logCap: nat, zero: seq<Command>)
    requires GoodStart(n, logCap, zero)
    ensures Inv(Init(n, whole, logCap, zero), whole)
  {
    var s := Init(n, whole, logCap, zero);
    RingBuffers.InitInv(logCap, zero);
    forall i | 0 <= i < n ensures ShardOk(s, i, whole) {
      hide RingBuffers.Inv;
    }
  }

  predicate CanRun(s: System, events: seq<Event>)
    decreases |events|
  {
    events == [] || (Enabled(s, events[0]) && CanRun(Next(s, events[0]), events[1..]))
  }

  function Run(s: System, events: seq<Event>): System
    requires CanRun(s, events)
    decreases |events|
  {
    if events == [] then s else Run(Next(s, events[0]), events[1..])
  }

  lemma {:induction false} RunInv(s: System, events: seq<Event>, whole: Lots)
    requires Inv(s, whole) && CanRun(s, events)
    ensures Inv(Run(s, events), whole)
    decreases |events|
  {
    hide Inv, Enabled, Next;
    if events != [] {
      StepInv(s, events[0], whole);
      RunInv(Next(s, events[0]), events[1..], whole);
    }
  }

  // ---- Main results -------------------------------------------------------------------

  /** Nothing is queued or in the hands of the worker. */
  predicate Drained(sh: Shard) {
    |sh.ring.popped| == |sh.ring.pushed| && !sh.worker.Holding?
  }

  lemma {:induction false} DrainedShardIsSequential(s: System, i: InstrumentId, whole: Lots)
    requires Inv(s, whole) && i in whole && Drained(s.shards[i % |s.shards|])
    ensures i in s.shards[i % |s.shards|].lots && i in Replay(whole, s.accepted)
    ensures s.shards[i % |s.shards|].lots[i] == Replay(whole, s.accepted)[i]
  {
    hide Replay, ForShard;
    var n := |s.shards|;
    assert ShardOk(s, i % n, whole);
    PoppedAtMostPushed(s.shards[i % n].ring);
    assert AppliedCommands(s.shards[i % n]) == ForShard(s.accepted, n, i % n);
    ShardReplay(PartOf(whole, n, i % n), whole, s.accepted, n, i);
  }

  /**
   * For any number of shards and any interleaving, once the queue of its shard
   * is drained, the book and the trade log of an instrument are those of a
   * single engine given the accepted commands in the order they were sent.
   */
  lemma {:induction false} ShardingPreservesMeaning(
      n: nat, whole: Lots, logCap: nat, zero: seq<Command>, events: seq<Event>, i: InstrumentId)
    requires GoodStart(n, logCap, zero) && CanRun(Init(n, whole, logCap, zero), events) && i in whole
    ensures var s := Run(Init(n, whole, logCap, zero), events);
      && |s.shards| == n
      && (Drained(s.shards[i % n]) ==>
            && i in s.shards[i % n].lots && i in Replay(whole, s.accepted)
            && s.shards[i % n].lots[i] == Replay(whole, s.accepted)[i])
  {
    InitInv(n, whole, logCap, zero);
    RunInv(Init(n, whole, logCap, zero), events, whole);
    RunKeepsShards(Init(n, whole, logCap, zero), events);
    var s := Run(Init(n, whole, logCap, zero), events);
    hide Inv, Init, Replay;
    if Drained(s.shards[i % n]) {
      DrainedShardIsSequential(s, i, whole);
    }
  }

  lemma {:induction false} RunKeepsShards(s: System, events: seq<Event>)
    requires CanRun(s, events)
    ensures |Run(s, events).shards| == |s.shards|
    decreases |events|
  {
    if events != [] {
      RunKeepsShards(Next(s, events[0]), events[1..]);
    }
  }

  /**
   * wait_idle: when the scan has passed every shard, everything accepted has
   * been applied, although it reads the counters one by one and may see old
   * values of `processed`.
   */
  lemma {:induction false} WaitIdleMeansApplied(
      n: nat, whole: Lots, logCap: nat, zero: seq<Command>, events: seq<Event>)
    requires GoodStart(n, logCap, zero) && CanRun(Init(n, whole, logCap, zero), events)
    ensures var s := Run(Init(n, whole, logCap, zero), events);
      Enabled(s, EndWait) ==> forall i | 0 <= i < |s.shards| :: Drained(s.shards[i])
  {
    InitInv(n, whole, logCap, zero);
    RunInv(Init(n, whole, logCap, zero), events, whole);
    var s := Run(Init(n, whole, logCap, zero), events);
    hide Init, Replay, ForShard;
    if Enabled(s, EndWait) {
      forall i | 0 <= i < |s.shards| ensures Drained(s.shards[i]) {
        assert ShardOk(s, i, whole) && Idle(s.shards[i]);
        PoppedAtMostPushed(s.shards[i].ring);
      }
    }
  }

  /** Shutdown: a worker that has exited has applied everything sent to it. */
  lemma {:induction false} ExitMeansApplied(
      n: nat, whole: Lots, logCap: nat, zero: seq<Command>, events: seq<Event>)
    requires GoodStart(n, logCap, zero) && CanRun(Init(n, whole, logCap, zero), events)
    ensures var s := Run(Init(n, whole, logCap, zero), events);
      forall i | 0 <= i < |s.shards| && s.shards[i].worker.Exited? ::
        Drained(s.shards[i]) && s.shards[i].processed == s.shards[i].submitted
  {
    InitInv(n, whole, logCap, zero);
    RunInv(Init(n, whole, logCap, zero), events, whole);
    var s := Run(Init(n, whole, logCap, zero), events);
    hide Init, Replay, ForShard;
    forall i | 0 <= i < |s.shards| && s.shards[i].worker.Exited?
      ensures Drained(s.shards[i]) && s.shards[i].processed == s.shards[i].submitted
    {
      assert ShardOk(s, i, whole);
    }
  }

  /** Per shard, pushes are processed, in the worker's hands, or queued; no command is lost. */
  lemma {:induction false} PushesAreAccountedFor(
      n: nat, whole: Lots, logCap: nat, zero: seq<Command>, events: seq<Event>, i: nat)
    requires GoodStart(n, logCap, zero) && CanRun(Init(n, whole, logCap, zero), events)
    requires i < |Run(Init(n, whole, logCap, zero), events).shards|
    ensures var sh := Run(Init(n, whole, logCap, zero), events).shards[i];
      && |sh.ring.pushed|
         == sh.processed + (if sh.worker.Holding? || sh.worker.Applied? then 1 else 0) + |sh.ring.Queued()|
      && sh.submitted <= |sh.ring.pushed| <= sh.submitted + 1
      && sh.processed <= sh.submitted + 1
  {
    InitInv(n, whole, logCap, zero);
    RunInv(Init(n, whole, logCap, zero), events, whole);
    var s := Run(Init(n, whole, logCap, zero), events);
    hide Init, Replay, ForShard;
    assert ShardOk(s, i, whole);
    PoppedAtMostPushed(s.shards[i].ring);
  }
}
