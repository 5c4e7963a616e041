/**
 * The single-producer single-consumer ring buffer
 * (include/ordbk/utils/spsc_ring_buffer.hpp) as a machine whose steps are the
 * individual memory accesses of push and pop. Each atomic keeps all the values
 * ever stored to it; an acquire load of the other side's index may return any
 * of them that is not older than what that thread has already seen.
 */
module RingBuffers {
  import opened Bits

  /** Where the producer is inside push. */
  datatype Producer<T> =
    | PushIdle
    | PushTail(value: T, tail: nat)              // own tail loaded
    | PushRoom(value: T, tail: nat, next: nat)   // head loaded, not full
    | PushWritten(value: T, next: nat)           // slot written

  /** Where the consumer is inside pop. */
  datatype Consumer<T> =
    | PopIdle
    | PopHead(head: nat)                         // own head loaded
    | PopReady(head: nat)                        // tail loaded, not empty
    | PopRead(head: nat, out: T)                 // slot read

  datatype Ring<T> = Ring(
    logCap: nat,
    buffer: seq<T>,
    heads: seq<nat>,      // every value stored to head_, oldest first
    tails: seq<nat>,      // every value stored to tail_, oldest first
    headSeen: nat,        // the producer has seen heads[headSeen]
    tailSeen: nat,        // the consumer has seen tails[tailSeen]
    producer: Producer<T>,
    consumer: Consumer<T>,
    pushed: seq<T>,       // values of completed pushes
    popped: seq<T>)       // values of completed pops
  {
    function Capacity(): nat {
      Pow2(logCap)
    }

    function Inc(i: nat): nat {
      BitAnd(i + 1, Capacity() - 1)
    }

    /** Values pushed and not yet popped. */
    function Queued(): seq<T> {
      if |popped| <= |pushed| then pushed[|popped|..] else []
    }
  }

  datatype Action<T> =
    | LoadOwnTail(value: T)   // push begins
    | LoadHead(seen: nat)     // reads heads[seen]; push fails if that looks full
    | WriteSlot
    | StoreTail               // push succeeds
    | LoadOwnHead             // pop begins
    | LoadTail(seen: nat)     // reads tails[seen]; pop fails if that looks empty
    | ReadSlot
    | StoreHead               // pop succeeds

  predicate Enabled<T>(s: Ring<T>, a: Action<T>) {
    && s.heads != [] && s.tails != []
    && match a
       case LoadOwnTail(_) => s.producer.PushIdle?
       case LoadHead(seen) => s.producer.PushTail? && s.headSeen <= seen < |s.heads|
       case WriteSlot => s.producer.PushRoom? && s.producer.tail < |s.buffer|
       case StoreTail => s.producer.PushWritten?
       case LoadOwnHead => s.consumer.PopIdle?
       case LoadTail(seen) => s.consumer.PopHead? && s.tailSeen <= seen < |s.tails|
       case ReadSlot => s.consumer.PopReady? && s.consumer.head < |s.buffer|
       case StoreHead => s.consumer.PopRead?
  }

  function Next<T>(s: Ring<T>, a: Action<T>): Ring<T>
    requires Enabled(s, a)
  {
    match a
    case LoadOwnTail(v) => s.(producer := PushTail(v, s.tails[|s.tails| - 1]))
    case LoadHead(seen) =>
      var next := s.Inc(s.producer.tail);
      s.(headSeen := seen,
         producer := if next == s.heads[seen] then PushIdle
                     else PushRoom(s.producer.value, s.producer.tail, next))
    case WriteSlot =>
      s.(buffer := s.buffer[s.producer.tail := s.producer.value],
         producer := PushWritten(s.producer.value, s.producer.next))
    case StoreTail =>
      s.(tails := s.tails + [s.producer.next], producer := PushIdle,
         pushed := s.pushed + [s.producer.value])
    case LoadOwnHead => s.(consumer := PopHead(s.heads[|s.heads| - 1]))
    case LoadTail(seen) =>
      s.(tailSeen := seen,
         consumer := if s.consumer.head == s.tails[seen] then PopIdle else PopReady(s.consumer.head))
    case ReadSlot => s.(consumer := PopRead(s.consumer.head, s.buffer[s.consumer.head]))
    case StoreHead =>
      s.(heads := s.heads + [s.Inc(s.consumer.head)], consumer := PopIdle, popped := s.popped + [s.consumer.out])
  }

  // ---- The invariant ----------------------------------------------------------

  /** The indices count completed pushes and pops modulo the capacity. */
  predicate IndicesCount<T>(s: Ring<T>) {
    && |s.tails| == |s.pushed| + 1 && |s.heads| == |s.popped| + 1
    && (forall c | 0 <= c < |s.tails| :: s.tails[c] == c % s.Capacity())
    && (forall c | 0 <= c < |s.heads| :: s.heads[c] == c % s.Capacity())
  }

  /** What each thread has seen lags behind, but never by a whole lap. */
  predicate ViewsLag<T>(s: Ring<T>) {
    s.headSeen <= |s.popped| <= s.tailSeen <= |s.pushed| < s.headSeen + s.Capacity()
  }

  /** Slot c % Capacity holds the value of push number c until it is popped. */
  predicate Stored<T(==)>(s: Ring<T>) {
    && |s.buffer| == s.Capacity() >= 2
    && (forall c | |s.popped| <= c < |s.pushed| :: SlotHolds(s, c))
  }

  predicate SlotHolds<T(==)>(s: Ring<T>, c: nat)
    requires c < |s.pushed| && |s.buffer| == s.Capacity()
  {
    s.buffer[c % s.Capacity()] == s.pushed[c]
  }

  predicate ProducerOk<T(==)>(s: Ring<T>)
    requires |s.buffer| == s.Capacity()
  {
    var n := |s.pushed|;
    match s.producer
    case PushIdle => true
    case PushTail(_, tail) => tail == n % s.Capacity()
    case PushRoom(_, tail, next) =>
      tail == n % s.Capacity() && next == (n + 1) % s.Capacity() && n + 1 < s.headSeen + s.Capacity()
    case PushWritten(v, next) =>
      && next == (n + 1) % s.Capacity() && n + 1 < s.headSeen + s.Capacity()
      && s.buffer[n % s.Capacity()] == v
  }

  predicate ConsumerOk<T(==)>(s: Ring<T>) {
    var n := |s.popped|;
    match s.consumer
    case PopIdle => true
    case PopHead(head) => head == n % s.Capacity()
    case PopReady(head) => head == n % s.Capacity() && n < s.tailSeen
    case PopRead(head, out) => head == n % s.Capacity() && n < s.tailSeen && n < |s.pushed| && out == s.pushed[n]
  }

  predicate Inv<T(==)>(s: Ring<T>) {
    && IndicesCount(s) && ViewsLag(s) && Stored(s)
    && ProducerOk(s) && ConsumerOk(s)
    && s.popped <= s.pushed
  }

  function Init<T>(logCap: nat, zero: seq<T>): Ring<T> {
    Ring(logCap, zero, [0], [0], 0, 0, PushIdle, PopIdle, [], [])
  }

  lemma {:induction false} InitInv<T>(logCap: nat, zero: seq<T>)
    requires logCap >= 1 && |zero| == Pow2(logCap)
    ensures Inv(Init(logCap, zero))
  {
    assert Pow2(logCap) == 2 * Pow2(logCap - 1);
    ModIs(0, Pow2(logCap), 0, 0);
  }

  lemma {:induction false} LoadOwnTailStep<T>(s: Ring<T>, v: T)
    requires Inv(s) && Enabled(s, LoadOwnTail(v))
    ensures Inv(Next(s, LoadOwnTail(v)))
  {
    var s' := Next(s, LoadOwnTail(v));
    forall c | |s'.popped| <= c < |s'.pushed| ensures SlotHolds(s', c) {
      assert SlotHolds(s, c);
    }
  }

  /** The comparison of indices tells a full buffer, whatever head the producer sees. */
  lemma {:induction false} FullTest<T>(s: Ring<T>, seen: nat)
    requires Inv(s) && Enabled(s, LoadHead(seen))
    ensures s.Inc(s.producer.tail) == (|s.pushed| + 1) % s.Capacity()
    ensures s.Inc(s.producer.tail) == s.heads[seen] <==> |s.pushed| + 1 == seen + s.Capacity()
  {
    hide BitAnd, Pow2, Stored;
    var n, cap := |s.pushed|, s.Capacity();
    MaskedIncrement(n, s.logCap);
    assert s.heads[seen] == seen % cap;
    if n + 1 == seen + cap {
      ModPlusN(seen, cap);
    } else {
      ModDiffers(seen, n + 1, cap);
    }
  }

  lemma {:induction false} LoadHeadStep<T>(s: Ring<T>, seen: nat)
    requires Inv(s) && Enabled(s, LoadHead(seen))
    ensures Inv(Next(s, LoadHead(seen)))
  {
    hide BitAnd, Pow2;
    FullTest(s, seen);
    var s' := Next(s, LoadHead(seen));
    forall c | |s'.popped| <= c < |s'.pushed| ensures SlotHolds(s', c) {
      assert SlotHolds(s, c);
    }
  }

  lemma {:induction false} WriteStep<T>(s: Ring<T>)
    requires Inv(s) && Enabled(s, WriteSlot)
    ensures Inv(Next(s, WriteSlot))
    ensures forall c | |s.popped| <= c < |s.pushed| :: c % s.Capacity() != s.producer.tail
  {
    var s' := Next(s, WriteSlot);
    forall c | |s.popped| <= c < |s.pushed|
      ensures c % s.Capacity() != s.producer.tail && SlotHolds(s', c)
    {
      assert SlotHolds(s, c);
      ModDiffers(c, |s.pushed|, s.Capacity());
    }
  }

  lemma {:induction false} StoreTailStep<T>(s: Ring<T>)
    requires Inv(s) && Enabled(s, StoreTail)
    ensures Inv(Next(s, StoreTail))
  {
    var s' := Next(s, StoreTail);
    forall c | |s'.popped| <= c < |s'.pushed| ensures SlotHolds(s', c) {
      assert c < |s.pushed| ==> SlotHolds(s, c);
    }
  }

  lemma {:induction false} ConsumerStep<T>(s: Ring<T>, a: Action<T>)
    requires Inv(s) && Enabled(s, a) && (a.LoadOwnHead? || a.LoadTail? || a.ReadSlot?)
    ensures Inv(Next(s, a))
  {
    if a.ReadSlot? {
      assert SlotHolds(s, |s.popped|);
    }
    var s' := Next(s, a);
    forall c | |s'.popped| <= c < |s'.pushed| ensures SlotHolds(s', c) {
      assert SlotHolds(s, c);
    }
  }

  lemma {:induction false} StoreHeadStep<T>(s: Ring<T>)
    requires Inv(s) && Enabled(s, StoreHead)
    ensures Inv(Next(s, StoreHead))
    ensures Next(s, StoreHead).Queued() == s.Queued()[1..] && s.Queued()[0] == s.consumer.out
  {
    MaskedIncrement(|s.popped|, s.logCap);
    var s' := Next(s, StoreHead);
    forall c | |s'.popped| <= c < |s'.pushed| ensures SlotHolds(s', c) {
      assert SlotHolds(s, c);
    }
  }

  /** The comparison of indices tells an empty buffer, whatever tail the consumer sees. */
  lemma {:induction false} EmptyTest<T>(s: Ring<T>, seen: nat)
    requires Inv(s) && Enabled(s, LoadTail(seen))
    ensures s.consumer.head == s.tails[seen] <==> |s.popped| == seen
  {
    hide Pow2, Stored;
    if |s.popped| != seen {
      ModDiffers(|s.popped|, seen, s.Capacity());
    }
  }

  /** Every memory access of either thread keeps the invariant. */
  lemma {:induction false} StepInv<T>(s: Ring<T>, a: Action<T>)
    requires Inv(s) && Enabled(s, a)
    ensures Inv(Next(s, a))
  {
    hide Inv, Next, Enabled;
    match a
    case LoadOwnTail(v) => LoadOwnTailStep(s, v);
    case LoadHead(seen) => LoadHeadStep(s, seen);
    case WriteSlot => WriteStep(s);
    case StoreTail => StoreTailStep(s);
    case StoreHead => StoreHeadStep(s);
    case _ => ConsumerStep(s, a);
  }

  // ---- Runs -------------------------------------------------------------------

  /** The actions can be taken one after the other: any interleaving of the two threads. */
  predicate CanRun<T>(s: Ring<T>, actions: seq<Action<T>>)
    decreases |actions|
  {
    actions == [] || (Enabled(s, actions[0]) && CanRun(Next(s, actions[0]), actions[1..]))
  }

  function Run<T>(s: Ring<T>, actions: seq<Action<T>>): Ring<T>
    requires CanRun(s, actions)
    decreases |actions|
  {
    if actions == [] then s else Run(Next(s, actions[0]), actions[1..])
  }

  lemma {:induction false} RunInv<T>(s: Ring<T>, actions: seq<Action<T>>)
    requires Inv(s) && CanRun(s, actions)
    ensures Inv(Run(s, actions))
    decreases |actions|
  {
    if actions != [] {
      StepInv(s, actions[0]);
      RunInv(Next(s, actions[0]), actions[1..]);
    }
  }

  /**
   * In every interleaving, with stale views of the other index allowed: values
   * come out in the order they went in, at most Capacity - 1 are inside, and a
   * slot about to be written holds no value still to be read.
   */
  lemma {:induction false} ConcurrentFifo<T>(logCap: nat, zero: seq<T>, actions: seq<Action<T>>)
    requires logCap >= 1 && |zero| == Pow2(logCap) && CanRun(Init(logCap, zero), actions)
    ensures var s := Run(Init(logCap, zero), actions);
      && s.popped <= s.pushed
      && |s.pushed| - |s.popped| <= s.Capacity() - 1
      && (s.producer.PushRoom? ==> forall c | |s.popped| <= c < |s.pushed| :: c % s.Capacity() != s.producer.tail)
      && (s.producer.PushRoom? && s.consumer.PopReady? ==> s.producer.tail != s.consumer.head)
  {
    InitInv(logCap, zero);
    RunInv(Init(logCap, zero), actions);
    var s := Run(Init(logCap, zero), actions);
    if s.producer.PushRoom? {
      hide Stored;
      forall c | |s.popped| <= c < |s.pushed| ensures c % s.Capacity() != s.producer.tail {
        ModDiffers(c, |s.pushed|, s.Capacity());
      }
    }
  }

  lemma {:induction false} CountBetween(t: nat, h: nat, n: nat)
    requires n > 0 && h <= t < h + n
    ensures (if h % n <= t % n then t % n - h % n else t % n - h % n + n) == t - h
  {
    var q, r := h / n, h % n;
    assert t == q * n + (r + (t - h));
    if r + (t - h) < n {
      ModIs(t, n, q, r + (t - h));
    } else {
      assert t == (q + 1) * n + (r + (t - h) - n);
      ModIs(t, n, q + 1, r + (t - h) - n);
    }
  }

  /** empty and approx_size, when neither index moves between the two loads: the size_t difference wraps harmlessly. */
  lemma {:induction false} SizeWhenQuiet<T>(s: Ring<T>)
    requires Inv(s) && s.logCap <= 64
    ensures var tail, head := s.tails[|s.tails| - 1], s.heads[|s.heads| - 1];
      && (head == tail <==> s.Queued() == [])
      && BitAnd((tail - head) % Pow2(64), s.Capacity() - 1) == |s.Queued()|
  {
    hide Pow2, BitAnd, Stored, ProducerOk, ConsumerOk;
    var t, h := |s.pushed|, |s.popped|;
    var tail, head := s.tails[t], s.heads[h];
    assert tail == t % s.Capacity() && head == h % s.Capacity();
    MaskedDifference(tail, head, s.logCap);
    CountBetween(t, h, s.Capacity());
  }

  // ---- What push and pop return -----------------------------------------------------------

  /** push gives up if and only if the ring is full as far as the producer can see. */
  lemma {:induction false} PushFailsIff<T>(s: Ring<T>, seen: nat)
    requires Inv(s) && Enabled(s, LoadHead(seen))
    ensures var s' := Next(s, LoadHead(seen));
      && (s'.producer.PushIdle? <==> |s.pushed| + 1 == seen + s.Capacity())
      && s'.pushed == s.pushed && s'.popped == s.popped
      && (!s'.producer.PushIdle? ==>
            s'.producer == PushRoom(s.producer.value, |s.pushed| % s.Capacity(), (|s.pushed| + 1) % s.Capacity()))
  {
    hide BitAnd, Pow2, Stored;
    FullTest(s, seen);
  }

  /** pop gives up if and only if the ring is empty as far as the consumer can see. */
  lemma {:induction false} PopFailsIff<T>(s: Ring<T>, seen: nat)
    requires Inv(s) && Enabled(s, LoadTail(seen))
    ensures var s' := Next(s, LoadTail(seen));
      && (s'.consumer.PopIdle? <==> |s.popped| == seen)
      && s'.pushed == s.pushed && s'.popped == s.popped
      && (!s'.consumer.PopIdle? ==> s'.consumer == PopReady(|s.popped| % s.Capacity()))
  {
    hide BitAnd, Pow2, Stored;
    EmptyTest(s, seen);
  }

  /** The accesses of one whole push, the current head being seen. */
  function PushSteps<T>(s: Ring<T>, v: T): seq<Action<T>> {
    [LoadOwnTail(v), LoadHead(|s.popped|), WriteSlot, StoreTail]
  }

  /** A push into a ring with room succeeds: the value comes last in the queue. */
  lemma {:induction false} PushSucceeds<T>(s: Ring<T>, v: T)
    requires Inv(s) && s.producer.PushIdle? && |s.pushed| - |s.popped| < s.Capacity() - 1
    ensures CanRun(s, PushSteps(s, v))
    ensures var s' := Run(s, PushSteps(s, v));
      && Inv(s') && s'.pushed == s.pushed + [v] && s'.producer.PushIdle?
      && s'.popped == s.popped && s'.consumer == s.consumer && s'.tailSeen == s.tailSeen && s'.logCap == s.logCap
  {
    hide BitAnd, Pow2, Stored, ConsumerOk;
    var s1 := Next(s, LoadOwnTail(v));
    StepInv(s, LoadOwnTail(v));
    PushFailsIff(s1, |s.popped|);
    StepInv(s1, LoadHead(|s.popped|));
    var s2 := Next(s1, LoadHead(|s.popped|));
    TailInBuffer(s2);
    StepInv(s2, WriteSlot);
    var s3 := Next(s2, WriteSlot);
    StepInv(s3, StoreTail);
    hide Inv;
    FourSteps(s, LoadOwnTail(v), LoadHead(|s.popped|), WriteSlot, StoreTail);
  }

  lemma {:induction false} TailInBuffer<T>(s: Ring<T>)
    requires Inv(s)
    ensures s.producer.PushRoom? ==> s.producer.tail < |s.buffer|
    ensures s.consumer.PopReady? ==> s.consumer.head < |s.buffer|
  {
  }

  lemma {:induction false} FourSteps<T>(s: Ring<T>, a: Action<T>, b: Action<T>, c: Action<T>, d: Action<T>)
    requires Enabled(s, a) && Enabled(Next(s, a), b) && Enabled(Next(Next(s, a), b), c)
    requires Enabled(Next(Next(Next(s, a), b), c), d)
    ensures CanRun(s, [a, b, c, d]) && Run(s, [a, b, c, d]) == Next(Next(Next(Next(s, a), b), c), d)
  {
    hide Enabled, Next;
    assert [a, b, c, d][1..] == [b, c, d] && [b, c, d][1..] == [c, d] && [c, d][1..] == [d] && [d][1..] == [];
    var s1 := Next(s, a);
    var s2 := Next(s1, b);
    var s3 := Next(s2, c);
    assert CanRun(s3, [d]) && Run(s3, [d]) == Next(s3, d);
    assert CanRun(s2, [c, d]) && Run(s2, [c, d]) == Next(s3, d);
    assert CanRun(s1, [b, c, d]) && Run(s1, [b, c, d]) == Next(s3, d);
  }

  /** The accesses of one whole pop, the current tail being seen. */
  function PopSteps<T>(s: Ring<T>): seq<Action<T>> {
    [LoadOwnHead, LoadTail(|s.pushed|), ReadSlot, StoreHead]
  }

  /** A pop from a ring that is not empty succeeds: it takes the value pushed longest ago. */
  lemma {:induction false} PopSucceeds<T>(s: Ring<T>)
    requires Inv(s) && s.consumer.PopIdle? && s.Queued() != []
    ensures CanRun(s, PopSteps(s))
    ensures var s' := Run(s, PopSteps(s));
      && Inv(s') && s'.popped == s.popped + [s.Queued()[0]] && s'.Queued() == s.Queued()[1..] && s'.consumer.PopIdle?
      && s'.pushed == s.pushed && s'.producer == s.producer && s'.logCap == s.logCap
  {
    hide BitAnd, Pow2, Stored, ProducerOk;
    var s1 := Next(s, LoadOwnHead);
    StepInv(s, LoadOwnHead);
    PopFailsIff(s1, |s.pushed|);
    StepInv(s1, LoadTail(|s.pushed|));
    var s2 := Next(s1, LoadTail(|s.pushed|));
    TailInBuffer(s2);
    StepInv(s2, ReadSlot);
    var s3 := Next(s2, ReadSlot);
    StoreHeadStep(s3);
    hide Inv;
    FourSteps(s, LoadOwnHead, LoadTail(|s.pushed|), ReadSlot, StoreHead);
  }
}
