/**
 The single-producer single-consumer frame ring between the mixer and the audio render
 callback.

 Counters run free in 32 bits and are masked to index the slots.  The state machine
 below interleaves the two sides at the grain of one shared access: reading the other
 side's counter, copying one slot, publishing the own counter.  The snapshots a side
 works from may be arbitrarily stale.  `RunKeeps` and `TakenIsPrefix` say that no schedule
 loses, repeats or overwrites a frame, across any number of counter wraps.

 Acquire/release accesses are single interleaved steps; a frame is one value.
 */
module Ring {
  import opened Numbers

  const WRAP: nat := 0x1_0000_0000

  // -------------------------------------------------------------- ring geometry

  /** A slot count the ring may have: a power of two whose multiples include 2^32. */
  ghost predicate IsCap(cap: nat) {
    exists k :: 1 <= k <= 31 && cap == Pow2(k)
  }

  lemma Pow2At31()
    ensures Pow2(31) == 0x8000_0000 && Pow2(32) == WRAP
  {
    assert Pow2(8) == 256;
    Pow2Adds(8, 8);
    Pow2Adds(16, 8);
    Pow2Adds(24, 7);
    assert Pow2(7) == 128;
    assert Pow2(32) == 2 * Pow2(31);
  }

  /** The reason masking survives the wrap: every ring size divides 2^32. */
  lemma CapDividesWrap(cap: nat) returns (q: nat)
    requires IsCap(cap)
    ensures 2 <= cap <= 0x8000_0000 && q * cap == WRAP
  {
    var k :| 1 <= k <= 31 && cap == Pow2(k);
    Pow2Adds(32 - k, k);
    Pow2At31();
    Pow2Grows(1, k);
    Pow2Grows(k, 31);
    q := Pow2(32 - k);
  }

  /** `next_pow2`: the smallest power of two that is at least 2 and at least `n`. */
  method NextPow2(n: nat) returns (p: nat)
    requires n <= 0x8000_0000
    ensures IsCap(p) && n <= p
    ensures forall k | 1 <= k :: n <= Pow2(k) ==> p <= Pow2(k)
  {
    p := 2;
    ghost var k := 1;
    Pow2At31();
    while p < n
      invariant 1 <= k <= 31 && p == Pow2(k)
      invariant k == 1 || Pow2(k - 1) < n
      decreases n - p
    {
      if k == 31 { assert false; }
      p := p * 2;
      k := k + 1;
    }
    forall j | 1 <= j && n <= Pow2(j) ensures p <= Pow2(j) {
      if j < k { Pow2Grows(j, k - 1); } else { Pow2Grows(k, j); }
    }
  }

  // ------------------------------------------------------ arithmetic of the wrap

  lemma {:induction false} ModShift(y: nat, m: nat, cap: nat)
    requires cap > 0
    ensures (y + cap * m) % cap == y % cap
    decreases m
  {
    if m > 0 {
      ModShift(y, m - 1, cap);
      assert y + cap * m == y + cap * (m - 1) + cap;
      StepMod(y + cap * (m - 1), cap);
    }
  }

  lemma StepMod(x: nat, cap: nat)
    requires cap > 0
    ensures (x + cap) % cap == x % cap
  {
    var q, r := x / cap, x % cap;
    assert x + cap == (q + 1) * cap + r;
    DivModUnique(x + cap, cap, q + 1, r);
  }

  lemma {:induction false} MulGap(a: nat, b: nat, cap: nat)
    requires a < b
    ensures a * cap + cap <= b * cap
    decreases b
  {
    assert b * cap == (b - 1) * cap + cap;
    if a < b - 1 { MulGap(a, b - 1, cap); }
  }

  lemma DivModUnique(x: nat, cap: nat, q: nat, r: nat)
    requires cap > 0 && x == q * cap + r && r < cap
    ensures x % cap == r && x / cap == q
  {
    var q', r' := x / cap, x % cap;
    assert x == q' * cap + r';
    if q < q' { MulGap(q, q', cap); }
    if q' < q { MulGap(q', q, cap); }
  }

  /** Reducing a counter to 32 bits before masking makes no difference exactly when the ring size divides 2^32. */
  lemma WrapIndexIff(cap: nat)
    requires 0 < cap
    ensures (forall x: nat :: (x % 0x1_0000_0000) % cap == x % cap) <==> WRAP % cap == 0
  {
    if WRAP % cap == 0 {
      forall x: nat ensures (x % 0x1_0000_0000) % cap == x % cap { WrapIndex(x, cap, WRAP / cap); }
    } else {
      assert (WRAP % 0x1_0000_0000) % cap == 0;
    }
  }

  lemma WrapIndex(x: nat, cap: nat, q: nat)
    requires 0 < cap && q * cap == WRAP
    ensures (x % 0x1_0000_0000) % cap == x % cap
  {
    var n := x / WRAP;
    assert x == x % 0x1_0000_0000 + WRAP * n;
    assert WRAP * n == cap * (q * n) by {
      assert (q * cap) * n == cap * (q * n);
    }
    ModShift(x % 0x1_0000_0000, q * n, cap);
  }

  /** 32-bit subtraction of two counters less than 2^32 apart gives their distance. */
  lemma WrapDistance(a: nat, b: nat)
    requires b <= a < b + WRAP
    ensures (a % 0x1_0000_0000 - b % 0x1_0000_0000) % 0x1_0000_0000 == a - b
  {
  }

  /** Positions less than one lap apart use different slots. */
  lemma SlotsDiffer(i: nat, j: nat, cap: nat)
    requires 0 < cap && i < j < i + cap
    ensures i % cap != j % cap
  {
    var a, b := i / cap, j / cap;
    assert i == a * cap + i % cap && j == b * cap + j % cap;
    if a < b { MulGap(a, b, cap); }
    if b < a { MulGap(b, a, cap); }
  }

  // ------------------------------------------------------------ the two threads

  datatype Frame = Frame(left: int, right: int)

  /**
   `seen` is history: how many frames the consumer had released when the snapshot of `head`
   was taken.  The code only has the 32-bit `head`.
   */
  datatype Producer =
    | PIdle
    | PSnapshot(src: seq<Frame>, head: nat, seen: nat)
    | PCopy(src: seq<Frame>, n: nat, i: nat, seen: nat)

  datatype Consumer =
    | CIdle
    | CStart(want: nat, head: nat)
    | CCopy(want: nat, take: nat, i: nat, head: nat)

  /** Shared memory, the two local states, and the history of the run. */
  datatype State = State(
    slots: seq<Frame>, head: nat, tail: nat, prod: Producer, cons: Consumer,
    accepted: seq<Frame>,  // all frames ever published by the producer
    taken: seq<Frame>,     // all frames ever copied out by the consumer
    released: nat)         // how many of them the consumer has published as consumed

  datatype Action =
    | PushReadHead(src: seq<Frame>)  // ca_ring_push: load c->head
    | PushReadTail                   // load c->tail and size the transfer
    | PushCopy                       // one slot
    | PushPublish                    // store c->tail
    | RenderReadHead(want: nat)      // ca_render_cb: load c->head
    | RenderReadTail                 // load c->tail and size the transfer
    | RenderCopy                     // one slot
    | RenderPublish                  // store c->head

  ghost predicate Enabled(s: State, a: Action) {
    match a
    case PushReadHead(src) => s.prod.PIdle? && 0 < |src| < 0x8000_0000
    case PushReadTail => s.prod.PSnapshot?
    case PushCopy => s.prod.PCopy? && s.prod.i < s.prod.n
    case PushPublish => s.prod.PCopy? && s.prod.i == s.prod.n
    case RenderReadHead(want) => s.cons.CIdle? && want < WRAP
    case RenderReadTail => s.cons.CStart?
    case RenderCopy => s.cons.CCopy? && s.cons.i < s.cons.take
    case RenderPublish => s.cons.CCopy? && s.cons.i == s.cons.take
  }

  /** Free frames as the producer computes them from its snapshot. */
  function FreeFrames(cap: nat, head: nat, tail: nat): nat {
    (cap - 1 - (tail - head) % 0x1_0000_0000) % 0x1_0000_0000
  }

  /** `(counter + i) & mask`, in 32-bit arithmetic. */
  function Index(counter: nat, i: nat, cap: nat): nat
    requires 0 < cap
  {
    (counter + i) % 0x1_0000_0000 % cap
  }

  function Step(s: State, a: Action): State
  {
    var cap := |s.slots|;
    match a
    case PushReadHead(src) => s.(prod := PSnapshot(src, s.head, s.released))
    case PushReadTail =>
      if !s.prod.PSnapshot? then s else
      var n := Min(|s.prod.src|, FreeFrames(cap, s.prod.head, s.tail));
      s.(prod := PCopy(s.prod.src, n, 0, s.prod.seen))
    case PushCopy =>
      if !(s.prod.PCopy? && s.prod.i < |s.prod.src| && cap > 0) then s else
      s.(slots := s.slots[Index(s.tail, s.prod.i, cap) := s.prod.src[s.prod.i]], prod := s.prod.(i := s.prod.i + 1))
    case PushPublish =>
      if !(s.prod.PCopy? && s.prod.n <= |s.prod.src|) then s else
      s.(tail := (s.tail + s.prod.n) % 0x1_0000_0000, prod := PIdle, accepted := s.accepted + s.prod.src[..s.prod.n])
    case RenderReadHead(want) => s.(cons := CStart(want, s.head))
    case RenderReadTail =>
      if !s.cons.CStart? then s else
      s.(cons := CCopy(s.cons.want, Min((s.tail - s.cons.head) % 0x1_0000_0000, s.cons.want), 0, s.cons.head))
    case RenderCopy =>
      if !(s.cons.CCopy? && cap > 0) then s else
      s.(taken := s.taken + [s.slots[Index(s.cons.head, s.cons.i, cap)]], cons := s.cons.(i := s.cons.i + 1))
    case RenderPublish =>
      if !s.cons.CCopy? then s else
      s.(head := (s.cons.head + s.cons.take) % 0x1_0000_0000, cons := CIdle, released := s.released + s.cons.take)
  }

  function Init(cap: nat): State {
    State(seq(cap, _ => Frame(0, 0)), 0, 0, PIdle, CIdle, [], [], 0)
  }

  // --------------------------------------------------------------- the invariant

  ghost predicate ProducerOk(s: State)
    requires |s.slots| > 0
  {
    var cap := |s.slots|;
    match s.prod
    case PIdle => true
    case PSnapshot(src, h, seen) =>
      |src| < 0x8000_0000 && seen <= s.released && |s.accepted| - seen <= cap - 1 && h == seen % 0x1_0000_0000
    case PCopy(src, n, i, seen) =>
      && i <= n <= |src| && seen <= s.released && |s.accepted| - seen + n <= cap - 1
      && forall j | 0 <= j < i :: s.slots[(|s.accepted| + j) % cap] == src[j]
  }

  ghost predicate ConsumerOk(s: State) {
    match s.cons
    case CIdle => |s.taken| == s.released
    case CStart(want, h) => |s.taken| == s.released && h == s.head
    case CCopy(want, take, i, h) =>
      h == s.head && i <= take && |s.taken| == s.released + i && s.released + take <= |s.accepted|
  }

  /** Every frame published and not yet released still sits in its slot. */
  ghost predicate SlotsHold(s: State)
    requires |s.slots| > 0
  {
    forall j | s.released <= j < |s.accepted| :: s.slots[j % |s.slots|] == s.accepted[j]
  }

  ghost predicate Inv(s: State) {
    && IsCap(|s.slots|) && 2 <= |s.slots|
    && s.released <= |s.taken| <= |s.accepted| <= s.released + |s.slots| - 1
    && s.head == s.released % 0x1_0000_0000
    && s.tail == |s.accepted| % 0x1_0000_0000
    && s.taken == s.accepted[..|s.taken|]
    && SlotsHold(s)
    && ProducerOk(s)
    && ConsumerOk(s)
  }

  lemma InitOk(cap: nat)
    requires IsCap(cap)
    ensures Inv(Init(cap))
  {
    var q := CapDividesWrap(cap);
  }

  /** The slot the code computes for position `base + i` is the position modulo the ring size. */
  lemma IndexIs(s: State, base: nat, i: nat)
    requires IsCap(|s.slots|) && 2 <= |s.slots|
    ensures Index(base % 0x1_0000_0000, i, |s.slots|) == (base + i) % |s.slots|
  {
    var q := CapDividesWrap(|s.slots|);
    WrapAdd(base, i);
    WrapIndex(base + i, |s.slots|, q);
  }

  lemma WrapAdd(base: nat, i: nat)
    ensures (base % 0x1_0000_0000 + i) % 0x1_0000_0000 == (base + i) % 0x1_0000_0000
  {
  }

  lemma FreeIs(cap: nat, a: nat, b: nat)
    requires 1 <= cap <= 0x8000_0000 && b <= a < b + cap
    ensures FreeFrames(cap, b % 0x1_0000_0000, a % 0x1_0000_0000) == cap - 1 - (a - b)
  {
    WrapDistance(a, b);
  }

  /** What the producer sizes its transfer to: no more than is free, even with a stale snapshot. */
  lemma SizedTransfer(s: State)
    requires Inv(s) && s.prod.PSnapshot?
    ensures FreeFrames(|s.slots|, s.prod.head, s.tail) == |s.slots| - 1 - (|s.accepted| - s.prod.seen)
  {
    var q := CapDividesWrap(|s.slots|);
    FreeIs(|s.slots|, |s.accepted|, s.prod.seen);
    hide FreeFrames;
    hide SlotsHold;
    hide IsCap;
  }

  lemma PushReadTailKeeps(s: State)
    requires Inv(s) && Enabled(s, PushReadTail)
    ensures Inv(Step(s, PushReadTail))
  {
    SizedTransfer(s);
  }

  /** The producer never writes a slot that holds a frame the consumer has not released. */
  lemma CopyHitsFreeSlot(s: State, j: nat)
    requires Inv(s) && Enabled(s, PushCopy) && s.released <= j < |s.accepted|
    ensures Index(s.tail, s.prod.i, |s.slots|) != j % |s.slots|
  {
    IndexIs(s, |s.accepted|, s.prod.i);
    SlotsDiffer(j, |s.accepted| + s.prod.i, |s.slots|);
  }

  lemma PushCopyKeeps(s: State)
    requires Inv(s) && Enabled(s, PushCopy)
    ensures Inv(Step(s, PushCopy))
  {
    hide IsCap;
    var t, cap, a, i := Step(s, PushCopy), |s.slots|, |s.accepted|, s.prod.i;
    IndexIs(s, a, i);
    hide Index;
    forall j | s.released <= j < a ensures t.slots[j % cap] == s.accepted[j] { CopyHitsFreeSlot(s, j); }
    forall j | 0 <= j < i + 1 ensures t.slots[(a + j) % cap] == s.prod.src[j] {
      if j < i { SlotsDiffer(a + j, a + i, cap); }
    }
  }

  /** Once the tail is published, the copied frames are frames that wait in their slots. */
  lemma PublishSlots(s: State)
    requires Inv(s) && Enabled(s, PushPublish)
    ensures SlotsHold(Step(s, PushPublish))
  {
    hide IsCap;
    var t, cap, a := Step(s, PushPublish), |s.slots|, |s.accepted|;
    forall j | t.released <= j < |t.accepted| ensures t.slots[j % cap] == t.accepted[j] {
      if j >= a { assert s.slots[(a + (j - a)) % cap] == s.prod.src[j - a]; }
    }
  }

  lemma PushPublishKeeps(s: State)
    requires Inv(s) && Enabled(s, PushPublish)
    ensures Inv(Step(s, PushPublish))
  {
    PublishSlots(s);
    WrapAdd(|s.accepted|, s.prod.n);
    hide IsCap;
    hide SlotsHold;
  }

  lemma RenderReadTailKeeps(s: State)
    requires Inv(s) && Enabled(s, RenderReadTail)
    ensures Inv(Step(s, RenderReadTail))
  {
    var q := CapDividesWrap(|s.slots|);
    WrapDistance(|s.accepted|, s.released);
  }

  lemma RenderCopyKeeps(s: State)
    requires Inv(s) && Enabled(s, RenderCopy)
    ensures Inv(Step(s, RenderCopy))
  {
    var t, cap, n := Step(s, RenderCopy), |s.slots|, |s.taken|;
    IndexIs(s, s.released, s.cons.i);
    assert s.slots[n % cap] == s.accepted[n];
    assert s.accepted[..n + 1] == s.accepted[..n] + [s.accepted[n]];
  }

  lemma RenderPublishKeeps(s: State)
    requires Inv(s) && Enabled(s, RenderPublish)
    ensures Inv(Step(s, RenderPublish))
  {
    hide IsCap;
    WrapAdd(s.released, s.cons.take);
  }

  lemma PushReadHeadKeeps(s: State, src: seq<Frame>)
    requires Inv(s) && Enabled(s, PushReadHead(src))
    ensures Inv(Step(s, PushReadHead(src)))
  {
  }

  lemma RenderReadHeadKeeps(s: State, want: nat)
    requires Inv(s) && Enabled(s, RenderReadHead(want))
    ensures Inv(Step(s, RenderReadHead(want)))
  {
  }

  lemma StepKeeps(s: State, a: Action)
    requires Inv(s) && Enabled(s, a)
    ensures Inv(Step(s, a))
  {
    match a
    case PushReadHead(src) => PushReadHeadKeeps(s, src);
    case PushReadTail => PushReadTailKeeps(s);
    case PushCopy => PushCopyKeeps(s);
    case PushPublish => PushPublishKeeps(s);
    case RenderReadHead(want) => RenderReadHeadKeeps(s, want);
    case RenderReadTail => RenderReadTailKeeps(s);
    case RenderCopy => RenderCopyKeeps(s);
    case RenderPublish => RenderPublishKeeps(s);
  }

  // ---------------------------------------------------------------- whole runs

  ghost predicate ValidRun(s: State, run: seq<Action>)
    decreases |run|
  {
    run == [] || (Enabled(s, run[0]) && ValidRun(Step(s, run[0]), run[1..]))
  }

  ghost function Run(s: State, run: seq<Action>): State
    decreases |run|
  {
    if run == [] then s else Run(Step(s, run[0]), run[1..])
  }

  lemma {:induction false} RunKeeps(s: State, run: seq<Action>)
    requires Inv(s) && ValidRun(s, run)
    ensures Inv(Run(s, run)) && |Run(s, run).slots| == |s.slots|
    decreases |run|
  {
    if run != [] {
      StepKeeps(s, run[0]);
      RunKeeps(Step(s, run[0]), run[1..]);
    }
  }

  /**
   Under every schedule the consumer's frames are a prefix of the producer's, and the frames
   in flight never exceed the advertised capacity.
   */
  lemma TakenIsPrefix(cap: nat, run: seq<Action>)
    requires IsCap(cap) && ValidRun(Init(cap), run)
    ensures var s := Run(Init(cap), run);
      s.taken <= s.accepted && |s.accepted| - s.released <= cap - 1
  {
    InitOk(cap);
    RunKeeps(Init(cap), run);
  }

  /** `ca_ring_space` with an up-to-date snapshot is the exact number of free frames. */
  lemma SpaceIs(s: State)
    requires Inv(s)
    ensures FreeFrames(|s.slots|, s.head, s.tail) == |s.slots| - 1 - (|s.accepted| - s.released)
  {
    var q := CapDividesWrap(|s.slots|);
    FreeIs(|s.slots|, |s.accepted|, s.released);
  }

  /** `ca_ring_space` from a stale snapshot: until the producer pushes again there is at least that much room. */
  lemma SpaceIsSafe(s: State, run: seq<Action>)
    requires Inv(s) && ValidRun(s, run) && forall i | 0 <= i < |run| :: !run[i].PushPublish?
    ensures var t := Run(s, run);
      FreeFrames(|s.slots|, s.head, s.tail) <= |t.slots| - 1 - (|t.accepted| - t.released)
  {
    SpaceIs(s);
    Quiet(s, run);
  }

  lemma {:induction false} Quiet(s: State, run: seq<Action>)
    requires Inv(s) && ValidRun(s, run) && forall i | 0 <= i < |run| :: !run[i].PushPublish?
    ensures var t := Run(s, run);
      Inv(t) && |t.slots| == |s.slots| && t.accepted == s.accepted && s.released <= t.released
    decreases |run|
  {
    if run != [] {
      StepKeeps(s, run[0]);
      Quiet(Step(s, run[0]), run[1..]);
    }
  }

  // ------------------------------------------------------ whole calls, interleaved

  /** How many frames a render that wants `want` may take. */
  function Available(s: State, want: nat): nat
    requires s.released <= |s.accepted|
  {
    Min(want, |s.accepted| - s.released)
  }

  /** How many frames of a push fit, as of a snapshot taken when `seen` frames had been released. */
  function Fitting(s: State, n: nat, seen: nat): nat
    requires |s.accepted| - seen < |s.slots|
  {
    Min(n, |s.slots| - 1 - (|s.accepted| - seen))
  }

  /** A render sizes its transfer to all that is published at that moment, up to what it wants. */
  lemma RenderSizes(s: State)
    requires Inv(s) && s.cons.CStart?
    ensures Step(s, RenderReadTail).cons == CCopy(s.cons.want, Available(s, s.cons.want), 0, s.head)
  {
    var q := CapDividesWrap(|s.slots|);
    WrapDistance(|s.accepted|, s.released);
  }

  /** A push sizes its transfer to all that is free by its snapshot, up to what it was given. */
  lemma PushSizes(s: State)
    requires Inv(s) && s.prod.PSnapshot?
    ensures Step(s, PushReadTail).prod == PCopy(s.prod.src, Fitting(s, |s.prod.src|, s.prod.seen), 0, s.prod.seen)
  {
    SizedTransfer(s);
    hide FreeFrames;
  }

  /** From the sized transfer to its publish: the frames taken since are the oldest unreleased ones. */
  lemma {:induction false} RenderGoesOn(s: State, run: seq<Action>)
    requires Inv(s) && s.cons.CCopy? && ValidRun(s, run) && RenderPublish !in run
    ensures var t := Run(s, run);
      && Inv(t) && t.cons.CCopy? && t.cons == s.cons.(i := t.cons.i) && t.released == s.released
      && |t.slots| == |s.slots| && s.accepted <= t.accepted
    decreases |run|
  {
    if run != [] {
      StepKeeps(s, run[0]);
      assert run[0] in run;
      RenderGoesOn(Step(s, run[0]), run[1..]);
    }
  }

  /** Before the transfer is sized the render holds its request and nothing else. */
  lemma {:induction false} RenderWaits(s: State, run: seq<Action>)
    requires Inv(s) && s.cons.CStart? && ValidRun(s, run) && RenderReadTail !in run
    ensures var t := Run(s, run);
      && Inv(t) && t.cons == s.cons && t.taken == s.taken && t.released == s.released
      && |t.slots| == |s.slots| && s.accepted <= t.accepted
    decreases |run|
  {
    if run != [] {
      StepKeeps(s, run[0]);
      assert run[0] in run;
      RenderWaits(Step(s, run[0]), run[1..]);
    }
  }

  lemma {:induction false} RunJoins(s: State, a: seq<Action>, b: seq<Action>)
    ensures Run(s, a + b) == Run(Run(s, a), b)
    ensures ValidRun(s, a + b) <==> ValidRun(s, a) && ValidRun(Run(s, a), b)
    decreases |a|
  {
    hide Step;
    hide Enabled;
    if a == [] {
      assert a + b == b;
    } else {
      assert (a + b)[1..] == a[1..] + b;
      RunJoins(Step(s, a[0]), a[1..], b);
    }
  }

  /**
   A whole render with anything of the producer's in between: it hands out the oldest frames, as
   many as it wants or as were published when it sized its transfer, and releases exactly those.
   */
  lemma RenderCall(s: State, want: nat, before: seq<Action>, during: seq<Action>)
    requires Inv(s) && s.cons.CIdle? && RenderReadTail !in before && RenderPublish !in during
    requires ValidRun(s, [RenderReadHead(want)] + before + [RenderReadTail] + during + [RenderPublish])
    ensures var m := Run(s, [RenderReadHead(want)] + before);
      var t := Run(s, [RenderReadHead(want)] + before + [RenderReadTail] + during + [RenderPublish]);
      && Inv(m) && m.released == s.released && s.accepted <= m.accepted <= t.accepted
      && t.taken == s.taken + m.accepted[s.released..s.released + Available(m, want)]
      && t.released == s.released + Available(m, want) && t.cons.CIdle?
  {
    var call := [RenderReadHead(want)];
    RunJoins(s, call + before + [RenderReadTail] + during, [RenderPublish]);
    RunJoins(s, call + before + [RenderReadTail], during);
    RunJoins(s, call + before, [RenderReadTail]);
    RunJoins(s, call, before);
    OneStep(s, call[0]);
    var m := Run(s, call + before);
    RenderReadHeadKeeps(s, want);
    RenderWaits(Step(s, call[0]), before);
    OneStep(m, RenderReadTail);
    var n := Step(m, RenderReadTail);
    RenderSizes(m);
    RenderReadTailKeeps(m);
    RenderGoesOn(n, during);
    var e := Run(n, during);
    OneStep(e, RenderPublish);
    RenderEnds(m, e);
  }

  lemma RenderEnds(m: State, e: State)
    requires Inv(m) && Inv(e) && m.cons.CStart? && Enabled(e, RenderPublish) && e.released == m.released
    requires m.accepted <= e.accepted && e.cons.take == Available(m, m.cons.want)
    ensures var t := Step(e, RenderPublish);
      && t.taken == m.taken + m.accepted[m.released..m.released + e.cons.take]
      && t.released == m.released + e.cons.take && t.cons.CIdle? && t.accepted == e.accepted
  {
    var k := e.cons.take;
    assert e.taken == e.accepted[..m.released + k] == m.accepted[..m.released + k];
    assert m.taken == m.accepted[..m.released];
    hide SlotsHold;
    hide IsCap;
  }

  lemma OneStep(s: State, a: Action)
    ensures Run(s, [a]) == Step(s, a) && (ValidRun(s, [a]) <==> Enabled(s, a))
  {
    assert [a][1..] == [];
    assert Run(s, [a]) == Run(Step(s, a), []);
  }

  /** Before its transfer is sized a push holds its frames and its snapshot. */
  lemma {:induction false} PushWaits(s: State, run: seq<Action>)
    requires Inv(s) && s.prod.PSnapshot? && ValidRun(s, run) && PushReadTail !in run
    ensures var t := Run(s, run);
      Inv(t) && t.prod == s.prod && t.accepted == s.accepted && |t.slots| == |s.slots| && s.released <= t.released
    decreases |run|
  {
    if run != [] {
      StepKeeps(s, run[0]);
      assert run[0] in run;
      PushWaits(Step(s, run[0]), run[1..]);
    }
  }

  lemma {:induction false} PushGoesOn(s: State, run: seq<Action>)
    requires Inv(s) && s.prod.PCopy? && ValidRun(s, run) && PushPublish !in run
    ensures var t := Run(s, run);
      && Inv(t) && t.prod.PCopy? && t.prod == s.prod.(i := t.prod.i) && t.accepted == s.accepted
      && |t.slots| == |s.slots| && s.released <= t.released
    decreases |run|
  {
    if run != [] {
      StepKeeps(s, run[0]);
      assert run[0] in run;
      PushGoesOn(Step(s, run[0]), run[1..]);
    }
  }

  /**
   A whole push with anything of the consumer's in between: it publishes the front of what it was
   given, as much as was free when it read `head`.
   */
  lemma PushCall(s: State, src: seq<Frame>, before: seq<Action>, during: seq<Action>)
    requires Inv(s) && s.prod.PIdle? && PushReadTail !in before && PushPublish !in during
    requires ValidRun(s, [PushReadHead(src)] + before + [PushReadTail] + during + [PushPublish])
    ensures var t := Run(s, [PushReadHead(src)] + before + [PushReadTail] + during + [PushPublish]);
      && t.accepted == s.accepted + src[..Fitting(s, |src|, s.released)]
      && t.prod.PIdle?
  {
    var call := [PushReadHead(src)];
    RunJoins(s, call + before + [PushReadTail] + during, [PushPublish]);
    RunJoins(s, call + before + [PushReadTail], during);
    RunJoins(s, call + before, [PushReadTail]);
    RunJoins(s, call, before);
    OneStep(s, call[0]);
    PushReadHeadKeeps(s, src);
    PushWaits(Step(s, call[0]), before);
    var m := Run(s, call + before);
    OneStep(m, PushReadTail);
    PushSizes(m);
    PushReadTailKeeps(m);
    PushGoesOn(Step(m, PushReadTail), during);
    OneStep(Run(Step(m, PushReadTail), during), PushPublish);
  }

  function Times(a: Action, n: nat): seq<Action> { seq(n, _ => a) }

  lemma {:induction false} CopiesRun(s: State, n: nat)
    requires Inv(s) && s.cons.CCopy? && s.cons.take == s.cons.i + n
    ensures ValidRun(s, Times(RenderCopy, n)) && Enabled(Run(s, Times(RenderCopy, n)), RenderPublish)
    decreases n
  {
    if n > 0 {
      StepKeeps(s, RenderCopy);
      assert Times(RenderCopy, n)[1..] == Times(RenderCopy, n - 1);
      CopiesRun(Step(s, RenderCopy), n - 1);
    }
  }

  /** Such calls exist: from any point between renders a render can run to its end. */
  lemma RenderRuns(s: State, want: nat)
    requires Inv(s) && s.cons.CIdle? && want < WRAP
    ensures var copies := Times(RenderCopy, Available(s, want));
      var run := [RenderReadHead(want)] + [] + [RenderReadTail] + copies + [RenderPublish];
      && ValidRun(s, run)
      && Run(s, run).taken == s.taken + s.accepted[s.released..s.released + Available(s, want)]
  {
    var call, copies := [RenderReadHead(want)], Times(RenderCopy, Available(s, want));
    OneStep(s, call[0]);
    RenderReadHeadKeeps(s, want);
    var m := Step(s, call[0]);
    RenderSizes(m);
    RenderReadTailKeeps(m);
    OneStep(m, RenderReadTail);
    CopiesRun(Step(m, RenderReadTail), Available(s, want));
    OneStep(Run(Step(m, RenderReadTail), copies), RenderPublish);
    assert call + [] == call;
    RunJoins(s, call, [RenderReadTail]);
    RunJoins(s, call + [RenderReadTail], copies);
    RunJoins(s, call + [RenderReadTail] + copies, [RenderPublish]);
    assert RenderPublish !in copies;
    RenderCall(s, want, [], copies);
  }

  lemma {:induction false} PushCopiesRun(s: State, n: nat)
    requires Inv(s) && s.prod.PCopy? && s.prod.n == s.prod.i + n
    ensures ValidRun(s, Times(PushCopy, n)) && Enabled(Run(s, Times(PushCopy, n)), PushPublish)
    decreases n
  {
    if n > 0 {
      StepKeeps(s, PushCopy);
      assert Times(PushCopy, n)[1..] == Times(PushCopy, n - 1);
      PushCopiesRun(Step(s, PushCopy), n - 1);
    }
  }

  /** And from any point between pushes so can a push. */
  lemma PushRuns(s: State, src: seq<Frame>)
    requires Inv(s) && s.prod.PIdle? && 0 < |src| < 0x8000_0000
    ensures var n := Fitting(s, |src|, s.released);
      var run := [PushReadHead(src)] + [] + [PushReadTail] + Times(PushCopy, n) + [PushPublish];
      ValidRun(s, run) && Run(s, run).accepted == s.accepted + src[..n]
  {
    var n := Fitting(s, |src|, s.released);
    var call, copies := [PushReadHead(src)], Times(PushCopy, n);
    OneStep(s, call[0]);
    PushReadHeadKeeps(s, src);
    var m := Step(s, call[0]);
    PushSizes(m);
    PushReadTailKeeps(m);
    OneStep(m, PushReadTail);
    PushCopiesRun(Step(m, PushReadTail), n);
    OneStep(Run(Step(m, PushReadTail), copies), PushPublish);
    assert call + [] == call;
    RunJoins(s, call, [PushReadTail]);
    RunJoins(s, call + [PushReadTail], copies);
    RunJoins(s, call + [PushReadTail] + copies, [PushPublish]);
    PushCall(s, src, [], copies);
  }

  // ------------------------------------------------- the two calls, undisturbed

  /** The ring as the shim allocates it, with both calls running to completion. */
  class Context {
    var slots: array<Frame>
    var cap: nat
    var head: nat
    var tail: nat
    ghost var accepted: seq<Frame>
    ghost var taken: seq<Frame>

    ghost function View(): State
      reads this, slots
    {
      State(slots[..], head, tail, PIdle, CIdle, accepted, taken, |taken|)
    }

    ghost predicate Valid()
      reads this, slots
    {
      cap == slots.Length && Inv(View())
    }

    /** `ca_open`, ring part. */
    constructor (ringFrames: int)
      requires ringFrames < 0x8000_0000
      ensures Valid() && fresh(slots)
      ensures accepted == [] && taken == []
      ensures ringFrames <= cap - 1
    {
      var frames: nat := if ringFrames < 2 then 2 else ringFrames;
      var n := NextPow2(frames + 1);
      cap := n;
      slots := new Frame[n](_ => Frame(0, 0));
      head, tail := 0, 0;
      accepted, taken := [], [];
      new;
      var q := CapDividesWrap(n);
    }

    /** `ca_ring_capacity`. */
    function Capacity(): nat
      reads this
    {
      if cap > 0 then cap - 1 else 0
    }

    /** The copy loop of `ca_ring_push`. */
    method CopyIn(src: seq<Frame>, n: nat)
      requires cap == slots.Length && n <= |src| && Inv(View().(prod := PCopy(src, n, 0, |taken|)))
      modifies slots
      ensures Inv(View().(prod := PCopy(src, n, n, |taken|)))
    {
      hide IsCap;
      hide SlotsHold;
      hide ProducerOk;
      hide ConsumerOk;
      var i := 0;
      while i < n
        invariant i <= n
        invariant Inv(View().(prod := PCopy(src, n, i, |taken|)))
      {
        ghost var s := View().(prod := PCopy(src, n, i, |taken|));
        PushCopyKeeps(s);
        slots[(tail + i) % 0x1_0000_0000 % cap] := src[i];
        i := i + 1;
        assert View().(prod := PCopy(src, n, i, |taken|)) == Step(s, PushCopy);
      }
    }

    /** Reading both counters with nothing in between. */
    lemma PushBegins(src: seq<Frame>)
      requires Valid() && 0 < |src| < 0x8000_0000
      ensures var n := Min(|src|, FreeFrames(cap, head, tail));
        n == Min(|src|, cap - 1 - (|accepted| - |taken|)) && Inv(View().(prod := PCopy(src, n, 0, |taken|)))
    {
      var s := Step(View(), PushReadHead(src));
      SpaceIs(View());
      PushReadTailKeeps(s);
      assert Step(s, PushReadTail) == View().(prod := PCopy(src, Min(|src|, FreeFrames(cap, head, tail)), 0, |taken|));
    }

    /** `ca_ring_push`: takes as many frames as fit, from the front of `src`, and says how many. */
    method Push(src: seq<Frame>) returns (n: nat)
      requires Valid() && |src| < 0x8000_0000
      modifies this, slots
      ensures Valid() && slots == old(slots) && cap == old(cap)
      ensures n == Min(|src|, Capacity() - (|old(accepted)| - |old(taken)|))
      ensures accepted == old(accepted) + src[..n] && taken == old(taken)
    {
      if |src| == 0 { return 0; }
      PushBegins(src);
      var used := (tail - head) % 0x1_0000_0000;
      var free := (cap - 1 - used) % 0x1_0000_0000;
      assert free == FreeFrames(cap, head, tail);
      hide FreeFrames;
      hide IsCap;
      hide SlotsHold;
      hide ProducerOk;
      hide ConsumerOk;
      n := if |src| > free then free else |src|;
      CopyIn(src, n);
      ghost var s := View().(prod := PCopy(src, n, n, |taken|));
      PushPublishKeeps(s);
      tail := (tail + n) % 0x1_0000_0000;
      accepted := accepted + src[..n];
      assert View() == Step(s, PushPublish);
    }

    /** The drain loop of `ca_render_cb`. */
    method CopyOut(want: nat, take: nat) returns (out: seq<Frame>)
      requires cap == slots.Length && Inv(View().(cons := CCopy(want, take, 0, head)))
      ensures |out| == take
      ensures Inv(View().(cons := CCopy(want, take, take, head), taken := taken + out))
    {
      hide IsCap;
      hide SlotsHold;
      hide ProducerOk;
      out := [];
      var i := 0;
      assert taken + [] == taken;
      while i < take
        invariant i <= take && |out| == i
        invariant Inv(View().(cons := CCopy(want, take, i, head), taken := taken + out))
      {
        ghost var s := View().(cons := CCopy(want, take, i, head), taken := taken + out);
        RenderCopyKeeps(s);
        var frame := slots[(head + i) % 0x1_0000_0000 % cap];
        assert taken + (out + [frame]) == (taken + out) + [frame];
        out := out + [frame];
        i := i + 1;
        assert View().(cons := CCopy(want, take, i, head), taken := taken + out) == Step(s, RenderCopy);
      }
    }

    lemma RenderBegins(want: nat)
      requires Valid() && want < WRAP
      ensures var take := Min((tail - head) % 0x1_0000_0000, want);
        take == Min(want, |accepted| - |taken|) && Inv(View().(cons := CCopy(want, take, 0, head)))
    {
      var q := CapDividesWrap(cap);
      WrapDistance(|accepted|, |taken|);
      var s := Step(View(), RenderReadHead(want));
      RenderReadTailKeeps(s);
      assert Step(s, RenderReadTail) == View().(cons := CCopy(want, Min((tail - head) % 0x1_0000_0000, want), 0, head));
    }

    /** `ca_render_cb`: the oldest frames in order, then silence; an underrun when too few were there. */
    method Render(want: nat) returns (out: seq<Frame>, underrun: bool)
      requires Valid() && want < WRAP
      modifies this
      ensures Valid() && slots == old(slots) && cap == old(cap) && accepted == old(accepted)
      ensures |out| == want
      ensures var take := Min(want, |old(accepted)| - |old(taken)|);
        && taken == old(taken) + out[..take]
        && taken == accepted[..|old(taken)| + take]
        && (forall i | take <= i < want :: out[i] == Frame(0, 0))
        && (underrun <==> take < want)
    {
      RenderBegins(want);
      var avail := (tail - head) % 0x1_0000_0000;
      var take := if avail < want then avail else want;
      out := CopyOut(want, take);
      ghost var got := out;
      ghost var s := View().(cons := CCopy(want, take, take, head), taken := taken + got);
      RenderPublishKeeps(s);
      out := Silence(out, want);
      underrun := take < want;
      head := (head + take) % 0x1_0000_0000;
      taken := taken + got;
      assert View() == Step(s, RenderPublish);
    }

    /** Zero frames up to `want`. */
    static method Silence(got: seq<Frame>, want: nat) returns (out: seq<Frame>)
      requires |got| <= want
      ensures |out| == want && out[..|got|] == got
      ensures forall i | |got| <= i < want :: out[i] == Frame(0, 0)
    {
      out := got;
      var i := |got|;
      while i < want
        invariant |got| <= i <= want && |out| == i && out[..|got|] == got
        invariant forall j | |got| <= j < i :: out[j] == Frame(0, 0)
      {
        out := out + [Frame(0, 0)];
        i := i + 1;
      }
    }
  }
}
