/**
 The producer/consumer ping-pong run on `Wait` and `Signal`, with a third task that never
 blocks, under every preemption schedule and for any priorities.

 A token is in exactly one of four places: with the producer, as a pending DATA bit, with
 the consumer, or as a pending ACK bit.  Lock step and freedom from deadlock follow.
 */
module PingPong {
  import opened Exec
  import opened Numbers
  import opened Signals
  import RoundRobin

  const PRODUCER: nat := 0
  const CONSUMER: nat := 1
  const DATA: nat := 0
  const ACK: nat := 1

  /** What a task does next once its current call has returned. */
  datatype Next = DoSignal | DoCount | DoWait

  datatype Demo = Demo(s: Signals.State, producer: Next, consumer: Next, produced: nat, consumed: nat)

  datatype Event = Alarm | Go

  ghost predicate Can(d: Demo, e: Event) {
    && Wfs(d.s) && |d.s.calls| == 3
    && (e.Go? ==> d.s.k.cur != BOOT && (Mine(d.s).User? || Enabled(d.s, Advance)))
  }

  ghost function Do(d: Demo, e: Event, limit: nat): Demo
    requires Can(d, e)
  {
    if e.Alarm? then d.(s := Step(d.s, Tick, limit))
    else if !Mine(d.s).User? then d.(s := Step(d.s, Advance, limit))
    else if d.s.k.cur == PRODUCER then Produce(d)
    else if d.s.k.cur == CONSUMER then Consume(d)
    else d
  }

  ghost function Produce(d: Demo): Demo
    requires Wfs(d.s) && |d.s.calls| == 3 && d.s.k.cur == PRODUCER && Mine(d.s).User?
  {
    match d.producer
    case DoSignal => d.(s := Step(d.s, CallSignal(CONSUMER, {DATA}), 0), producer := DoCount)
    case DoCount => d.(produced := d.produced + 1, producer := DoWait)
    case DoWait => d.(s := Step(d.s, CallWait({ACK}), 0), producer := DoSignal)
  }

  ghost function Consume(d: Demo): Demo
    requires Wfs(d.s) && |d.s.calls| == 3 && d.s.k.cur == CONSUMER && Mine(d.s).User?
  {
    match d.consumer
    case DoWait => d.(s := Step(d.s, CallWait({DATA}), 0), consumer := DoCount)
    case DoCount => d.(consumed := d.consumed + 1, consumer := DoSignal)
    case DoSignal => d.(s := Step(d.s, CallSignal(PRODUCER, {ACK}), 0), consumer := DoWait)
  }

  // -------------------------------------------------------------------- the token

  predicate Shapes(d: Demo)
    requires |d.s.calls| == 3
  {
    var p, c := d.s.calls[PRODUCER], d.s.calls[CONSUMER];
    && d.s.calls[2].User?
    && match d.producer {
         case DoSignal => p.User? || InWait(p, {ACK})
         case DoCount => p.User? || p == SignalDone(0) || Posting(p, CONSUMER, {DATA})
         case DoWait => p.User?
       }
    && match d.consumer {
         case DoWait => c.User? || c == SignalDone(0) || Posting(c, PRODUCER, {ACK})
         case DoCount => c.User? || InWait(c, {DATA})
         case DoSignal => c.User?
       }
  }

  predicate WithProducer(d: Demo)
    requires |d.s.calls| == 3
  {
    var p := d.s.calls[PRODUCER];
    (d.producer.DoSignal? && (p.User? || p.WaitDone?)) || p.SignalEnter? || p.SignalPost?
  }

  predicate WithConsumer(d: Demo)
    requires |d.s.calls| == 3
  {
    var c := d.s.calls[CONSUMER];
    (d.consumer.DoCount? && (c.User? || c.WaitDone?)) || d.consumer.DoSignal? || c.SignalEnter? || c.SignalPost?
  }

  predicate Pending(d: Demo, t: nat, b: nat)
    requires |d.s.k.tasks| == 3 && t < 3
  {
    b in d.s.k.tasks[t].recvd
  }

  /** How many tokens there are. */
  function Tokens(d: Demo): nat
    requires |d.s.calls| == |d.s.k.tasks| == 3
  {
    One(WithProducer(d)) + One(Pending(d, CONSUMER, DATA)) + One(WithConsumer(d)) + One(Pending(d, PRODUCER, ACK))
  }

  /** DATA posted and DATA taken, read off the counters and the program points. */
  function Sent(d: Demo): nat
    requires |d.s.calls| == 3
  {
    var p := d.s.calls[PRODUCER];
    d.produced + One(d.producer.DoCount? && !p.SignalEnter? && !p.SignalPost?)
  }

  function Taken(d: Demo): nat
    requires |d.s.calls| == 3
  {
    var c := d.s.calls[CONSUMER];
    d.consumed + One(d.consumer.DoCount? && (c.User? || c.WaitDone?))
  }

  ghost predicate Good(d: Demo) {
    && Inv(d.s) && |d.s.calls| == 3 && Shapes(d)
    && Tokens(d) == 1
    && Sent(d) == Taken(d) + One(Pending(d, CONSUMER, DATA))
  }

  lemma AlarmGood(d: Demo, limit: nat)
    requires Good(d)
    ensures Good(Do(d, Alarm, limit))
  {
    TickKeeps(d.s, limit);
    BitsConserved(d.s, Tick, limit, CONSUMER, DATA);
    BitsConserved(d.s, Tick, limit, PRODUCER, ACK);
  }

  lemma ProgramGood(d: Demo, limit: nat)
    requires Good(d) && d.s.k.cur != BOOT && Mine(d.s).User?
    ensures Good(Do(d, Go, limit))
  {
    if d.s.k.cur == PRODUCER && d.producer.DoSignal? {
      StepKeeps(d.s, CallSignal(CONSUMER, {DATA}), 0);
    } else if d.s.k.cur == PRODUCER && d.producer.DoWait? {
      StepKeeps(d.s, CallWait({ACK}), 0);
    } else if d.s.k.cur == CONSUMER && d.consumer.DoWait? {
      StepKeeps(d.s, CallWait({DATA}), 0);
    } else if d.s.k.cur == CONSUMER && d.consumer.DoSignal? {
      StepKeeps(d.s, CallSignal(PRODUCER, {ACK}), 0);
    }
  }

  lemma ProducerAdvances(d: Demo, limit: nat)
    requires Good(d) && Enabled(d.s, Advance) && d.s.k.cur == PRODUCER
    ensures Good(Do(d, Go, limit))
  {
    StepKeeps(d.s, Advance, limit);
    AdvanceEffect(d.s, limit);
    BitsConserved(d.s, Advance, limit, CONSUMER, DATA);
    BitsConserved(d.s, Advance, limit, PRODUCER, ACK);
    assert TaskOk(d.s.k.tasks[PRODUCER], d.s.calls[PRODUCER]);
    hide Step;
    hide Inv;
  }

  lemma ConsumerAdvances(d: Demo, limit: nat)
    requires Good(d) && Enabled(d.s, Advance) && d.s.k.cur == CONSUMER
    ensures Good(Do(d, Go, limit))
  {
    StepKeeps(d.s, Advance, limit);
    AdvanceEffect(d.s, limit);
    BitsConserved(d.s, Advance, limit, CONSUMER, DATA);
    BitsConserved(d.s, Advance, limit, PRODUCER, ACK);
    assert TaskOk(d.s.k.tasks[CONSUMER], d.s.calls[CONSUMER]);
    hide Step;
    hide Inv;
  }

  ghost predicate ValidEvents(d: Demo, es: seq<Event>, limit: nat)
    decreases |es|
  {
    es == [] || (Can(d, es[0]) && ValidEvents(Do(d, es[0], limit), es[1..], limit))
  }

  ghost function Played(d: Demo, es: seq<Event>, limit: nat): Demo
    requires ValidEvents(d, es, limit)
    decreases |es|
  {
    if es == [] then d else Played(Do(d, es[0], limit), es[1..], limit)
  }

  lemma {:induction false} PlayedGood(d: Demo, es: seq<Event>, limit: nat)
    requires Good(d) && ValidEvents(d, es, limit)
    ensures Good(Played(d, es, limit))
    decreases |es|
  {
    if es != [] {
      if es[0].Alarm? { AlarmGood(d, limit); }
      else if Mine(d.s).User? { ProgramGood(d, limit); }
      else if d.s.k.cur == PRODUCER { ProducerAdvances(d, limit); }
      else { ConsumerAdvances(d, limit); }
      PlayedGood(Do(d, es[0], limit), es[1..], limit);
    }
  }

  /** The running task always has a next step. */
  lemma NeverStuck(d: Demo)
    requires Good(d) && d.s.k.cur != BOOT
    ensures Can(d, Go)
  {
    assert SignalsInside(d.s.calls[d.s.k.cur], 3);
  }

  /** `main`: three spawned tasks, both lists set up, no signal pending. */
  ghost function Start(pris: seq<int>): Demo {
    Demo(Fresh(RoundRobin.Initial(pris)), DoSignal, DoWait, 0, 0)
  }

  lemma StartGood(pris: seq<int>)
    requires |pris| == 3
    ensures Good(Start(pris))
  {
    RoundRobin.InitialSound(pris);
    FreshOk(RoundRobin.Initial(pris));
  }

  /** In every reachable state: one token, counts at most one apart, never both blocked. */
  lemma LockStep(pris: seq<int>, es: seq<Event>, limit: nat)
    requires |pris| == 3 && ValidEvents(Start(pris), es, limit)
    ensures var d := Played(Start(pris), es, limit);
      && |d.s.calls| == |d.s.k.tasks| == 3
      && Tokens(d) == 1
      && -1 <= d.produced - d.consumed <= 1
      && !(d.s.k.tasks[PRODUCER].state == Wait && d.s.k.tasks[CONSUMER].state == Wait)
      && (d.s.k.on ==> !(PRODUCER in d.s.k.waiting && CONSUMER in d.s.k.waiting))
  {
    StartGood(pris);
    PlayedGood(Start(pris), es, limit);
    var d := Played(Start(pris), es, limit);
    assert TaskOk(d.s.k.tasks[PRODUCER], d.s.calls[PRODUCER]);
    assert TaskOk(d.s.k.tasks[CONSUMER], d.s.calls[CONSUMER]);
    assert Listed(d.s.k, PRODUCER) && Listed(d.s.k, CONSUMER);
  }
}
