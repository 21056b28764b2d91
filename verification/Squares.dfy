/**
 The message-port demo: the client sends n, the server answers n squared.

 The counters of every reachable state in closed form, hence no wrong reply and never
 more than one served request that the client has not yet counted.
 */
module Squares {
  import opened Rpc
  import opened Exec
  import RpcProgress
  import RpcSlices
  import Turns

  datatype World = World(n: int, value: int, result: int, served: nat, errors: nat, rounds: nat)

  /** The demo with any server: what it answers is left open, what the client does with it is not. */
  function With(answer: int -> int): App<World> {
    App([ (w: World) => w.(n := w.n + 1),
          (w: World) => w.(value := w.n),
          (w: World) => w.(result := -1) ],
        [ (w: World) => w.(result := answer(w.value)),
          (w: World) => w.(served := w.served + 1) ],
        [ (w: World) => if w.result != w.value * w.value then w.(errors := w.errors + 1) else w,
          (w: World) => w.(rounds := w.rounds + 1) ])
  }

  function Program(): App<World> { With(n => n * n) }

  const ZERO: World := World(0, 0, 0, 0, 0, 0)

  function Past(j: nat, k: nat): nat { if j >= k then 1 else 0 }

  /** How many of the requests 1 to `r` the server answers wrongly. */
  function Wrong(answer: int -> int, r: nat): nat {
    if r == 0 then 0 else Wrong(answer, r - 1) + if answer(r) != r * r then 1 else 0
  }

  function Answered(answer: int -> int, r: nat): int { if r == 0 then 0 else answer(r) }

  /** The world `j` steps into round `r`. */
  function Expected(answer: int -> int, r: nat, j: nat): World {
    World(r + Past(j, 1), r + Past(j, 2),
          if j < 3 then Answered(answer, r) else if j == 3 then -1 else Answered(answer, r + 1),
          r + Past(j, 5), Wrong(answer, r + Past(j, 6)), r + Past(j, 7))
  }

  lemma NextIs(answer: int -> int, r: nat, j: nat)
    requires j < 7
    ensures With(answer).All()[j](Expected(answer, r, j)) == Expected(answer, r, j + 1)
  {
  }

  lemma {:induction false} StepsAre(answer: int -> int, r: nat, j: nat)
    requires j <= 7
    ensures Steps(With(answer).All(), Expected(answer, r, 0), j) == Expected(answer, r, j)
  {
    if j > 0 {
      StepsAre(answer, r, j - 1);
      NextIs(answer, r, j - 1);
      hide Expected;
    }
  }

  lemma {:induction false} RoundsAre(answer: int -> int, r: nat)
    ensures Rounds(With(answer), ZERO, r) == Expected(answer, r, 0)
  {
    if r > 0 {
      RoundsAre(answer, r - 1);
      StepsAre(answer, r - 1, 7);
      assert Expected(answer, r - 1, 7) == Expected(answer, r, 0);
      hide Expected;
    }
  }

  /** Whatever the server answers and whatever the schedule: the client has counted exactly the wrong replies. */
  lemma ErrorsAreWrongReplies(answer: int -> int, reqBit: nat, replyBit: nat, pris: seq<int>, es: seq<Event>,
                              limit: nat)
    requires |pris| == 3
    requires var ports := PortsOf(reqBit, replyBit);
      ValidEvents(With(answer), ports, Start(ports, pris, ZERO), es, limit)
    ensures var ports := PortsOf(reqBit, replyBit);
      var d := Played(With(answer), ports, Start(ports, pris, ZERO), es, limit);
      && d.world == Expected(answer, d.round, d.done) && d.done <= 7
      && d.world.errors == Wrong(answer, d.round + Past(d.done, 6))
      && 0 <= d.world.served - d.world.rounds <= 1
      && |d.ps.ops| == 3 && |d.ps.queues| == 2 && Places(d) == 1
  {
    hide Played;
    hide ValidEvents;
    hide Start;
    hide Expected;
    hide Wrong;
    hide Places;
    Sequential(With(answer), reqBit, replyBit, pris, ZERO, es, limit);
    var ports := PortsOf(reqBit, replyBit);
    var d := Played(With(answer), ports, Start(ports, pris, ZERO), es, limit);
    assert |With(answer).All()| == 7;
    hide With;
    RoundsAre(answer, d.round);
    StepsAre(answer, d.round, d.done);
    ExpectedCounts(answer, d.round, d.done);
  }

  lemma ExpectedCounts(answer: int -> int, r: nat, j: nat)
    requires j <= 7
    ensures var w := Expected(answer, r, j);
      w.errors == Wrong(answer, r + Past(j, 6)) && 0 <= w.served - w.rounds <= 1
  {
  }

  lemma {:induction false} SquaresAreRight(r: nat)
    ensures Wrong(n => n * n, r) == 0
  {
    if r > 0 { SquaresAreRight(r - 1); }
  }

  /** Whatever the schedule: no wrong reply, and `g_served - g_rounds` is 0 or 1. */
  lemma NoWrongReply(reqBit: nat, replyBit: nat, pris: seq<int>, es: seq<Event>, limit: nat)
    requires |pris| == 3
    requires var ports := PortsOf(reqBit, replyBit);
      ValidEvents(Program(), ports, Start(ports, pris, ZERO), es, limit)
    ensures var ports := PortsOf(reqBit, replyBit);
      var d := Played(Program(), ports, Start(ports, pris, ZERO), es, limit);
      && d.done <= 7 && d.world.errors == 0
      && d.world.rounds == d.round + Past(d.done, 7)
      && 0 <= d.world.served - d.world.rounds <= 1
      && |d.ps.ops| == 3 && |d.ps.queues| == 2 && Places(d) == 1
  {
    ErrorsAreWrongReplies(n => n * n, reqBit, replyBit, pris, es, limit);
    var ports := PortsOf(reqBit, replyBit);
    var d := Played(Program(), ports, Start(ports, pris, ZERO), es, limit);
    SquaresAreRight(d.round + Past(d.done, 6));
  }

  /** Every 7680 ticks bring a right reply, under every schedule in which a tick is followed by a step. */
  lemma RightReplies(reqBit: nat, replyBit: nat, pris: seq<int>, es: seq<Event>, limit: nat)
    requires |pris| == 3 && RpcProgress.Fair(pris) && Turns.Paced(es, Alarm) && Turns.Ticks(es, Alarm) + 2 < limit
    requires var ports := PortsOf(reqBit, replyBit);
      ValidEvents(Program(), ports, Start(ports, pris, ZERO), [Alarm, Alarm] + es, limit)
    ensures var ports := PortsOf(reqBit, replyBit);
      var w := Played(Program(), ports, Start(ports, pris, ZERO), [Alarm, Alarm] + es, limit).world;
      Turns.Ticks(es, Alarm) < 7680 * (w.rounds + 1) && w.errors == 0
  {
    RpcProgress.RoundsFromStart(Program(), reqBit, replyBit, pris, ZERO, es, limit);
    NoWrongReply(reqBit, replyBit, pris, [Alarm, Alarm] + es, limit);
  }

  const TICK_LIMIT: nat := 500

  /**
   The demo's own check: at the tick limit there are at least 20 round trips (indeed 123) and no
   wrong reply, if the dispatched task gets 15360 steps between ticks.
   */
  lemma EnoughRoundTrips(reqBit: nat, replyBit: nat, pris: seq<int>, first: nat, ks: seq<nat>)
    requires |pris| == 3 && RpcProgress.Fair(pris)
    requires first >= 15360 && (forall i | 0 <= i < |ks| :: ks[i] >= 15360) && |ks| + 3 == TICK_LIMIT
    ensures var ports := PortsOf(reqBit, replyBit);
      var es := [Alarm, Alarm] + (RpcSlices.Gos(first) + RpcSlices.Slices(ks));
      && ValidEvents(Program(), ports, Start(ports, pris, ZERO), es, TICK_LIMIT)
      && var w := Played(Program(), ports, Start(ports, pris, ZERO), es, TICK_LIMIT).world;
         w.rounds >= 123 && w.errors == 0
  {
    RpcSlices.LongSlicesFromStart(Program(), reqBit, replyBit, pris, ZERO, first, ks, TICK_LIMIT);
    NoWrongReply(reqBit, replyBit, pris, [Alarm, Alarm] + (RpcSlices.Gos(first) + RpcSlices.Slices(ks)), TICK_LIMIT);
  }
}
