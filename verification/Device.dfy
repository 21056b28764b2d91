/**
 The device backed by a file: `DoIO` over message ports.

 The k-th system call transfers what `io(k)` allows, or fails when it is negative.  The
 client's error counter is then exactly the number of calls that fell short of a full
 buffer: the compare of what was read with what was written never adds to it.
 */
module Device {
  import opened Numbers
  import opened Rpc
  import opened Exec
  import RpcProgress
  import RpcSlices

  const BUFSZ: nat := 128

  type Bytes = seq<int>

  datatype Command = CmdRead | CmdWrite

  /** Which `DoIO` of its loop the client is at. */
  datatype Phase = Writing | Reading

  datatype World = World(file: Bytes, wbuf: Bytes, rbuf: Bytes, command: Command, result: int, actual: nat, error: int,
                         phase: Phase, round: nat, calls: nat, rounds: nat, errors: nat, lastPat: nat)

  function Fill(n: nat, x: int): (s: Bytes)
    ensures |s| == n && forall i | 0 <= i < n :: s[i] == x
  {
    seq(n, i => x)
  }

  /** `pwrite` at offset 0. */
  function Written(file: Bytes, data: Bytes): Bytes {
    if |data| < |file| then data + file[|data|..] else data
  }

  /** The device task's system call: bytes moved, or -1. */
  function Transfer(io: nat -> int, w: World): World {
    if io(w.calls) < 0 then w.(result := -1)
    else if w.command.CmdWrite? then
      var n := Min(io(w.calls), |w.wbuf|);
      w.(file := Written(w.file, w.wbuf[..n]), result := n)
    else
      var n := Min(io(w.calls), Min(|w.rbuf|, |w.file|));
      w.(rbuf := w.file[..n] + w.rbuf[n..], result := n)
  }

  /** The client between a reply and its next request. */
  function Checked(w: World): World {
    var w := w.(calls := w.calls + 1);
    if w.error != 0 then w.(errors := w.errors + 1, phase := Writing)
    else if w.phase.Writing? then w.(phase := Reading)
    else
      w.(errors := if w.wbuf != w.rbuf then w.errors + 1 else w.errors, lastPat := w.round % 256,
         rounds := w.rounds + 1,
         phase := Writing)
  }

  function Program(io: nat -> int): App<World> {
    App([ (w: World) => if w.phase.Writing? then w.(round := w.round + 1, wbuf := Fill(BUFSZ, (w.round + 1) % 256))
                        else w.(rbuf := Fill(BUFSZ, 0)),
          (w: World) => w.(command := if w.phase.Writing? then CmdWrite else CmdRead) ],
        [ (w: World) => Transfer(io, w),
          (w: World) => w.(actual := if w.result < 0 then 0 else w.result),
          (w: World) => w.(error := if w.result == BUFSZ then 0 else -1) ],
        [ (w: World) => Checked(w) ])
  }

  /** A transfer moves the bytes from offset 0 that the system allows, and reports how many; the rest stays. */
  lemma TransferMoves(io: nat -> int, w: World, x: nat)
    requires io(w.calls) >= 0
    ensures var r := Transfer(io, w);
      var n := r.result;
      && 0 <= n <= io(w.calls)
      && (w.command.CmdWrite? ==>
            && n == Min(io(w.calls), |w.wbuf|) && r.rbuf == w.rbuf
            && |r.file| == (if |w.file| < n then n else |w.file|)
            && (x < |r.file| ==> r.file[x] == if x < n then w.wbuf[x] else w.file[x]))
      && (w.command.CmdRead? ==>
            && n == Min(io(w.calls), Min(|w.rbuf|, |w.file|)) && r.file == w.file
            && |r.rbuf| == |w.rbuf|
            && (x < |r.rbuf| ==> r.rbuf[x] == if x < n then w.file[x] else w.rbuf[x]))
  {
  }

  /** What the client makes of a reply: an error for a failed call, and for a read that differs in some byte. */
  lemma ReplyIsJudged(w: World)
    requires |w.wbuf| == |w.rbuf|
    ensures var r := Checked(w);
      && r.calls == w.calls + 1
      && (w.error != 0 ==> r.errors == w.errors + 1 && r.rounds == w.rounds && r.phase.Writing?)
      && (w.error == 0 && w.phase.Writing? ==> r.errors == w.errors && r.rounds == w.rounds && r.phase.Reading?)
      && (w.error == 0 && w.phase.Reading? ==>
            && r.rounds == w.rounds + 1 && r.phase.Writing?
            && (r.errors == w.errors + 1 <==> exists i :: 0 <= i < |w.wbuf| && w.wbuf[i] != w.rbuf[i])
            && (r.errors == w.errors <==> forall i | 0 <= i < |w.wbuf| :: w.wbuf[i] == w.rbuf[i]))
  {
    if w.wbuf != w.rbuf {
      var i :| 0 <= i < |w.wbuf| && w.wbuf[i] != w.rbuf[i];
    }
  }

  const INITIAL: World := World([], Fill(BUFSZ, 0), Fill(BUFSZ, 0), CmdRead, 0, 0, 0, Writing, 0, 0, 0, 0, 0)

  /** System calls among the first `n` that did not move a whole buffer. */
  ghost function Short(io: nat -> int, n: nat): nat {
    if n == 0 then 0 else Short(io, n - 1) + if io(n - 1) < BUFSZ then 1 else 0
  }

  predicate Landed(w: World) {
    w.wbuf <= w.file
  }

  /** What holds `j` steps into a `DoIO`: the request's progress, the file and the counter. */
  ghost predicate Holds(io: nat -> int, w: World, j: nat) {
    && |w.wbuf| == |w.rbuf| == BUFSZ
    && w.errors == Short(io, w.calls)
    && (w.phase.Reading? ==> Landed(w))
    && (j >= 2 ==> w.command == if w.phase.Writing? then CmdWrite else CmdRead)
    && (j >= 3 ==> (w.result == BUFSZ <==> io(w.calls) >= BUFSZ))
    && (j >= 3 && w.result == BUFSZ ==> Landed(w) && (w.phase.Reading? ==> w.rbuf == w.wbuf))
    && (j >= 4 ==> w.actual == if w.result < 0 then 0 else w.result)
    && (j >= 5 ==> (w.error == 0 <==> w.result == BUFSZ))
  }

  lemma TransferHolds(io: nat -> int, w: World)
    requires Holds(io, w, 2)
    ensures Holds(io, Transfer(io, w), 3)
  {
    if w.command.CmdWrite? {
      if io(w.calls) >= BUFSZ { assert w.wbuf[..BUFSZ] == w.wbuf; }
    } else {
      assert w.file[..BUFSZ] == w.wbuf;
      if io(w.calls) >= BUFSZ { assert w.rbuf[BUFSZ..] == []; }
    }
  }

  lemma NextHolds(io: nat -> int, w: World, j: nat)
    requires j < 6 && Holds(io, w, j)
    ensures Holds(io, Program(io).All()[j](w), if j == 5 then 0 else j + 1)
  {
    if j == 2 { TransferHolds(io, w); }
  }

  lemma {:induction false} StepsHold(io: nat -> int, w: World, j: nat)
    requires j <= 6 && Holds(io, w, 0)
    ensures Holds(io, Steps(Program(io).All(), w, j), if j == 6 then 0 else j)
  {
    if j > 0 {
      StepsHold(io, w, j - 1);
      NextHolds(io, Steps(Program(io).All(), w, j - 1), j - 1);
    }
  }

  lemma {:induction false} RoundsHold(io: nat -> int, r: nat)
    ensures Holds(io, Rounds(Program(io), INITIAL, r), 0)
  {
    if r > 0 {
      RoundsHold(io, r - 1);
      StepsHold(io, Rounds(Program(io), INITIAL, r - 1), 6);
    }
  }

  lemma {:induction false} ShortIsZero(io: nat -> int, n: nat)
    ensures Short(io, n) == 0 <==> forall k | 0 <= k < n :: io(k) >= BUFSZ
  {
    if n > 0 { ShortIsZero(io, n - 1); }
  }

  /**
   Under every schedule `DoIO` is one `pwrite` or `pread` (the world is the sequential
   program's), and the client has counted an error exactly when a transfer fell short.
   */
  lemma ErrorsAreShortTransfers(io: nat -> int, reqBit: nat, replyBit: nat, pris: seq<int>, es: seq<Event>, limit: nat)
    requires |pris| == 3
    requires var ports := PortsOf(reqBit, replyBit);
      ValidEvents(Program(io), ports, Start(ports, pris, INITIAL), es, limit)
    ensures var ports := PortsOf(reqBit, replyBit);
      var d := Played(Program(io), ports, Start(ports, pris, INITIAL), es, limit);
      && d.done <= 6
      && d.world == Steps(Program(io).All(), Rounds(Program(io), INITIAL, d.round), d.done)
      && d.world.errors == Short(io, d.world.calls)
      && (d.world.errors == 0 <==> forall k | 0 <= k < d.world.calls :: io(k) >= BUFSZ)
  {
    Sequential(Program(io), reqBit, replyBit, pris, INITIAL, es, limit);
    var d := Played(Program(io), PortsOf(reqBit, replyBit), Start(PortsOf(reqBit, replyBit), pris, INITIAL), es, limit);
    RoundsHold(io, d.round);
    StepsHold(io, Rounds(Program(io), INITIAL, d.round), d.done);
    ShortIsZero(io, d.world.calls);
  }

  /**
   A first transfer that falls short: whatever the schedule, the client has counted one error by
   the time it has one reply.
   */
  lemma ShortTransferIsCounted(io: nat -> int, reqBit: nat, replyBit: nat, pris: seq<int>, es: seq<Event>, limit: nat)
    requires |pris| == 3 && io(0) < BUFSZ
    requires var ports := PortsOf(reqBit, replyBit);
      ValidEvents(Program(io), ports, Start(ports, pris, INITIAL), es, limit)
    ensures var ports := PortsOf(reqBit, replyBit);
      var d := Played(Program(io), ports, Start(ports, pris, INITIAL), es, limit);
      && (d.world.calls >= 1 ==> d.world.errors >= 1)
      && (d.world.calls == 1 ==> d.world.errors == 1)
  {
    ErrorsAreShortTransfers(io, reqBit, replyBit, pris, es, limit);
    var d := Played(Program(io), PortsOf(reqBit, replyBit), Start(PortsOf(reqBit, replyBit), pris, INITIAL), es, limit);
    assert Short(io, 1) == Short(io, 0) + 1;
  }

  /** One round of the sequential program over such a transfer: the reply counts one error. */
  lemma ShortRound(io: nat -> int)
    requires io(0) < BUFSZ
    ensures Rounds(Program(io), INITIAL, 1).errors == 1 && Rounds(Program(io), INITIAL, 1).calls == 1
  {
    var w, ops := INITIAL, Program(io).All();
    assert Rounds(Program(io), w, 0) == w;
    OneCall(io, w, 6);
    RoundsHold(io, 1);
    assert Short(io, 1) == Short(io, 0) + 1;
  }

  /** The call counter moves with the client's check, the last step of a round. */
  lemma {:induction false} OneCall(io: nat -> int, w: World, j: nat)
    requires j <= 6
    ensures Steps(Program(io).All(), w, j).calls == if j == 6 then w.calls + 1 else w.calls
  {
    if j > 0 { OneCall(io, w, j - 1); }
  }

  lemma {:induction false} CallsAre(io: nat -> int, r: nat)
    ensures Rounds(Program(io), INITIAL, r).calls == r
  {
    if r > 0 {
      CallsAre(io, r - 1);
      OneCall(io, Rounds(Program(io), INITIAL, r - 1), 6);
    }
  }

  /** A run that counts the error: the first transfer falls short, and some schedule brings the client to one reply. */
  lemma ShortTransferRun(io: nat -> int, reqBit: nat, replyBit: nat, pris: seq<int>)
    returns (es: seq<Event>, limit: nat)
    requires |pris| == 3 && RpcProgress.Fair(pris) && io(0) < BUFSZ
    ensures var ports := PortsOf(reqBit, replyBit);
      && ValidEvents(Program(io), ports, Start(ports, pris, INITIAL), es, limit)
      && var w := Played(Program(io), ports, Start(ports, pris, INITIAL), es, limit).world;
         w.calls == 1 && w.errors == 1
  {
    es, limit := RpcProgress.RoundsAreReached(Program(io), reqBit, replyBit, pris, INITIAL, 1);
    ErrorsAreShortTransfers(io, reqBit, replyBit, pris, es, limit);
    CallsAre(io, 1);
    assert Short(io, 1) == Short(io, 0) + 1;
  }

  /** Without errors a write and a read make a round. */
  predicate Paired(w: World) {
    w.errors == 0 ==> w.calls == 2 * w.rounds + One(w.phase.Reading?)
  }

  lemma {:induction false} StepsPair(io: nat -> int, w: World, j: nat)
    requires j <= 6 && Paired(w)
    ensures Paired(Steps(Program(io).All(), w, j))
  {
    if j > 0 { StepsPair(io, w, j - 1); }
  }

  lemma {:induction false} RoundsPair(io: nat -> int, r: nat)
    ensures Paired(Rounds(Program(io), INITIAL, r))
  {
    if r > 0 {
      RoundsPair(io, r - 1);
      StepsPair(io, Rounds(Program(io), INITIAL, r - 1), 6);
    }
  }

  const TICK_LIMIT: nat := 500

  /**
   The demo's own check: at the tick limit there are at least 20 write-read rounds (indeed 61) and
   no error, if every transfer is whole and the dispatched task gets 14080 steps between ticks.
   */
  lemma EnoughRounds(io: nat -> int, reqBit: nat, replyBit: nat, pris: seq<int>, first: nat, ks: seq<nat>)
    requires |pris| == 3 && RpcProgress.Fair(pris) && forall k :: io(k) >= BUFSZ
    requires first >= 14080 && (forall i | 0 <= i < |ks| :: ks[i] >= 14080) && |ks| + 3 == TICK_LIMIT
    ensures var ports := PortsOf(reqBit, replyBit);
      var es := [Alarm, Alarm] + (RpcSlices.Gos(first) + RpcSlices.Slices(ks));
      && ValidEvents(Program(io), ports, Start(ports, pris, INITIAL), es, TICK_LIMIT)
      && var w := Played(Program(io), ports, Start(ports, pris, INITIAL), es, TICK_LIMIT).world;
         w.rounds >= 61 && w.errors == 0
  {
    var ports := PortsOf(reqBit, replyBit);
    var es := [Alarm, Alarm] + (RpcSlices.Gos(first) + RpcSlices.Slices(ks));
    RpcSlices.LongSlicesFromStart(Program(io), reqBit, replyBit, pris, INITIAL, first, ks, TICK_LIMIT);
    ErrorsAreShortTransfers(io, reqBit, replyBit, pris, es, TICK_LIMIT);
    var d := Played(Program(io), ports, Start(ports, pris, INITIAL), es, TICK_LIMIT);
    CallsAre(io, d.round);
    OneCall(io, Rounds(Program(io), INITIAL, d.round), d.done);
    RoundsPair(io, d.round);
    StepsPair(io, Rounds(Program(io), INITIAL, d.round), d.done);
  }

  // -------------------------------------------------------- the re-read after the stop

  /** With whole transfers, `j` steps into a `DoIO`: the pattern at the front of the file. */
  ghost predicate Stored(w: World, j: nat) {
    var begun := w.phase.Reading? || j >= 1;
    var landed := w.phase.Reading? || j >= 3;
    && |w.wbuf| == |w.rbuf| == BUFSZ && w.error == 0
    && w.round == w.rounds + One(begun) && w.lastPat == w.rounds % 256
    && (begun ==> w.wbuf == Fill(BUFSZ, w.round % 256))
    && (j >= 2 ==> w.command == if w.phase.Writing? then CmdWrite else CmdRead)
    && (j >= 3 ==> w.result == BUFSZ)
    && (if landed then Fill(BUFSZ, w.round % 256) <= w.file
        else if w.rounds > 0 then Fill(BUFSZ, w.rounds % 256) <= w.file
        else w.file == [])
  }

  lemma NextStored(io: nat -> int, w: World, j: nat)
    requires j < 6 && Stored(w, j) && io(w.calls) >= BUFSZ
    ensures Stored(Program(io).All()[j](w), if j == 5 then 0 else j + 1)
  {
    if j == 2 && w.command.CmdWrite? { assert w.wbuf[..BUFSZ] == w.wbuf; }
    if j == 2 && w.command.CmdRead? { assert w.rbuf[BUFSZ..] == []; }
  }

  lemma {:induction false} StepsStored(io: nat -> int, w: World, j: nat)
    requires j <= 6 && Stored(w, 0) && forall k :: io(k) >= BUFSZ
    ensures Stored(Steps(Program(io).All(), w, j), if j == 6 then 0 else j)
  {
    if j > 0 {
      StepsStored(io, w, j - 1);
      NextStored(io, Steps(Program(io).All(), w, j - 1), j - 1);
    }
  }

  lemma {:induction false} RoundsStored(io: nat -> int, r: nat)
    requires forall k :: io(k) >= BUFSZ
    ensures Stored(Rounds(Program(io), INITIAL, r), 0)
  {
    if r > 0 {
      RoundsStored(io, r - 1);
      StepsStored(io, Rounds(Program(io), INITIAL, r - 1), 6);
    }
  }

  /** What `main` compares after the stop: the front of the file against the last verified pattern. */
  predicate Match(w: World) {
    |w.file| >= BUFSZ && forall i | 0 <= i < BUFSZ :: w.file[i] == w.lastPat
  }

  lemma MatchIs(w: World, x: int)
    requires Fill(BUFSZ, x) <= w.file
    ensures Match(w) <==> w.lastPat == x
  {
    assert w.file[0] == x;
  }

  lemma StoredMatch(w: World, j: nat)
    requires Stored(w, j)
    ensures Match(w) <==> w.rounds >= 1 && w.phase.Writing? && j < 3
  {
    if w.phase.Reading? || j >= 3 {
      MatchIs(w, w.round % 256);
    } else if w.rounds > 0 {
      MatchIs(w, w.rounds % 256);
    }
  }

  /**
   At any stop, with whole transfers: the re-read matches exactly when a round has been verified
   and the next pattern is not yet written.
   */
  lemma MatchIff(io: nat -> int, reqBit: nat, replyBit: nat, pris: seq<int>, es: seq<Event>, limit: nat)
    requires |pris| == 3 && forall k :: io(k) >= BUFSZ
    requires var ports := PortsOf(reqBit, replyBit);
      ValidEvents(Program(io), ports, Start(ports, pris, INITIAL), es, limit)
    ensures var ports := PortsOf(reqBit, replyBit);
      var d := Played(Program(io), ports, Start(ports, pris, INITIAL), es, limit);
      Match(d.world) <==> d.world.rounds >= 1 && d.world.phase.Writing? && (d.done < 3 || d.done == 6)
  {
    Sequential(Program(io), reqBit, replyBit, pris, INITIAL, es, limit);
    var ports := PortsOf(reqBit, replyBit);
    var d := Played(Program(io), ports, Start(ports, pris, INITIAL), es, limit);
    RoundsStored(io, d.round);
    StepsStored(io, Rounds(Program(io), INITIAL, d.round), d.done);
    StoredMatch(d.world, if d.done == 6 then 0 else d.done);
    hide *;
  }

  /** A run that stops inside the second round, after its write: the re-read does not match. */
  lemma MismatchRun(io: nat -> int, reqBit: nat, replyBit: nat, pris: seq<int>)
    returns (es: seq<Event>, limit: nat)
    requires |pris| == 3 && RpcProgress.Fair(pris) && forall k :: io(k) >= BUFSZ
    ensures var ports := PortsOf(reqBit, replyBit);
      && ValidEvents(Program(io), ports, Start(ports, pris, INITIAL), es, limit)
      && var w := Played(Program(io), ports, Start(ports, pris, INITIAL), es, limit).world;
         w.rounds == 1 && w.errors == 0 && !Match(w)
  {
    es, limit := RpcProgress.RoundsAreReached(Program(io), reqBit, replyBit, pris, INITIAL, 3);
    ErrorsAreShortTransfers(io, reqBit, replyBit, pris, es, limit);
    MatchIff(io, reqBit, replyBit, pris, es, limit);
    CallsAre(io, 3);
    RoundsPair(io, 3);
  }
}
