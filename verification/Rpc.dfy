/**
 One client and one server on two message ports, with a third task that never blocks:
 the loop shared by the message-port demo and the file device.

 What the two programs compute is left open as an `App`: the client's steps before it
 sends, the server's steps on the request, the client's steps after the reply.  Under
 every preemption schedule the request is in exactly one place, the two never sleep at
 once, and the data are always those of the sequential program that runs the three groups
 of steps in turn.
 */
module Rpc {
  import opened Exec
  import opened Numbers
  import opened Ports
  import Signals
  import RoundRobin

  const SERVER: nat := 0
  const CLIENT: nat := 1
  const REQ: nat := 0
  const REPLY: nat := 1

  /** The request's number; there is one, reused each round. */
  const MSG: nat := 0

  datatype App<!W> = App(pre: seq<W -> W>, serve: seq<W -> W>, post: seq<W -> W>) {
    function All(): seq<W -> W> { pre + serve + post }
  }

  datatype ClientPc = Pre(i: nat) | Sending | Receiving | Getting | After(i: nat)

  datatype ServerPc = Starting | Heard | Taking | Serving(i: nat) | Replying

  /** `round` and `done` count the program steps: whole rounds, and steps into the current one. */
  datatype Demo<!W> = Demo(ps: Ports.State, client: ClientPc, server: ServerPc, world: W, round: nat, done: nat)

  datatype Event = Alarm | Go

  /** `NewPort(&req_port, t_server, ...)` and `NewPort(&reply_port, t_client, ...)`, for any two bits. */
  function PortsOf(reqBit: nat, replyBit: nat): seq<Port> {
    [Port(SERVER, reqBit), Port(CLIENT, replyBit)]
  }

  ghost predicate Can<W>(ports: seq<Port>, d: Demo<W>, e: Event) {
    && Wfp(ports, d.ps) && |d.ps.ops| == 3 && |ports| == 2
    && ports[REQ].owner == SERVER && ports[REPLY].owner == CLIENT
    && (e.Go? ==> CanGo(ports, d.ps))
  }

  ghost predicate CanGo(ports: seq<Port>, st: Ports.State)
    requires Wfp(ports, st)
  {
    && st.s.k.cur != BOOT
    && Shape(ports, st.s.k.cur, Now(st), Signals.Mine(st.s))
    && (Now(st).Idle? || Enabled(ports, st, Proceed))
  }

  ghost function Do<W>(app: App<W>, ports: seq<Port>, d: Demo<W>, e: Event, limit: nat): Demo<W>
    requires Can(ports, d, e)
  {
    if e.Alarm? then d.(ps := Step(ports, d.ps, Preempt, limit))
    else if !Now(d.ps).Idle? then d.(ps := Step(ports, d.ps, Proceed, limit))
    else if d.ps.s.k.cur == CLIENT then Client(app, ports, d)
    else if d.ps.s.k.cur == SERVER then Server(app, ports, d)
    else d
  }

  ghost function Worked<W>(d: Demo<W>, f: W -> W): Demo<W> {
    d.(world := f(d.world), done := d.done + 1)
  }

  ghost function Client<W>(app: App<W>, ports: seq<Port>, d: Demo<W>): Demo<W>
    requires Can(ports, d, Go) && Now(d.ps).Idle? && d.ps.s.k.cur == CLIENT
  {
    match d.client
    case Pre(i) =>
      if i < |app.pre| then Worked(d, app.pre[i]).(client := Pre(i + 1))
      else d.(ps := Step(ports, d.ps, PutMsg(REQ, MSG), 0), client := Sending)
    case Sending => d.(ps := Step(ports, d.ps, WaitPort(REPLY), 0), client := Receiving)
    case Receiving => d.(ps := Step(ports, d.ps, GetMsg(REPLY), 0), client := Getting)
    case Getting => d.(client := After(0))
    case After(i) =>
      if i < |app.post| then Worked(d, app.post[i]).(client := After(i + 1))
      else d.(client := Pre(0), round := d.round + 1, done := 0)
  }

  ghost function Server<W>(app: App<W>, ports: seq<Port>, d: Demo<W>): Demo<W>
    requires Can(ports, d, Go) && Now(d.ps).Idle? && d.ps.s.k.cur == SERVER
  {
    match d.server
    case Starting => d.(ps := Step(ports, d.ps, WaitPort(REQ), 0), server := Heard)
    case Heard => d.(ps := Step(ports, d.ps, GetMsg(REQ), 0), server := Taking)
    case Taking => if Now(d.ps).ret.None? then d.(server := Starting) else d.(server := Serving(0))
    case Serving(i) =>
      if i < |app.serve| then Worked(d, app.serve[i]).(server := Serving(i + 1))
      else d.(ps := Step(ports, d.ps, PutMsg(REPLY, MSG), 0), server := Replying)
    case Replying => d.(ps := Step(ports, d.ps, GetMsg(REQ), 0), server := Taking)
  }

  // ------------------------------------------------------- the sequential program

  ghost function Steps<W>(ops: seq<W -> W>, w: W, n: nat): W
    requires n <= |ops|
  {
    if n == 0 then w else ops[n - 1](Steps(ops, w, n - 1))
  }

  ghost function Rounds<W>(app: App<W>, w: W, n: nat): W {
    if n == 0 then w else Steps(app.All(), Rounds(app, w, n - 1), |app.All()|)
  }

  // ------------------------------------------------------------------ the request

  predicate InPut(op: Op, p: nat) {
    op.Idle? || ((op.PutEnter? || op.PutAdd?) && op.port == p && op.msg == MSG)
    || ((op.PutLeave? || op.PutSignal? || op.PutSignalling?) && op.port == p)
  }

  predicate InGet(op: Op, p: nat) {
    || ((op.GetEnter? || op.GetPop?) && op.port == p)
    || ((op.GetLeave? || op.Idle?) && (op.ret.None? || op.ret == Some(MSG)))
  }

  predicate ClientShape(pc: ClientPc, op: Op) {
    match pc
    case Pre(_) => op.Idle?
    case Sending => InPut(op, REQ)
    case Receiving => op.Idle? || op == AtPort(REPLY)
    case Getting => InGet(op, REPLY) && (op.GetLeave? || op.Idle? ==> op.ret == Some(MSG))
    case After(_) => op.Idle?
  }

  predicate ServerShape(pc: ServerPc, op: Op) {
    match pc
    case Starting => op.Idle?
    case Heard => op.Idle? || op == AtPort(REQ)
    case Taking => InGet(op, REQ)
    case Serving(_) => op.Idle?
    case Replying => InPut(op, REPLY)
  }

  predicate WithClient(pc: ClientPc, op: Op) {
    match pc
    case Pre(_) => true
    case Sending => op.PutEnter? || op.PutAdd?
    case Receiving => false
    case Getting => op.GetLeave? || op.Idle?
    case After(_) => true
  }

  predicate WithServer(pc: ServerPc, op: Op) {
    match pc
    case Starting => false
    case Heard => false
    case Taking => (op.GetLeave? || op.Idle?) && op.ret.Some?
    case Serving(_) => true
    case Replying => op.PutEnter? || op.PutAdd?
  }

  predicate IsWith<W>(d: Demo<W>, server: bool)
    requires |d.ps.ops| == 3
  {
    if server then WithServer(d.server, d.ps.ops[SERVER]) else WithClient(d.client, d.ps.ops[CLIENT])
  }

  /** The number of places the request is in. */
  function Places<W>(d: Demo<W>): nat
    requires |d.ps.ops| == 3 && |d.ps.queues| == 2
  {
    One(IsWith(d, false)) + |d.ps.queues[REQ]| + One(IsWith(d, true)) + |d.ps.queues[REPLY]|
  }

  ghost predicate ProgramAt<W>(app: App<W>, d: Demo<W>)
    requires |d.ps.ops| == 3 && |d.ps.queues| == 2
  {
    var a, b := |app.pre|, |app.pre| + |app.serve|;
    && (IsWith(d, false) ==>
          match d.client
          case Pre(i) => i <= |app.pre| && d.done == i
          case Sending => d.done == a
          case Receiving => true
          case Getting => d.done == b
          case After(i) => i <= |app.post| && d.done == b + i)
    && (d.ps.queues[REQ] != [] ==> d.done == a)
    && (IsWith(d, true) ==>
          match d.server
          case Serving(i) => i <= |app.serve| && d.done == a + i
          case Replying => d.done == b
          case _ => d.done == a)
    && (d.ps.queues[REPLY] != [] ==> d.done == b)
  }

  ghost predicate Track<W>(app: App<W>, d: Demo<W>)
    requires |d.ps.ops| == 3 && |d.ps.queues| == 2
  {
    && ClientShape(d.client, d.ps.ops[CLIENT]) && ServerShape(d.server, d.ps.ops[SERVER]) && d.ps.ops[2].Idle?
    && Places(d) == 1
    && (forall i | 0 <= i < |d.ps.queues[REQ]| :: d.ps.queues[REQ][i] == MSG)
    && (forall i | 0 <= i < |d.ps.queues[REPLY]| :: d.ps.queues[REPLY][i] == MSG)
    && (d.client.Receiving? && d.ps.ops[CLIENT].Idle? ==> d.ps.queues[REPLY] != [])
    && (d.client.Getting? && (d.ps.ops[CLIENT].GetEnter? || d.ps.ops[CLIENT].GetPop?) ==> d.ps.queues[REPLY] != [])
    && ProgramAt(app, d)
  }

  ghost predicate Good<W>(app: App<W>, ports: seq<Port>, w0: W, d: Demo<W>) {
    && Can(ports, d, Alarm) && Inv(ports, d.ps)
    && Track(app, d)
    && d.done <= |app.All()|
    && d.world == Steps(app.All(), Rounds(app, w0, d.round), d.done)
  }

  // ---------------------------------------------------------------- preservation

  /** What a step inside a port call does to the caller's program counter and the queues. */
  lemma ProceedEffect(ports: seq<Port>, st: Ports.State, limit: nat)
    requires Wfp(ports, st) && Enabled(ports, st, Proceed)
    ensures var c, r := st.s.k.cur, Step(ports, st, Proceed, limit);
      var op, op' := st.ops[c], r.ops[c];
      && |r.ops| == |st.ops| && |r.queues| == |st.queues|
      && (forall t | 0 <= t < |st.ops| && t != c :: r.ops[t] == st.ops[t])
      && match op
         case PutEnter(p, m) => op' == PutAdd(p, m) && r.queues == st.queues
         case PutAdd(p, m) => op' == PutLeave(p) && r.queues == st.queues[p := st.queues[p] + [m]]
         case PutLeave(p) => op' == PutSignal(p) && r.queues == st.queues
         case PutSignal(p) => op' == PutSignalling(p) && r.queues == st.queues
         case PutSignalling(p) => (op' == op || op' == Idle(None)) && r.queues == st.queues
         case AtPort(p) =>
           (op' == op || (st.queues[p] != [] && op' == Idle(Some(st.queues[p][0])))) && r.queues == st.queues
         case GetEnter(p) => op' == GetPop(p) && r.queues == st.queues
         case GetPop(p) => if st.queues[p] == [] then op' == GetLeave(None) && r.queues == st.queues
                           else op' == GetLeave(Some(st.queues[p][0])) && r.queues == st.queues[p := st.queues[p][1..]]
         case GetLeave(m) => op' == Idle(m) && r.queues == st.queues
         case Idle(_) => true
  {
    hide Signals.Step;
    hide Signals.Inv;
  }

  lemma ProceedTracks<W>(app: App<W>, ports: seq<Port>, d: Demo<W>, r: Ports.State, limit: nat)
    requires Can(ports, d, Go) && Track(app, d) && !Now(d.ps).Idle?
    requires r == Step(ports, d.ps, Proceed, limit)
    ensures Track(app, d.(ps := r))
  {
    ProceedEffect(ports, d.ps, limit);
    hide Ports.Step;
    hide Signals.Wfs;
    var q, q' := d.ps.queues, r.queues;
    if d.ps.s.k.cur == CLIENT {
    } else if d.ps.s.k.cur == SERVER {
    }
  }

  lemma ClientTracks<W>(app: App<W>, ports: seq<Port>, d: Demo<W>)
    requires Can(ports, d, Go) && Track(app, d) && Now(d.ps).Idle? && d.ps.s.k.cur == CLIENT
    ensures Track(app, Client(app, ports, d))
  {
    hide Signals.Step;
  }

  lemma ServerTracks<W>(app: App<W>, ports: seq<Port>, d: Demo<W>)
    requires Can(ports, d, Go) && Track(app, d) && Now(d.ps).Idle? && d.ps.s.k.cur == SERVER
    ensures Track(app, Server(app, ports, d))
  {
    hide Signals.Step;
  }

  /** A program step applies the next step of the sequential program. */
  lemma WorkedWorld<W>(app: App<W>, w0: W, d: Demo<W>, f: W -> W)
    requires d.done < |app.All()| && f == app.All()[d.done]
    requires d.world == Steps(app.All(), Rounds(app, w0, d.round), d.done)
    ensures Worked(d, f).world == Steps(app.All(), Rounds(app, w0, d.round), d.done + 1)
  {
  }

  lemma ClientWorld<W>(app: App<W>, ports: seq<Port>, w0: W, d: Demo<W>)
    requires Can(ports, d, Go) && Track(app, d) && Now(d.ps).Idle? && d.ps.s.k.cur == CLIENT
    requires d.done <= |app.All()| && d.world == Steps(app.All(), Rounds(app, w0, d.round), d.done)
    ensures var r := Client(app, ports, d);
      r.done <= |app.All()| && r.world == Steps(app.All(), Rounds(app, w0, r.round), r.done)
  {
    match d.client {
      case Pre(i) => if i < |app.pre| { WorkedWorld(app, w0, d, app.pre[i]); }
      case After(i) =>
        if i < |app.post| { WorkedWorld(app, w0, d, app.post[i]); }
        else { assert Rounds(app, w0, d.round + 1) == Steps(app.All(), Rounds(app, w0, d.round), |app.All()|); }
      case _ =>
    }
  }

  lemma ServerWorld<W>(app: App<W>, ports: seq<Port>, w0: W, d: Demo<W>)
    requires Can(ports, d, Go) && Track(app, d) && Now(d.ps).Idle? && d.ps.s.k.cur == SERVER
    requires d.done <= |app.All()| && d.world == Steps(app.All(), Rounds(app, w0, d.round), d.done)
    ensures var r := Server(app, ports, d);
      r.done <= |app.All()| && r.world == Steps(app.All(), Rounds(app, w0, r.round), r.done)
  {
    match d.server {
      case Serving(i) => if i < |app.serve| { WorkedWorld(app, w0, d, app.serve[i]); }
      case _ =>
    }
  }

  lemma ClientPorts<W>(app: App<W>, ports: seq<Port>, d: Demo<W>)
    requires Can(ports, d, Go) && Inv(ports, d.ps) && Now(d.ps).Idle? && d.ps.s.k.cur == CLIENT
    ensures Inv(ports, Client(app, ports, d).ps)
  {
    hide Ports.Step;
    hide Ports.Inv;
    match d.client {
      case Pre(i) => if i >= |app.pre| { CallPorts(ports, d.ps, PutMsg(REQ, MSG), 0); }
      case Sending => CallPorts(ports, d.ps, WaitPort(REPLY), 0);
      case Receiving => CallPorts(ports, d.ps, GetMsg(REPLY), 0);
      case _ =>
    }
  }

  lemma ServerPorts<W>(app: App<W>, ports: seq<Port>, d: Demo<W>)
    requires Can(ports, d, Go) && Inv(ports, d.ps) && Now(d.ps).Idle? && d.ps.s.k.cur == SERVER
    ensures Inv(ports, Server(app, ports, d).ps)
  {
    hide Ports.Step;
    hide Ports.Inv;
    match d.server {
      case Starting => CallPorts(ports, d.ps, WaitPort(REQ), 0);
      case Heard => CallPorts(ports, d.ps, GetMsg(REQ), 0);
      case Serving(i) => if i >= |app.serve| { CallPorts(ports, d.ps, PutMsg(REPLY, MSG), 0); }
      case Replying => CallPorts(ports, d.ps, GetMsg(REQ), 0);
      case _ =>
    }
  }

  lemma AlarmGood<W>(app: App<W>, ports: seq<Port>, w0: W, d: Demo<W>, limit: nat)
    requires Good(app, ports, w0, d)
    ensures Good(app, ports, w0, Do(app, ports, d, Alarm, limit))
  {
    hide Signals.Step;
    hide Ports.Inv;
    StepKeepsPorts(ports, d.ps, Preempt, limit);
  }

  lemma ProceedGood<W>(app: App<W>, ports: seq<Port>, w0: W, d: Demo<W>, limit: nat)
    requires Good(app, ports, w0, d) && Can(ports, d, Go) && !Now(d.ps).Idle?
    ensures Good(app, ports, w0, Do(app, ports, d, Go, limit))
  {
    StepKeepsPorts(ports, d.ps, Proceed, limit);
    ProceedTracks(app, ports, d, Step(ports, d.ps, Proceed, limit), limit);
    hide Ports.Step;
    hide Ports.Inv;
    hide Track;
  }

  lemma ProgramGood<W>(app: App<W>, ports: seq<Port>, w0: W, d: Demo<W>, limit: nat)
    requires Good(app, ports, w0, d) && Can(ports, d, Go) && Now(d.ps).Idle?
    ensures Good(app, ports, w0, Do(app, ports, d, Go, limit))
  {
    if d.ps.s.k.cur == CLIENT {
      ClientGood(app, ports, w0, d);
    } else if d.ps.s.k.cur == SERVER {
      ServerGood(app, ports, w0, d);
    }
  }

  lemma ClientGood<W>(app: App<W>, ports: seq<Port>, w0: W, d: Demo<W>)
    requires Good(app, ports, w0, d) && Can(ports, d, Go) && Now(d.ps).Idle? && d.ps.s.k.cur == CLIENT
    ensures Good(app, ports, w0, Client(app, ports, d))
  {
    hide Ports.Step;
    hide Ports.Inv;
    ClientPorts(app, ports, d);
    ClientTracks(app, ports, d);
    ClientWorld(app, ports, w0, d);
    hide Track;
  }

  lemma ServerGood<W>(app: App<W>, ports: seq<Port>, w0: W, d: Demo<W>)
    requires Good(app, ports, w0, d) && Can(ports, d, Go) && Now(d.ps).Idle? && d.ps.s.k.cur == SERVER
    ensures Good(app, ports, w0, Server(app, ports, d))
  {
    hide Ports.Step;
    hide Ports.Inv;
    ServerPorts(app, ports, d);
    ServerTracks(app, ports, d);
    ServerWorld(app, ports, w0, d);
    hide Track;
  }

  lemma DoKeeps<W>(app: App<W>, ports: seq<Port>, w0: W, d: Demo<W>, e: Event, limit: nat)
    requires Good(app, ports, w0, d) && Can(ports, d, e)
    ensures Good(app, ports, w0, Do(app, ports, d, e, limit))
  {
    if e.Alarm? { AlarmGood(app, ports, w0, d, limit); }
    else if !Now(d.ps).Idle? { ProceedGood(app, ports, w0, d, limit); }
    else { ProgramGood(app, ports, w0, d, limit); }
  }

  // --------------------------------------------------------------------- all runs

  ghost predicate ValidEvents<W>(app: App<W>, ports: seq<Port>, d: Demo<W>, es: seq<Event>, limit: nat)
    decreases |es|
  {
    es == [] || (Can(ports, d, es[0]) && ValidEvents(app, ports, Do(app, ports, d, es[0], limit), es[1..], limit))
  }

  ghost function Played<W>(app: App<W>, ports: seq<Port>, d: Demo<W>, es: seq<Event>, limit: nat): Demo<W>
    requires ValidEvents(app, ports, d, es, limit)
    decreases |es|
  {
    if es == [] then d else Played(app, ports, Do(app, ports, d, es[0], limit), es[1..], limit)
  }

  lemma {:induction false} PlayedGood<W>(app: App<W>, ports: seq<Port>, w0: W, d: Demo<W>, es: seq<Event>, limit: nat)
    requires Good(app, ports, w0, d) && ValidEvents(app, ports, d, es, limit)
    ensures Good(app, ports, w0, Played(app, ports, d, es, limit))
    decreases |es|
  {
    if es != [] {
      DoKeeps(app, ports, w0, d, es[0], limit);
      PlayedGood(app, ports, w0, Do(app, ports, d, es[0], limit), es[1..], limit);
    }
  }

  ghost function Start<W>(ports: seq<Port>, pris: seq<int>, w0: W): Demo<W> {
    Demo(Opened(ports, RoundRobin.Initial(pris)), Pre(0), Starting, w0, 0, 0)
  }

  lemma StartGood<W>(app: App<W>, reqBit: nat, replyBit: nat, pris: seq<int>, w0: W)
    requires |pris| == 3
    ensures Good(app, PortsOf(reqBit, replyBit), w0, Start(PortsOf(reqBit, replyBit), pris, w0))
  {
    RoundRobin.InitialSound(pris);
    Signals.FreshOk(RoundRobin.Initial(pris));
    OpenedGood(app, PortsOf(reqBit, replyBit), RoundRobin.Initial(pris), w0);
  }

  lemma OpenedGood<W>(app: App<W>, ports: seq<Port>, k: Kernel, w0: W)
    requires Signals.Inv(Signals.Fresh(k)) && |k.tasks| == 3 && Config(ports, 3)
    requires |ports| == 2 && ports[REQ].owner == SERVER && ports[REPLY].owner == CLIENT
    ensures Good(app, ports, w0, Demo(Opened(ports, k), Pre(0), Starting, w0, 0, 0))
  {
    OpenedOk(ports, k);
  }

  /** The running task always has a next step. */
  lemma NeverStuck<W>(app: App<W>, ports: seq<Port>, w0: W, d: Demo<W>)
    requires Good(app, ports, w0, d) && d.ps.s.k.cur != BOOT
    ensures Can(ports, d, Go)
  {
    ProceedsWhenBusy(ports, d.ps);
  }

  /** The two are never blocked at the same time. */
  lemma NotBothBlocked<W>(app: App<W>, ports: seq<Port>, w0: W, d: Demo<W>)
    requires Good(app, ports, w0, d)
    ensures !(d.ps.s.k.tasks[CLIENT].state == Wait && d.ps.s.k.tasks[SERVER].state == Wait)
  {
    var st := d.ps;
    if st.s.k.tasks[CLIENT].state == Wait && st.s.k.tasks[SERVER].state == Wait {
      BlockedShape(ports, st, CLIENT);
      BlockedShape(ports, st, SERVER);
      var p := if st.queues[REQ] != [] then REQ else REPLY;
      NoLostWakeup(ports, st, p);
    }
  }

  lemma BlockedShape(ports: seq<Port>, st: Ports.State, t: nat)
    requires Inv(ports, st) && t < |st.ops| && st.s.k.tasks[t].state == Wait
    ensures st.ops[t].AtPort? && st.ops[t].port < |ports| && BlockedAt(ports, st, st.ops[t].port)
    ensures ports[st.ops[t].port].owner == t
  {
    assert Signals.TaskOk(st.s.k.tasks[t], st.s.calls[t]) && Shape(ports, t, st.ops[t], st.s.calls[t]);
  }

  /** In every reachable state: one place for the request, no deadlock, and sequential data. */
  lemma Sequential<W>(app: App<W>, reqBit: nat, replyBit: nat, pris: seq<int>, w0: W, es: seq<Event>, limit: nat)
    requires |pris| == 3
    requires ValidEvents(app, PortsOf(reqBit, replyBit), Start(PortsOf(reqBit, replyBit), pris, w0), es, limit)
    ensures var d := Played(app, PortsOf(reqBit, replyBit), Start(PortsOf(reqBit, replyBit), pris, w0), es, limit);
      && |d.ps.ops| == |d.ps.s.k.tasks| == 3 && |d.ps.queues| == 2
      && Places(d) == 1
      && !(d.ps.s.k.tasks[CLIENT].state == Wait && d.ps.s.k.tasks[SERVER].state == Wait)
      && d.done <= |app.All()| && d.world == Steps(app.All(), Rounds(app, w0, d.round), d.done)
  {
    var ports := PortsOf(reqBit, replyBit);
    StartGood(app, reqBit, replyBit, pris, w0);
    PlayedGood(app, ports, w0, Start(ports, pris, w0), es, limit);
    NotBothBlocked(app, ports, w0, Played(app, ports, Start(ports, pris, w0), es, limit));
  }
}
