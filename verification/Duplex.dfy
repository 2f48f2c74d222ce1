/** Two sessions at work on one connection: each writer feeds a link of bounded room, each reader moves frames
    from the other's link into its loop's bounded inbound channel. What arrives, when neither can go on, and
    when both hold each other up. */
module Duplex {
  import opened Base
  import opened Wire
  import Engine
  import Handshake
  import Mac
  import Replay

  const INBOUND: nat := 8

  datatype Side = Initiator | Responder

  function Other(x: Side): Side {
    if x == Initiator then Responder else Initiator
  }

  /** One end: its engine, the commands and ticks still to come, and what it has written that the other end
      has not read. The engine's inputs are its inbound channel. */
  datatype Half = Half(engine: Engine.State, commands: seq<Engine.Input>, link: seq<Envelope>)

  datatype Pair = Pair(initiator: Half, responder: Half)

  function At(p: Pair, x: Side): Half {
    if x == Initiator then p.initiator else p.responder
  }

  function With(p: Pair, x: Side, h: Half): Pair {
    if x == Initiator then p.(initiator := h) else p.(responder := h)
  }

  /** How many frames a link holds, which capabilities each end negotiated, and what its handlers answer. */
  datatype Setup = Setup(room: nat, negotiated: Side -> seq<string>, answers: (Side, Envelope) -> seq<(string, Bytes)>)

  datatype Action =
    | Work(side: Side, act: Engine.Action)   // a step of that engine
    | Issue(side: Side)                      // its loop, with nothing inbound, takes a command or a tick
    | Read(side: Side)                       // its reader moves a frame from the link to the channel
    | GiveUp(side: Side)                     // a handler's wait for room ends and its message is dropped

  predicate Writes(a: Engine.Action) {
    a.WriteOwn? || a.WriteCap?
  }

  predicate Enabled(c: Setup, p: Pair, a: Action) {
    var h := At(p, a.side);
    match a
    case Work(_, act) => Engine.Enabled(h.engine, act) && (Writes(act) ==> |h.link| < c.room)
    case Issue(_) => !h.engine.closed && h.engine.current == [] && h.engine.inputs == [] && h.commands != []
    case Read(x) => !h.engine.closed && At(p, Other(x)).link != [] && |h.engine.inputs| < INBOUND
    case GiveUp(_) =>
      && !h.engine.closed && h.engine.current != []
      && !Engine.IsOwn(h.engine.current[0]) && !Engine.HasRoom(h.engine, h.engine.current[0])
  }

  /** What an engine writes goes onto its link. */
  ghost function Worked(h: Half, act: Engine.Action, negotiated: seq<string>): Half
    requires Engine.Enabled(h.engine, act)
  {
    var e := Engine.Step(h.engine, act, negotiated);
    Half(e, h.commands, if Writes(act) && e.wire != [] then h.link + [e.wire[|e.wire| - 1]] else h.link)
  }

  ghost function Issued(h: Half, negotiated: seq<string>): Half
    requires !h.engine.closed && h.engine.current == [] && h.commands != []
  {
    var e := h.engine.(inputs := [h.commands[0]] + h.engine.inputs);
    Half(Engine.Step(e, Engine.Take, negotiated), h.commands[1..], h.link)
  }

  function Received(h: Half, env: Envelope, answers: seq<(string, Bytes)>): Half {
    h.(engine := h.engine.(inputs := h.engine.inputs + [Engine.Inbound(env, answers)]))
  }

  function GaveUp(h: Half): Half
    requires h.engine.current != []
  {
    h.(engine := h.engine.(current := h.engine.current[1..]))
  }

  ghost function Step(c: Setup, p: Pair, a: Action): Pair
    requires Enabled(c, p, a)
  {
    var h := At(p, a.side);
    match a
    case Work(x, act) => With(p, x, Worked(h, act, c.negotiated(x)))
    case Issue(x) => With(p, x, Issued(h, c.negotiated(x)))
    case Read(x) =>
      var from := At(p, Other(x));
      With(With(p, Other(x), from.(link := from.link[1..])), x, Received(h, from.link[0], c.answers(x, from.link[0])))
    case GiveUp(x) => With(p, x, GaveUp(h))
  }

  /** A schedule of both ends: every action was enabled when it was taken. */
  ghost predicate IsRun(c: Setup, p: Pair, run: seq<Action>)
    decreases |run|, 0
  {
    run == [] || (IsRun(c, p, run[..|run| - 1]) && Enabled(c, After(c, p, run[..|run| - 1]), run[|run| - 1]))
  }

  ghost function After(c: Setup, p: Pair, run: seq<Action>): Pair
    requires IsRun(c, p, run)
    decreases |run|, 1
  {
    if run == [] then p else Step(c, After(c, p, run[..|run| - 1]), run[|run| - 1])
  }

  lemma RunSnoc(c: Setup, p: Pair, run: seq<Action>, a: Action)
    requires IsRun(c, p, run) && Enabled(c, After(c, p, run), a)
    ensures IsRun(c, p, run + [a]) && After(c, p, run + [a]) == Step(c, After(c, p, run), a)
  {
    assert (run + [a])[..|run|] == run;
  }

  // ---- When both hold each other up ----

  predicate IsOpen(h: Half) {
    !h.engine.closed && !h.engine.stopped
  }

  predicate BothOpen(p: Pair) {
    IsOpen(p.initiator) && IsOpen(p.responder)
  }

  predicate IsTask(a: Action) {
    a.Work? && a.act.TaskPush?
  }

  predicate TasksDone(h: Half) {
    forall t :: 0 <= t < |h.engine.tasks| ==> h.engine.tasks[t] == []
  }

  predicate Bare(h: Half) {
    && h.engine.inputs == [] && h.engine.current == [] && h.engine.own == [] && h.engine.caps == []
    && h.commands == [] && h.link == []
  }

  /** Nothing is left to do at either end. */
  predicate Idle(p: Pair) {
    Bare(p.initiator) && TasksDone(p.initiator) && Bare(p.responder) && TasksDone(p.responder)
  }

  /** The loop has a frame of its own to send and its queue is full, the link is full, and so is the inbound
      channel. A handler's message does not hold it up: that wait is bounded. */
  predicate Jammed(c: Setup, h: Half) {
    && h.engine.current != [] && Engine.IsOwn(h.engine.current[0]) && |h.engine.own| >= Engine.QUEUE
    && |h.link| >= c.room && |h.engine.inputs| >= INBOUND
  }

  predicate Gridlock(c: Setup, p: Pair) {
    Jammed(c, p.initiator) && Jammed(c, p.responder)
  }

  /** Something is left, and nothing ever happens again but tasks queueing messages: neither loop, writer or
      reader moves, and no command or tick is taken. */
  ghost predicate Wedged(c: Setup, p: Pair) {
    !Idle(p) && forall run :: IsRun(c, p, run) ==> forall a :: a in run ==> IsTask(a)
  }

  lemma GridlockStays(c: Setup, p: Pair, a: Action)
    requires BothOpen(p) && Gridlock(c, p) && Enabled(c, p, a)
    ensures IsTask(a) && BothOpen(Step(c, p, a)) && Gridlock(c, Step(c, p, a))
  {
    assert Jammed(c, At(p, a.side)) && Jammed(c, At(p, Other(a.side)));
  }

  lemma {:induction false} GridlockIsForEver(c: Setup, p: Pair, run: seq<Action>)
    requires BothOpen(p) && Gridlock(c, p) && IsRun(c, p, run)
    ensures BothOpen(After(c, p, run)) && Gridlock(c, After(c, p, run)) && forall a :: a in run ==> IsTask(a)
  {
    if run != [] {
      var before, last := run[..|run| - 1], run[|run| - 1];
      GridlockIsForEver(c, p, before);
      GridlockStays(c, After(c, p, before), last);
      assert run == before + [last];
    }
  }

  /** At this moment only tasks can move. */
  ghost predicate OnlyTasksMove(c: Setup, p: Pair) {
    forall a :: Enabled(c, p, a) ==> IsTask(a)
  }

  /** What holds up one end: a queued frame waits for the link, a frame on the link for the other's channel,
      an input or a command for the loop, and the loop for its queue. */
  lemma HeldUp(c: Setup, p: Pair, x: Side)
    requires BothOpen(p) && OnlyTasksMove(c, p)
    ensures var h := At(p, x);
            && (h.engine.own != [] || h.engine.caps != [] ==> |h.link| >= c.room)
            && (h.link != [] ==> |At(p, Other(x)).engine.inputs| >= INBOUND)
            && (h.engine.inputs != [] || h.commands != [] ==> h.engine.current != [])
            && (h.engine.current != [] ==> Engine.IsOwn(h.engine.current[0]) && |h.engine.own| >= Engine.QUEUE)
  {
    assert !Enabled(c, p, Work(x, Engine.WriteOwn([]))) && !Enabled(c, p, Work(x, Engine.WriteCap([])));
    assert !Enabled(c, p, Work(x, Engine.Take)) && !Enabled(c, p, Work(x, Engine.Push));
    assert !Enabled(c, p, Issue(x)) && !Enabled(c, p, Read(Other(x))) && !Enabled(c, p, GiveUp(x));
  }

  /** So when only tasks can move, either nothing but their messages is left, or everything is full. */
  lemma AllOrNothing(c: Setup, p: Pair)
    requires c.room > 0 && BothOpen(p) && OnlyTasksMove(c, p)
    ensures (Bare(p.initiator) && Bare(p.responder)) || Gridlock(c, p)
  {
    HeldUp(c, p, Initiator);
    HeldUp(c, p, Responder);
  }

  lemma OneAction(c: Setup, p: Pair, a: Action)
    requires Enabled(c, p, a)
    ensures IsRun(c, p, [a]) && After(c, p, [a]) == Step(c, p, a)
  {
    RunSnoc(c, p, [], a);
    assert [] + [a] == [a];
  }

  /** A message of a task, with nothing else left, is queued and then written. */
  lemma TaskThenWrite(c: Setup, p: Pair, x: Side, t: nat) returns (run: seq<Action>)
    requires c.room > 0 && IsOpen(At(p, x)) && Bare(At(p, x))
    requires t < |At(p, x).engine.tasks| && At(p, x).engine.tasks[t] != []
    ensures IsRun(c, p, run) && exists a :: a in run && !IsTask(a)
  {
    var push := Work(x, Engine.TaskPush(t));
    OneAction(c, p, push);
    var e := At(Step(c, p, push), x).engine;
    var write := Work(x, if e.own != [] then Engine.WriteOwn([]) else Engine.WriteCap([]));
    RunSnoc(c, p, [push], write);
    run := [push] + [write];
    assert write in run;
  }

  /** While neither loop has ended, both ends are held up for ever exactly when, at both, the loop waits to
      send a frame of its own into its full queue, the link is full and the inbound channel is full. */
  lemma WedgedExactly(c: Setup, p: Pair)
    requires c.room > 0 && BothOpen(p)
    ensures Wedged(c, p) <==> Gridlock(c, p)
  {
    if Gridlock(c, p) {
      forall run | IsRun(c, p, run) ensures forall a :: a in run ==> IsTask(a) {
        GridlockIsForEver(c, p, run);
      }
    } else if Wedged(c, p) {
      forall a | Enabled(c, p, a) ensures IsTask(a) {
        OneAction(c, p, a);
        assert a in [a];
      }
      AllOrNothing(c, p);
      var x := if TasksDone(p.initiator) then Responder else Initiator;
      var t :| 0 <= t < |At(p, x).engine.tasks| && At(p, x).engine.tasks[t] != [];
      var run := TaskThenWrite(c, p, x, t);
    }
  }

  /** The bound on a handler's wait does what it is for: a loop that waits for a handler's message, however
      full everything is, is not held up for ever. */
  lemma HandlersNeverWedge(c: Setup, p: Pair, x: Side)
    requires c.room > 0 && BothOpen(p)
    requires At(p, x).engine.current != [] && !Engine.IsOwn(At(p, x).engine.current[0])
    ensures !Wedged(c, p)
  {
    WedgedExactly(c, p);
  }

  // ---- What arrives ----

  /** Commands and ticks: pings with small payloads and messages to send, but no shutdown. */
  predicate ProperCommand(i: Engine.Input) {
    !i.Inbound? && !i.Shutdown? && ((i.PingCommand? || i.Probe?) ==> |i.payload| <= Engine.MAX_PING_PAYLOAD)
  }

  /** Two ends that have just finished a handshake. */
  ghost predicate Fresh(p: Pair) {
    forall x :: FreshHalf(At(p, x))
  }

  ghost predicate FreshHalf(h: Half) {
    && Engine.Starts(h.engine) && h.engine.inputs == [] && h.link == []
    && Engine.ProperWork(h.engine) && forall i :: i in h.commands ==> ProperCommand(i)
  }

  /** What one end keeps to itself: its queues in order, its frames proper, its commands too. */
  ghost predicate HalfOk(h: Half, h0: Half) {
    && Engine.InOrder(h.engine, h0.engine.factory) && Engine.ProperWork(h.engine)
    && (forall i :: i in h.commands ==> ProperCommand(i))
    && h.engine.guard.version == h0.engine.guard.version
  }

  lemma WorkKeepsHalf(h: Half, h0: Half, act: Engine.Action, negotiated: seq<string>)
    requires HalfOk(h, h0) && Engine.Enabled(h.engine, act)
    ensures HalfOk(Worked(h, act, negotiated), h0)
  {
    Engine.StepKeepsOrder(h.engine, act, negotiated, h0.engine.factory);
    Engine.StepKeepsProper(h.engine, act, negotiated);
  }

  lemma IssueKeepsHalf(h: Half, h0: Half, negotiated: seq<string>)
    requires HalfOk(h, h0) && !h.engine.closed && h.engine.current == [] && h.commands != []
    ensures HalfOk(Issued(h, negotiated), h0)
  {
    var e := h.engine.(inputs := [h.commands[0]] + h.engine.inputs);
    assert h.commands[0] in h.commands;
    Engine.StepKeepsOrder(e, Engine.Take, negotiated, h0.engine.factory);
    Engine.StepKeepsProper(e, Engine.Take, negotiated);
  }

  ghost predicate HalvesOk(p: Pair, p0: Pair) {
    HalfOk(p.initiator, p0.initiator) && HalfOk(p.responder, p0.responder)
  }

  lemma StepKeepsHalves(c: Setup, p: Pair, a: Action, p0: Pair)
    requires Enabled(c, p, a) && HalvesOk(p, p0)
    ensures HalvesOk(Step(c, p, a), p0)
  {
    match a
    case Work(x, act) => WorkKeepsHalf(At(p, x), At(p0, x), act, c.negotiated(x));
    case Issue(x) => IssueKeepsHalf(At(p, x), At(p0, x), c.negotiated(x));
    case Read(x) =>
      var from := At(p, Other(x));
      ReadKeepsHalves(from, At(p0, Other(x)), At(p, x), At(p0, x), c.answers(x, from.link[0]));
    case GiveUp(x) => GiveUpKeepsHalf(At(p, x), At(p0, x));
  }

  lemma GiveUpKeepsHalf(h: Half, h0: Half)
    requires HalfOk(h, h0) && h.engine.current != []
    ensures HalfOk(GaveUp(h), h0)
  {
  }

  lemma ReadKeepsHalves(from: Half, from0: Half, to: Half, to0: Half, answers: seq<(string, Bytes)>)
    requires HalfOk(from, from0) && HalfOk(to, to0) && from.link != []
    ensures HalfOk(from.(link := from.link[1..]), from0) && HalfOk(Received(to, from.link[0], answers), to0)
  {
  }

  /** The wire of one end is what the other's loop has admitted, then its channel, then the link. */
  ghost predicate Flows(from: Half, to: Half, log: seq<Envelope>) {
    && log <= to.engine.guard.admitted
    && (forall i :: i in to.engine.inputs ==> i.Inbound?)
    && from.engine.wire == to.engine.guard.admitted[|log|..] + Engine.Frames(to.engine.inputs) + from.link
  }

  lemma {:induction false} FramesSnoc(inputs: seq<Engine.Input>, env: Envelope, answers: seq<(string, Bytes)>)
    ensures Engine.Frames(inputs + [Engine.Inbound(env, answers)]) == Engine.Frames(inputs) + [env]
  {
    var all := inputs + [Engine.Inbound(env, answers)];
    if inputs != [] {
      assert all[0] == inputs[0] && all[1..] == inputs[1..] + [Engine.Inbound(env, answers)];
      FramesSnoc(inputs[1..], env, answers);
    }
  }

  lemma {:induction false} FramesLength(inputs: seq<Engine.Input>)
    requires forall i :: i in inputs ==> i.Inbound?
    ensures |Engine.Frames(inputs)| == |inputs|
  {
    if inputs != [] {
      assert inputs[0] in inputs;
      FramesLength(inputs[1..]);
    }
  }

  /** The writer puts a frame on the wire and on the link at once; other steps put none on either. */
  lemma WriterFeedsLink(from: Half, to: Half, log: seq<Envelope>, act: Engine.Action, negotiated: seq<string>)
    requires Flows(from, to, log) && Engine.Enabled(from.engine, act)
    ensures Flows(Worked(from, act, negotiated), to, log)
  {
    var after := Worked(from, act, negotiated);
    if Writes(act) {
      var wire := after.engine.wire;
      assert wire == from.engine.wire + [wire[|wire| - 1]];
    }
  }

  /** The loop admits the first frame of its channel. */
  lemma LoopTakesFirst(from: Half, to: Half, log: seq<Envelope>, act: Engine.Action, negotiated: seq<string>)
    requires Flows(from, to, log) && Engine.Enabled(to.engine, act) && !Worked(to, act, negotiated).engine.closed
    ensures Flows(from, Worked(to, act, negotiated), log)
  {
    if act.Take? {
      var inputs, admitted := to.engine.inputs, to.engine.guard.admitted;
      assert inputs[0] in inputs;
      assert Engine.Frames(inputs) == [inputs[0].env] + Engine.Frames(inputs[1..]);
      assert (admitted + [inputs[0].env])[|log|..] == admitted[|log|..] + [inputs[0].env];
    }
  }

  lemma CommandTakesNone(from: Half, to: Half, log: seq<Envelope>, negotiated: seq<string>)
    requires Flows(from, to, log) && !to.engine.closed && to.engine.current == [] && to.commands != []
    requires ProperCommand(to.commands[0])
    ensures Flows(from, Issued(to, negotiated), log) && !Issued(to, negotiated).engine.closed
  {
    assert ([to.commands[0]] + to.engine.inputs)[1..] == to.engine.inputs;
  }

  lemma CommandWritesNone(from: Half, to: Half, log: seq<Envelope>, negotiated: seq<string>)
    requires Flows(from, to, log) && !from.engine.closed && from.engine.current == [] && from.commands != []
    ensures Flows(Issued(from, negotiated), to, log)
  {
  }

  lemma FirstIsProper(p: Pair, p0: Pair, x: Side)
    requires HalvesOk(p, p0) && At(p, x).commands != []
    ensures ProperCommand(At(p, x).commands[0])
  {
    assert HalfOk(At(p, x), At(p0, x)) && At(p, x).commands[0] in At(p, x).commands;
  }

  lemma ReaderMovesOne(from: Half, to: Half, log: seq<Envelope>, answers: seq<(string, Bytes)>)
    requires Flows(from, to, log) && from.link != []
    ensures Flows(from.(link := from.link[1..]), Received(to, from.link[0], answers), log)
  {
    FramesSnoc(to.engine.inputs, from.link[0], answers);
    assert from.link == [from.link[0]] + from.link[1..];
  }

  ghost predicate Delivers(p: Pair, p0: Pair, x: Side) {
    !At(p, Other(x)).engine.closed ==> Flows(At(p, x), At(p, Other(x)), At(p0, Other(x)).engine.guard.admitted)
  }

  lemma StepDelivers(c: Setup, p: Pair, a: Action, p0: Pair, x: Side)
    requires Enabled(c, p, a) && Delivers(p, p0, x) && HalvesOk(p, p0)
    ensures Delivers(Step(c, p, a), p0, x)
  {
    var from, to, log := At(p, x), At(p, Other(x)), At(p0, Other(x)).engine.guard.admitted;
    if !At(Step(c, p, a), Other(x)).engine.closed {
      StaysClosed(c, p, a, Other(x));
      match a
      case Work(y, act) =>
        if y == x { WriterFeedsLink(from, to, log, act, c.negotiated(x)); }
        else { LoopTakesFirst(from, to, log, act, c.negotiated(y)); }
      case Issue(y) =>
        if y == x { CommandWritesNone(from, to, log, c.negotiated(x)); }
        else {
          FirstIsProper(p, p0, y);
          CommandTakesNone(from, to, log, c.negotiated(y));
        }
      case Read(y) => if y != x { ReaderMovesOne(from, to, log, c.answers(y, from.link[0])); }
      case GiveUp(_) =>
    }
  }

  lemma StaysClosed(c: Setup, p: Pair, a: Action, x: Side)
    requires Enabled(c, p, a)
    ensures At(p, x).engine.closed ==> At(Step(c, p, a), x).engine.closed
  {
  }

  /** Both ends in order, and what each has written on its way to the other. */
  ghost predicate InFlow(p: Pair, p0: Pair) {
    HalvesOk(p, p0) && Delivers(p, p0, Initiator) && Delivers(p, p0, Responder)
  }

  lemma StartsInFlow(p0: Pair)
    requires Fresh(p0)
    ensures InFlow(p0, p0)
  {
    assert FreshHalf(At(p0, Initiator)) && FreshHalf(At(p0, Responder));
    FreshFlows(p0.initiator, p0.responder);
    FreshFlows(p0.responder, p0.initiator);
  }

  lemma FreshFlows(from: Half, to: Half)
    requires FreshHalf(from) && FreshHalf(to)
    ensures HalfOk(from, from) && Flows(from, to, to.engine.guard.admitted)
  {
    assert Engine.Frames([]) == [];
  }

  lemma StepKeepsFlow(c: Setup, p: Pair, a: Action, p0: Pair)
    requires Enabled(c, p, a) && InFlow(p, p0)
    ensures InFlow(Step(c, p, a), p0)
  {
    StepKeepsHalves(c, p, a, p0);
    StepDelivers(c, p, a, p0, Initiator);
    StepDelivers(c, p, a, p0, Responder);
  }

  /** Over every schedule of both ends, what one has written is what the other's loop has admitted, then what
      is in its channel, then what is on the link: nothing lost, doubled or out of order. */
  lemma {:induction false} EveryRunDelivers(c: Setup, p0: Pair, run: seq<Action>)
    requires Fresh(p0) && IsRun(c, p0, run)
    ensures InFlow(After(c, p0, run), p0)
  {
    if run == [] {
      StartsInFlow(p0);
    } else {
      EveryRunDelivers(c, p0, run[..|run| - 1]);
      StepKeepsFlow(c, After(c, p0, run[..|run| - 1]), run[|run| - 1], p0);
    }
  }

  // ---- What it takes ----

  lemma {:induction false} EitherQueue(s: seq<Engine.Request>)
    ensures |Engine.OwnOf(s)| + |Engine.CapsOf(s)| == |s|
  {
    if s != [] {
      EitherQueue(s[1..]);
    }
  }

  lemma AcceptedLength(e: Engine.State, first: Factory)
    requires Engine.InOrder(e, first)
    ensures |e.accepted| == |e.wire| + |e.own| + |e.caps|
  {
    EitherQueue(e.accepted);
    EitherQueue(e.written);
  }

  lemma JamNeeds(c: Setup, p: Pair, p0: Pair, x: Side)
    requires InFlow(p, p0) && BothOpen(p) && Gridlock(c, p)
    ensures |At(p, x).engine.accepted| >= Engine.QUEUE + c.room + INBOUND
    ensures |Engine.OwnOf(At(p, x).engine.accepted)| >= Engine.QUEUE
  {
    var from, to := At(p, x), At(p, Other(x));
    assert HalfOk(from, At(p0, x)) && Delivers(p, p0, x);
    FramesLength(to.engine.inputs);
    AcceptedLength(from.engine, At(p0, x).engine.factory);
  }

  /** Over every schedule, both ends are held up only after each has sent enough to fill its queue, its link
      and the other's channel, a queueful of it frames of the loop's own: a connection on which one end ever
      sends less than that is never wedged. */
  lemma WedgedNeedsBothFloods(c: Setup, p0: Pair, run: seq<Action>, x: Side)
    requires c.room > 0 && Fresh(p0) && IsRun(c, p0, run) && BothOpen(After(c, p0, run)) && Wedged(c, After(c, p0, run))
    ensures |At(After(c, p0, run), x).engine.accepted| >= Engine.QUEUE + c.room + INBOUND
    ensures |Engine.OwnOf(At(After(c, p0, run), x).engine.accepted)| >= Engine.QUEUE
  {
    WedgedExactly(c, After(c, p0, run));
    EveryRunDelivers(c, p0, run);
    JamNeeds(c, After(c, p0, run), p0, x);
  }

  // ---- Neither end is ended by the other ----

  lemma {:induction false} PassesAt(version: nat, log: seq<Envelope>, envs: seq<Envelope>, k: nat)
    requires k < |envs| && Handshake.ReceiveAll(version, log, envs).Some?
    ensures envs[k].protocolVersion == version && Replay.Fresh(log + envs[..k], envs[k])
    decreases k
  {
    if k == 0 {
      assert log + envs[..0] == log;
    } else {
      PassesAt(version, log + [envs[0]], envs[1..], k - 1);
      assert log + [envs[0]] + envs[1..][..k - 1] == log + envs[..k];
    }
  }

  /** The frame a loop takes next is the one its guard expects. */
  lemma NextIsExpected(from: Half, to: Half, log: seq<Envelope>)
    requires Flows(from, to, log) && to.engine.inputs != []
    ensures var k := |to.engine.guard.admitted| - |log|;
            && 0 <= k < |from.engine.wire| && to.engine.inputs[0].Inbound?
            && from.engine.wire[k] == to.engine.inputs[0].env && to.engine.guard.admitted == log + from.engine.wire[..k]
  {
    var inputs, taken := to.engine.inputs, to.engine.guard.admitted[|log|..];
    assert inputs[0] in inputs;
    assert Engine.Frames(inputs)[0] == inputs[0].env;
    assert from.engine.wire[..|taken|] == taken;
    assert to.engine.guard.admitted == log + taken;
  }

  /** A wire its reader's guard passes, of frames an established session takes. */
  ghost predicate Readable(from: Half, to0: Half) {
    && Handshake.ReceiveAll(to0.engine.guard.version, to0.engine.guard.admitted, from.engine.wire).Some?
    && forall e :: e in from.engine.wire ==> Engine.Proper(e.body)
  }

  lemma TakeKeepsOpen(from: Half, to: Half, to0: Half)
    requires Flows(from, to, to0.engine.guard.admitted) && Readable(from, to0) && to.engine.inputs != []
    requires to.engine.guard.version == to0.engine.guard.version
    ensures !Engine.EndsLoop(to.engine.guard, to.engine.inputs[0])
  {
    var log := to0.engine.guard.admitted;
    var k := |to.engine.guard.admitted| - |log|;
    NextIsExpected(from, to, log);
    PassesAt(to0.engine.guard.version, log, from.engine.wire, k);
    assert from.engine.wire[k] in from.engine.wire;
  }

  lemma StepKeepsOpen(c: Setup, p: Pair, a: Action, p0: Pair)
    requires Enabled(c, p, a) && InFlow(p, p0) && BothOpen(p)
    requires forall x :: Readable(At(p, x), At(p0, Other(x)))
    ensures BothOpen(Step(c, p, a))
  {
    var x := a.side;
    var h := At(p, x);
    assert IsOpen(h) && IsOpen(At(p, Other(x))) && HalfOk(h, At(p0, x));
    if a.Work? {
      if a.act.Take? {
        assert Delivers(p, p0, Other(x)) && Readable(At(p, Other(x)), At(p0, Other(Other(x))));
        TakeKeepsOpen(At(p, Other(x)), h, At(p0, x));
      }
      WorkKeepsOpen(h, a.act, c.negotiated(x));
    } else if a.Issue? {
      IssueKeepsOpen(h, c.negotiated(x));
    }
  }

  lemma WorkKeepsOpen(h: Half, act: Engine.Action, negotiated: seq<string>)
    requires IsOpen(h) && Engine.Enabled(h.engine, act)
    requires act.Take? ==> !Engine.EndsLoop(h.engine.guard, h.engine.inputs[0])
    ensures IsOpen(Worked(h, act, negotiated))
  {
  }

  lemma IssueKeepsOpen(h: Half, negotiated: seq<string>)
    requires IsOpen(h) && h.engine.current == [] && h.commands != [] && forall i :: i in h.commands ==> ProperCommand(i)
    ensures IsOpen(Issued(h, negotiated))
  {
    assert h.commands[0] in h.commands;
  }

  lemma WireGrows(c: Setup, p: Pair, a: Action, x: Side)
    requires Enabled(c, p, a)
    ensures At(p, x).engine.wire <= At(Step(c, p, a), x).engine.wire
  {
  }

  lemma WireProper(h: Half, h0: Half)
    requires HalfOk(h, h0)
    ensures forall e :: e in h.engine.wire ==> Engine.Proper(e.body)
  {
    forall e | e in h.engine.wire ensures Engine.Proper(e.body) {
      var k :| 0 <= k < |h.engine.wire| && h.engine.wire[k] == e;
      assert h.engine.written[k] in h.engine.written;
    }
  }

  /** Every frame `x` has written passes the other end's checks. */
  ghost predicate Passes(p: Pair, p0: Pair, x: Side) {
    var to := At(p0, Other(x)).engine.guard;
    Handshake.ReceiveAll(to.version, to.admitted, At(p, x).engine.wire).Some?
  }

  lemma PassedBefore(c: Setup, p: Pair, a: Action, p0: Pair, x: Side)
    requires Enabled(c, p, a) && Passes(Step(c, p, a), p0, x)
    ensures Passes(p, p0, x)
  {
    WireGrows(c, p, a, x);
    var to, wire := At(p0, Other(x)).engine.guard, At(Step(c, p, a), x).engine.wire;
    Engine.PrefixPasses(to.version, to.admitted, wire, |At(p, x).engine.wire|);
    assert wire[..|At(p, x).engine.wire|] == At(p, x).engine.wire;
  }

  lemma {:induction false} PassingKeepsOpen(c: Setup, p0: Pair, run: seq<Action>)
    requires Fresh(p0) && IsRun(c, p0, run) && forall x :: Passes(After(c, p0, run), p0, x)
    ensures BothOpen(After(c, p0, run))
  {
    if run == [] {
      assert FreshHalf(At(p0, Initiator)) && FreshHalf(At(p0, Responder));
    } else {
      var before, a := run[..|run| - 1], run[|run| - 1];
      var p := After(c, p0, before);
      forall x ensures Passes(p, p0, x) {
        assert Passes(After(c, p0, run), p0, x);
        PassedBefore(c, p, a, p0, x);
      }
      PassingKeepsOpen(c, p0, before);
      EveryRunDelivers(c, p0, before);
      forall x ensures Readable(At(p, x), At(p0, Other(x))) {
        assert HalfOk(At(p, x), At(p0, x)) && Passes(p, p0, x);
        WireProper(At(p, x), At(p0, x));
      }
      StepKeepsOpen(c, p, a, p0);
    }
  }

  ghost predicate IdsUsable(p: Pair, p0: Pair, x: Side) {
    Engine.IdsUsable(At(p0, Other(x)).engine.guard, At(p, x).engine.wire)
  }

  /** After a handshake, each end's wire passes the other's checks if its ids are usable. */
  lemma UsableIdsPass(i: Handshake.Party, r: Handshake.Party, h: Mac.Hmac, w: Handshake.World, p: Pair, p0: Pair)
    requires Handshake.Honest(i) && Handshake.Honest(r)
    requires Engine.Connected(Handshake.Run(i, r, h, w), p0.initiator.engine, p0.responder.engine)
    requires InFlow(p, p0) && forall x :: IdsUsable(p, p0, x)
    ensures forall x :: Passes(p, p0, x)
  {
    var s, t := p0.initiator.engine, p0.responder.engine;
    var sent, answered := p.initiator.engine.wire, p.responder.engine.wire;
    FlowFacts(p, p0);
    BothWiresPass(i, r, h, w, s, t, sent, answered);
    PassBothWays(p, p0);
  }

  lemma FlowFacts(p: Pair, p0: Pair)
    requires InFlow(p, p0) && forall x :: IdsUsable(p, p0, x)
    ensures Stamped(p0.initiator.engine.factory, p.initiator.engine.wire)
    ensures Stamped(p0.responder.engine.factory, p.responder.engine.wire)
    ensures Engine.IdsUsable(p0.responder.engine.guard, p.initiator.engine.wire)
    ensures Engine.IdsUsable(p0.initiator.engine.guard, p.responder.engine.wire)
  {
    assert HalfOk(At(p, Initiator), At(p0, Initiator)) && HalfOk(At(p, Responder), At(p0, Responder));
    HalfStamped(p.initiator.engine, p0.initiator.engine.factory);
    HalfStamped(p.responder.engine, p0.responder.engine.factory);
    UsableBothWays(p, p0);
  }

  lemma HalfStamped(e: Engine.State, first: Factory)
    requires Engine.InOrder(e, first)
    ensures Stamped(first, e.wire)
  {
    forall k | 0 <= k < |e.wire|
      ensures e.wire[k].protocolVersion == first.protocolVersion && e.wire[k].sequence == first.sequence + k + 1
    {
      assert Engine.Carries(e.wire[k], e.written[k], first.protocolVersion, first.sequence + k + 1);
    }
  }

  lemma UsableBothWays(p: Pair, p0: Pair)
    requires forall x :: IdsUsable(p, p0, x)
    ensures Engine.IdsUsable(p0.responder.engine.guard, p.initiator.engine.wire)
    ensures Engine.IdsUsable(p0.initiator.engine.guard, p.responder.engine.wire)
  {
    assert IdsUsable(p, p0, Initiator) && IdsUsable(p, p0, Responder);
  }

  lemma PassBothWays(p: Pair, p0: Pair)
    requires var to := p0.responder.engine.guard;
             Handshake.ReceiveAll(to.version, to.admitted, p.initiator.engine.wire).Some?
    requires var to := p0.initiator.engine.guard;
             Handshake.ReceiveAll(to.version, to.admitted, p.responder.engine.wire).Some?
    ensures forall x :: Passes(p, p0, x)
  {
    forall x ensures Passes(p, p0, x) {
      assert x == Initiator || x == Responder;
    }
  }

  ghost predicate Stamped(first: Factory, wire: seq<Envelope>) {
    forall k :: 0 <= k < |wire| ==>
      wire[k].protocolVersion == first.protocolVersion && wire[k].sequence == first.sequence + k + 1
  }

  lemma BothWiresPass(i: Handshake.Party, r: Handshake.Party, h: Mac.Hmac, w: Handshake.World,
                      s: Engine.State, t: Engine.State, sent: seq<Envelope>, answered: seq<Envelope>)
    requires Handshake.Honest(i) && Handshake.Honest(r) && Engine.Connected(Handshake.Run(i, r, h, w), s, t)
    requires Stamped(s.factory, sent) && Stamped(t.factory, answered)
    requires Engine.IdsUsable(t.guard, sent) && Engine.IdsUsable(s.guard, answered)
    ensures Handshake.ReceiveAll(t.guard.version, t.guard.admitted, sent).Some?
    ensures Handshake.ReceiveAll(s.guard.version, s.guard.admitted, answered).Some?
  {
    Engine.WireIsSendAll(s.factory, sent);
    Engine.WireIsSendAll(t.factory, answered);
    Handshake.LaterFramesPass(i, r, h, w, Engine.Outs(sent), Engine.Outs(answered));
  }

  /** Everything either end has written, the other's loop has admitted, in order. */
  ghost predicate AllArrived(p: Pair, p0: Pair) {
    forall x :: At(p, Other(x)).engine.guard.admitted == At(p0, Other(x)).engine.guard.admitted + At(p, x).engine.wire
  }

  lemma IdleHasArrived(p: Pair, p0: Pair)
    requires InFlow(p, p0) && BothOpen(p) && Idle(p)
    ensures AllArrived(p, p0)
  {
    forall x
      ensures At(p, Other(x)).engine.guard.admitted == At(p0, Other(x)).engine.guard.admitted + At(p, x).engine.wire
    {
      assert Delivers(p, p0, x) && Bare(At(p, x)) && Bare(At(p, Other(x)));
      NothingOnTheWay(At(p, x), At(p, Other(x)), At(p0, Other(x)).engine.guard.admitted);
    }
  }

  lemma NothingOnTheWay(from: Half, to: Half, log: seq<Envelope>)
    requires Flows(from, to, log) && from.link == [] && to.engine.inputs == []
    ensures to.engine.guard.admitted == log + from.engine.wire
  {
    var taken := to.engine.guard.admitted[|log|..];
    assert from.engine.wire == taken;
    assert to.engine.guard.admitted == log + taken;
  }

  lemma StoppedIsIdle(c: Setup, p: Pair)
    requires c.room > 0 && BothOpen(p) && !Gridlock(c, p) && forall a :: !Enabled(c, p, a)
    ensures Idle(p)
  {
    AllOrNothing(c, p);
    forall x ensures TasksDone(At(p, x)) {
      forall t | 0 <= t < |At(p, x).engine.tasks| ensures At(p, x).engine.tasks[t] == [] {
        assert !Enabled(c, p, Work(x, Engine.TaskPush(t)));
      }
    }
    assert TasksDone(At(p, Initiator)) && TasksDone(At(p, Responder));
  }

  /** Two ends on one connection after a handshake, whatever they send and however they are scheduled, with
      usable ids and no shutdown: neither loop ever ends; and when nothing can move any more, either all is
      done and everything written by either has been admitted by the other, in order, or both are held up
      for ever, each end's queue, link and channel full. */
  lemma DoneOrWedged(i: Handshake.Party, r: Handshake.Party, h: Mac.Hmac, w: Handshake.World,
                     c: Setup, p0: Pair, run: seq<Action>)
    requires Handshake.Honest(i) && Handshake.Honest(r) && c.room > 0 && Fresh(p0) && IsRun(c, p0, run)
    requires Engine.Connected(Handshake.Run(i, r, h, w), p0.initiator.engine, p0.responder.engine)
    requires forall x :: IdsUsable(After(c, p0, run), p0, x)
    ensures var p := After(c, p0, run);
            && BothOpen(p)
            && ((forall a :: !Enabled(c, p, a)) ==> (Idle(p) && AllArrived(p, p0)) || (Gridlock(c, p) && Wedged(c, p)))
  {
    var p := After(c, p0, run);
    EveryRunDelivers(c, p0, run);
    UsableIdsPass(i, r, h, w, p, p0);
    PassingKeepsOpen(c, p0, run);
    if forall a :: !Enabled(c, p, a) {
      if Gridlock(c, p) {
        WedgedExactly(c, p);
      } else {
        StoppedIsIdle(c, p);
        IdleHasArrived(p, p0);
      }
    }
  }

  // ---- That it happens ----

  /** A loop with enough commands to fill its own queue and have one more in hand. Nothing else has happened
      at this end. */
  ghost predicate Loading(h: Half, h0: Half) {
    && IsOpen(h) && h.engine.inputs == [] && h.engine.caps == [] && h.link == [] && h.engine.wire == []
    && h.engine.tasks == h0.engine.tasks && h.engine.factory == h0.engine.factory && h.engine.guard == h0.engine.guard
    && |h.engine.current| <= 1 && (forall r :: r in h.engine.current ==> Engine.IsOwn(r))
    && |h.engine.own| <= Engine.QUEUE && |h.engine.own| + |h.engine.current| + |h.commands| > Engine.QUEUE
    && forall i :: i in h.commands ==> ProperCommand(i)
  }

  /** The loop waits to send a frame of its own into its full queue. */
  predicate Waits(h: Half) {
    h.engine.current != [] && Engine.IsOwn(h.engine.current[0]) && |h.engine.own| >= Engine.QUEUE
  }

  lemma IssueLoads(h: Half, h0: Half, n: seq<string>)
    requires Loading(h, h0) && h.engine.current == []
    ensures h.commands != [] && Loading(Issued(h, n), h0) && |Issued(h, n).commands| < |h.commands|
    ensures |Issued(h, n).engine.current| == 1
  {
    assert h.commands[0] in h.commands;
    assert ([h.commands[0]] + h.engine.inputs)[1..] == [];
    assert |Engine.Sends(h.commands[0], n)| == 1;
  }

  lemma PushLoads(h: Half, h0: Half, n: seq<string>)
    requires Loading(h, h0) && h.engine.current != [] && !Waits(h)
    ensures Engine.Enabled(h.engine, Engine.Push) && Loading(Worked(h, Engine.Push, n), h0)
    ensures Worked(h, Engine.Push, n).commands == h.commands && Worked(h, Engine.Push, n).engine.current == []
  {
    assert h.engine.current[0] in h.engine.current;
  }

  /** What loading still has to do. */
  function Unloaded(h: Half): nat {
    2 * |h.commands| + |h.engine.current|
  }

  /** Some schedule of one end alone brings its loop to wait. */
  lemma LoadOne(c: Setup, p0: Pair, run: seq<Action>, x: Side, h0: Half) returns (more: seq<Action>)
    requires IsRun(c, p0, run) && Loading(At(After(c, p0, run), x), h0)
    ensures IsRun(c, p0, more) && Loading(At(After(c, p0, more), x), h0) && Waits(At(After(c, p0, more), x))
    ensures At(After(c, p0, more), Other(x)) == At(After(c, p0, run), Other(x))
  {
    more := run;
    while !Waits(At(After(c, p0, more), x))
      invariant IsRun(c, p0, more) && Loading(At(After(c, p0, more), x), h0)
      invariant At(After(c, p0, more), Other(x)) == At(After(c, p0, run), Other(x))
      decreases Unloaded(At(After(c, p0, more), x))
    {
      var h := At(After(c, p0, more), x);
      var a := if h.engine.current == [] then Issue(x) else Work(x, Engine.Push);
      if h.engine.current == [] {
        IssueLoads(h, h0, c.negotiated(x));
      } else {
        PushLoads(h, h0, c.negotiated(x));
      }
      RunSnoc(c, p0, more, a);
      more := more + [a];
    }
  }

  /** A message a task sends. */
  predicate IsMessage(r: Engine.Request) {
    !Engine.IsOwn(r) && r.id.None?
  }

  /** One end, its loop waiting, sends its first task's messages to the other, each under the next of `ids`;
      the other reads them and, its loop waiting too, takes none. */
  ghost predicate Filling(c: Setup, ids: seq<Bytes>, from: Half, to: Half) {
    && IsOpen(from) && IsOpen(to) && Waits(from) && Waits(to) && from.engine.tasks != []
    && (forall r :: r in from.engine.tasks[0] ==> IsMessage(r)) && (forall r :: r in from.engine.caps ==> IsMessage(r))
    && |from.engine.caps| <= Engine.QUEUE && |from.link| <= c.room && |to.engine.inputs| <= INBOUND
    && |from.engine.wire| == |from.link| + |to.engine.inputs| && Named(from.engine.wire, ids)
    && |from.engine.tasks[0]| + |from.engine.caps| + |from.link| + |to.engine.inputs| >= c.room + INBOUND
  }

  /** The frames bear these ids, in order. */
  ghost predicate Named(wire: seq<Envelope>, ids: seq<Bytes>) {
    |wire| <= |ids| && forall k :: 0 <= k < |wire| ==> wire[k].messageId == ids[k]
  }

  predicate Full(c: Setup, from: Half, to: Half) {
    |from.link| >= c.room && |to.engine.inputs| >= INBOUND
  }

  /** What filling depends on. */
  predicate SameFlow(from: Half, to: Half, from': Half, to': Half) {
    && from'.engine.tasks == from.engine.tasks && from'.engine.caps == from.engine.caps && from'.link == from.link
    && from'.engine.wire == from.engine.wire && to'.engine.inputs == to.engine.inputs
    && (Waits(from) ==> Waits(from')) && (Waits(to) ==> Waits(to'))
    && (IsOpen(from) ==> IsOpen(from')) && (IsOpen(to) ==> IsOpen(to'))
  }

  /** The work filling still has to do. */
  ghost function Ahead(from: Half, to: Half): nat {
    (if from.engine.tasks == [] then 0 else 4 * |from.engine.tasks[0]|)
    + 3 * |from.engine.caps| + 2 * |from.link| + |to.engine.inputs|
  }

  lemma PushFills(c: Setup, ids: seq<Bytes>, from: Half, to: Half, n: seq<string>)
    requires Filling(c, ids, from, to) && from.engine.tasks[0] != [] && |from.engine.caps| < Engine.QUEUE
    ensures Engine.Enabled(from.engine, Engine.TaskPush(0))
    ensures var after := Worked(from, Engine.TaskPush(0), n);
            Filling(c, ids, after, to) && Ahead(after, to) < Ahead(from, to) && SameFlow(to, from, to, after)
  {
    assert from.engine.tasks[0][0] in from.engine.tasks[0];
  }

  lemma WriteFills(c: Setup, ids: seq<Bytes>, from: Half, to: Half, n: seq<string>)
    requires Filling(c, ids, from, to) && from.engine.caps != [] && |from.link| < c.room && |ids| >= c.room + INBOUND
    ensures |from.engine.wire| < |ids|
    ensures var write := Engine.WriteCap(ids[|from.engine.wire|]);
            && Engine.Enabled(from.engine, write)
            && var after := Worked(from, write, n);
               Filling(c, ids, after, to) && Ahead(after, to) < Ahead(from, to) && SameFlow(to, from, to, after)
  {
    assert from.engine.caps[0] in from.engine.caps;
  }

  lemma ReadFills(c: Setup, ids: seq<Bytes>, from: Half, to: Half, answers: seq<(string, Bytes)>)
    requires Filling(c, ids, from, to) && from.link != [] && |to.engine.inputs| < INBOUND
    ensures var from', to' := from.(link := from.link[1..]), Received(to, from.link[0], answers);
            Filling(c, ids, from', to') && Ahead(from', to') < Ahead(from, to) && SameFlow(to, from, to', from')
  {
  }

  ghost predicate BothFilling(c: Setup, ids: Side -> seq<Bytes>, p: Pair) {
    Filling(c, ids(Initiator), p.initiator, p.responder) && Filling(c, ids(Responder), p.responder, p.initiator)
  }

  ghost function AllAhead(p: Pair): nat {
    Ahead(p.initiator, p.responder) + Ahead(p.responder, p.initiator)
  }

  /** A step of one direction leaves the other as it was. */
  lemma OtherWayKept(c: Setup, ids: seq<Bytes>, from: Half, to: Half, from': Half, to': Half)
    requires Filling(c, ids, from, to) && SameFlow(from, to, from', to')
    ensures Filling(c, ids, from', to') && Ahead(from', to') == Ahead(from, to)
  {
  }

  /** While one direction has not filled everything, it can go on. */
  lemma FillingGoesOn(c: Setup, ids: Side -> seq<Bytes>, p: Pair, x: Side) returns (a: Action)
    requires c.room > 0 && BothFilling(c, ids, p) && |ids(x)| >= c.room + INBOUND
    requires !Full(c, At(p, x), At(p, Other(x)))
    ensures Enabled(c, p, a) && BothFilling(c, ids, Step(c, p, a)) && AllAhead(Step(c, p, a)) < AllAhead(p)
  {
    var y := Other(x);
    var from, to := At(p, x), At(p, y);
    assert Filling(c, ids(x), from, to) && Filling(c, ids(y), to, from);
    if from.engine.caps != [] && |from.link| < c.room {
      WriteFills(c, ids(x), from, to, c.negotiated(x));
      a := Work(x, Engine.WriteCap(ids(x)[|from.engine.wire|]));
    } else if from.link != [] && |to.engine.inputs| < INBOUND {
      ReadFills(c, ids(x), from, to, c.answers(y, from.link[0]));
      a := Read(y);
    } else {
      PushFills(c, ids(x), from, to, c.negotiated(x));
      a := Work(x, Engine.TaskPush(0));
    }
    var q := Step(c, p, a);
    OtherWayKept(c, ids(y), to, from, At(q, y), At(q, x));
  }

  lemma FillBoth(c: Setup, ids: Side -> seq<Bytes>, p0: Pair, run: seq<Action>) returns (more: seq<Action>)
    requires c.room > 0 && IsRun(c, p0, run) && BothFilling(c, ids, After(c, p0, run))
    requires |ids(Initiator)| >= c.room + INBOUND && |ids(Responder)| >= c.room + INBOUND
    ensures IsRun(c, p0, more) && BothFilling(c, ids, After(c, p0, more)) && Gridlock(c, After(c, p0, more))
  {
    more := run;
    while !(Full(c, At(After(c, p0, more), Initiator), At(After(c, p0, more), Responder))
            && Full(c, At(After(c, p0, more), Responder), At(After(c, p0, more), Initiator)))
      invariant IsRun(c, p0, more) && BothFilling(c, ids, After(c, p0, more))
      decreases AllAhead(After(c, p0, more))
    {
      var p := After(c, p0, more);
      var x := if Full(c, At(p, Initiator), At(p, Responder)) then Responder else Initiator;
      var a := FillingGoesOn(c, ids, p, x);
      RunSnoc(c, p0, more, a);
      more := more + [a];
    }
  }

  /** Ids enough, of the right size, all different and new to the other's guard. */
  ghost predicate NewIds(ids: seq<Bytes>, guard: Engine.Guard) {
    Distinct(ids) && forall k :: 0 <= k < |ids| ==> |ids[k]| == 16 && ids[k] !in Replay.Ids(guard.admitted)
  }

  lemma {:induction false} NewIdsUsable(window: seq<Bytes>, out: seq<Handshake.Outgoing>)
    requires forall k :: 0 <= k < |out| ==> |out[k].id| == 16 && out[k].id !in window
    requires forall j, k :: 0 <= j < k < |out| ==> out[j].id != out[k].id
    ensures Handshake.IdsUsable(window, out)
    decreases |out|
  {
    if out != [] {
      assert forall k :: 0 <= k < |out| - 1 ==> out[1..][k] == out[k + 1];
      NewIdsUsable(window + [out[0].id], out[1..]);
      assert forall i :: i in LastN(window, Replay.DEDUP_WINDOW) ==> i in window;
    }
  }

  lemma NamedUsable(wire: seq<Envelope>, ids: seq<Bytes>, guard: Engine.Guard)
    requires Named(wire, ids) && NewIds(ids, guard)
    ensures Engine.IdsUsable(guard, wire)
  {
    var out := Engine.Outs(wire);
    assert forall k :: 0 <= k < |out| ==> out[k].id == ids[k];
    NewIdsUsable(Replay.Ids(guard.admitted), out);
  }

  /** More commands than the loop's queue holds, and a task with enough messages for link and channel. */
  ghost predicate HasLoad(c: Setup, h: Half) {
    && |h.commands| > Engine.QUEUE && h.engine.tasks != [] && |h.engine.tasks[0]| >= c.room + INBOUND
    && forall r :: r in h.engine.tasks[0] ==> IsMessage(r)
  }

  lemma FreshLoads(c: Setup, h: Half)
    requires FreshHalf(h) && HasLoad(c, h)
    ensures Loading(h, h)
  {
  }

  lemma LoadedFills(c: Setup, ids: seq<Bytes>, from: Half, from0: Half, to: Half, to0: Half)
    requires Loading(from, from0) && Loading(to, to0) && Waits(from) && Waits(to) && HasLoad(c, from0)
    ensures Filling(c, ids, from, to)
  {
  }

  /** Two ends that each have more commands to carry out than the loop's own queue holds, and a task with
      enough messages for its link and the other's channel, have a schedule, with usable ids, that holds both
      up for ever. No handler answers anything in it. */
  lemma LoadedEndsCanWedge(c: Setup, ids: Side -> seq<Bytes>, p0: Pair) returns (run: seq<Action>)
    requires c.room > 0 && Fresh(p0)
    requires forall x :: HasLoad(c, At(p0, x)) && |ids(x)| >= c.room + INBOUND
    requires forall x :: NewIds(ids(x), At(p0, Other(x)).engine.guard)
    ensures IsRun(c, p0, run) && BothOpen(After(c, p0, run)) && Wedged(c, After(c, p0, run))
    ensures forall x :: IdsUsable(After(c, p0, run), p0, x)
  {
    assert FreshHalf(At(p0, Initiator)) && FreshHalf(At(p0, Responder));
    assert HasLoad(c, At(p0, Initiator)) && HasLoad(c, At(p0, Responder));
    FreshLoads(c, p0.initiator);
    FreshLoads(c, p0.responder);
    run := LoadOne(c, p0, [], Initiator, p0.initiator);
    run := LoadOne(c, p0, run, Responder, p0.responder);
    var p := After(c, p0, run);
    LoadedFills(c, ids(Initiator), p.initiator, p0.initiator, p.responder, p0.responder);
    LoadedFills(c, ids(Responder), p.responder, p0.responder, p.initiator, p0.initiator);
    run := FillBoth(c, ids, p0, run);
    WedgedExactly(c, After(c, p0, run));
    FilledUsable(c, ids, After(c, p0, run), p0);
  }

  lemma FilledUsable(c: Setup, ids: Side -> seq<Bytes>, p: Pair, p0: Pair)
    requires BothFilling(c, ids, p) && forall x :: NewIds(ids(x), At(p0, Other(x)).engine.guard)
    ensures forall x :: IdsUsable(p, p0, x)
  {
    forall x ensures IdsUsable(p, p0, x) {
      assert Filling(c, ids(x), At(p, x), At(p, Other(x)));
      assert NewIds(ids(x), At(p0, Other(x)).engine.guard);
      NamedUsable(At(p, x).engine.wire, ids(x), At(p0, Other(x)).engine.guard);
    }
  }
}
