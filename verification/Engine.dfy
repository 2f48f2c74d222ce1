/** An established session at work: the dispatch loop, the capabilities' own tasks and the one writer,
    joined by two bounded queues, over every schedule of them. */
module Engine {
  import opened Base
  import opened Wire
  import Handshake
  import Mac
  import Replay

  const QUEUE: nat := 32
  const MAX_PING_PAYLOAD: nat := 64

  /** Who produced a frame. The dispatch loop's own frames use one queue; capability messages, whether
      sent while the loop awaits a handler (`Capability(0)`) or from a task of their own, use the other. */
  datatype Producer = Loop | Capability(task: nat)

  /** A frame to be written: the writer mints an id unless one was fixed beforehand. */
  datatype Request = Request(producer: Producer, body: Body, id: Option<Bytes>, correlation: Bytes)

  /** What wakes the dispatch loop. An inbound frame comes with whatever its handler will answer. */
  datatype Input =
    | Inbound(env: Envelope, replies: seq<(string, Bytes)>)
    | PingCommand(payload: Bytes, id: Bytes)
    | SendCommand(capability: string, payload: Bytes)
    | Probe(payload: Bytes)
    | Shutdown

  /** What the loop checks every inbound frame against: the agreed version and what was admitted so far. */
  datatype Guard = Guard(version: nat, admitted: seq<Envelope>)

  /** A frame of another version, or one the replay guard refuses. */
  ghost predicate Refused(g: Guard, i: Input) {
    i.Inbound? && (i.env.protocolVersion != g.version || !Replay.Fresh(g.admitted, i.env))
  }

  function Admitted(g: Guard, i: Input): Guard {
    if i.Inbound? then g.(admitted := g.admitted + [i.env]) else g
  }

  ghost predicate EndsLoop(g: Guard, i: Input) {
    Refused(g, i) || Unacceptable(i)
  }

  /** An input that ends an established session by what it says. */
  predicate Unacceptable(i: Input) {
    match i
    case Inbound(env, _) =>
      (match env.body
       case Ping(payload) => |payload| > MAX_PING_PAYLOAD
       case Pong(_) => false
       case CapabilityMessage(_, _) => false
       case CapabilityAnnounce => false
       case ErrorFrame(fatal) => fatal
       case _ => true)
    case Shutdown => true
    case _ => false
  }

  function Replies(replies: seq<(string, Bytes)>): (r: seq<Request>)
    ensures |r| == |replies|
  {
    seq(|replies|, k requires 0 <= k < |replies| =>
      Request(Capability(0), CapabilityMessage(replies[k].0, replies[k].1), None, []))
  }

  /** The frames one input makes the loop send, in order. */
  function Sends(i: Input, negotiated: seq<string>): seq<Request> {
    if Unacceptable(i) then []
    else
      match i
      case Inbound(env, replies) =>
        (match env.body
         case Ping(payload) => [Request(Loop, Pong(payload), None, env.messageId)]
         case CapabilityMessage(capability, _) =>
           if capability !in negotiated then [Request(Loop, ErrorFrame(false), None, env.messageId)]
           else Replies(replies)
         case _ => [])
      case PingCommand(payload, id) => [Request(Loop, Ping(payload), Some(id), [])]
      case SendCommand(capability, payload) => [Request(Loop, CapabilityMessage(capability, payload), None, [])]
      case Probe(payload) => [Request(Loop, Ping(payload), None, [])]
      case Shutdown => []
  }

  /** The frames a whole sequence of inputs makes it send, up to the one that ends it. */
  ghost function AllSends(g: Guard, inputs: seq<Input>, negotiated: seq<string>): seq<Request>
    decreases |inputs|
  {
    if inputs == [] || EndsLoop(g, inputs[0]) then []
    else Sends(inputs[0], negotiated) + AllSends(Admitted(g, inputs[0]), inputs[1..], negotiated)
  }

  datatype State = State(
    inputs: seq<Input>,            // not yet taken by the loop
    guard: Guard,                  // what the loop has admitted
    current: seq<Request>,         // what the loop still has to send for the input it is handling
    tasks: seq<seq<Request>>,      // what each capability task still has to send
    own: seq<Request>,             // the two queues
    caps: seq<Request>,
    accepted: seq<Request>,        // everything either queue has taken, in order
    written: seq<Request>,         // everything the writer has taken from them, in order
    factory: Factory,
    wire: seq<Envelope>,
    closed: bool,                  // the loop has ended
    stopped: bool)                 // the writer has ended

  predicate IsOwn(r: Request) {
    r.producer.Loop?
  }

  function Enqueue(s: State, r: Request): State {
    if IsOwn(r) then s.(own := s.own + [r], accepted := s.accepted + [r])
    else s.(caps := s.caps + [r], accepted := s.accepted + [r])
  }

  predicate HasRoom(s: State, r: Request) {
    if IsOwn(r) then |s.own| < QUEUE else |s.caps| < QUEUE
  }

  function Write(s: State, r: Request, minted: Bytes): State {
    var id := if r.id.Some? then r.id.value else minted;
    var (factory, env) := Stamp(s.factory, id, r.correlation, r.body);
    s.(factory := factory, wire := s.wire + [env], written := s.written + [r])
  }

  datatype Action =
    | Take                          // the loop takes its next input
    | Push                          // the loop sends its next frame
    | TaskPush(task: nat)           // a capability task sends its next message
    | WriteOwn(minted: Bytes)       // the writer takes from one queue or the other
    | WriteCap(minted: Bytes)
    | Stop                          // the writer sees that the loop has gone and its queue is empty

  predicate Enabled(s: State, a: Action) {
    match a
    case Take => !s.closed && s.current == [] && s.inputs != []
    case Push => !s.closed && s.current != [] && HasRoom(s, s.current[0])
    case TaskPush(t) => !s.stopped && t < |s.tasks| && s.tasks[t] != [] && HasRoom(s, s.tasks[t][0])
    case WriteOwn(_) => !s.stopped && s.own != []
    case WriteCap(_) => !s.stopped && s.caps != []
    case Stop => s.closed && !s.stopped && s.own == []
  }

  ghost function Step(s: State, a: Action, negotiated: seq<string>): State
    requires Enabled(s, a)
  {
    match a
    case Take =>
      if EndsLoop(s.guard, s.inputs[0]) then s.(inputs := s.inputs[1..], closed := true)
      else s.(inputs := s.inputs[1..], guard := Admitted(s.guard, s.inputs[0]),
        current := Sends(s.inputs[0], negotiated))
    case Push => Enqueue(s.(current := s.current[1..]), s.current[0])
    case TaskPush(t) => Enqueue(s.(tasks := s.tasks[t := s.tasks[t][1..]]), s.tasks[t][0])
    case WriteOwn(minted) => Write(s.(own := s.own[1..]), s.own[0], minted)
    case WriteCap(minted) => Write(s.(caps := s.caps[1..]), s.caps[0], minted)
    case Stop => s.(stopped := true)
  }

  /** A schedule: every action was enabled when it was taken. */
  ghost predicate IsRun(s: State, run: seq<Action>, negotiated: seq<string>)
    decreases |run|
  {
    run == [] || (Enabled(s, run[0]) && IsRun(Step(s, run[0], negotiated), run[1..], negotiated))
  }

  ghost function After(s: State, run: seq<Action>, negotiated: seq<string>): State
    requires IsRun(s, run, negotiated)
    decreases |run|
  {
    if run == [] then s else After(Step(s, run[0], negotiated), run[1..], negotiated)
  }

  /** A session just after its handshake, whatever is going to happen in it. */
  ghost predicate Starts(s: State) {
    && s.current == [] && s.own == [] && s.caps == [] && s.accepted == [] && s.written == [] && s.wire == []
    && !s.closed && !s.stopped
    && TasksTagged(s)
  }

  ghost predicate TasksTagged(s: State) {
    forall t, k :: 0 <= t < |s.tasks| && 0 <= k < |s.tasks[t]| ==> s.tasks[t][k].producer == Capability(t + 1)
  }

  // ---- Order ----

  function From(s: seq<Request>, p: Producer): seq<Request> {
    Filter(s, (r: Request) => r.producer == p)
  }

  function OwnOf(s: seq<Request>): seq<Request> {
    Filter(s, IsOwn)
  }

  function CapsOf(s: seq<Request>): seq<Request> {
    Filter(s, r => !IsOwn(r))
  }

  /** What a producer has still to send. */
  ghost function Left(s: State, p: Producer, negotiated: seq<string>): seq<Request> {
    if p.Capability? && p.task > 0 then (if p.task <= |s.tasks| then s.tasks[p.task - 1] else [])
    else if s.closed then []
    else From(s.current, p) + From(AllSends(s.guard, s.inputs, negotiated), p)
  }

  /** Each queue is first in, first out, and within its bound; and the wire is what the writer took,
      stamped with consecutive sequence numbers. */
  ghost predicate InOrder(s: State, first: Factory) {
    && OwnOf(s.written) + s.own == OwnOf(s.accepted)
    && CapsOf(s.written) + s.caps == CapsOf(s.accepted)
    && |s.own| <= QUEUE && |s.caps| <= QUEUE
    && (forall r :: r in s.own ==> IsOwn(r)) && (forall r :: r in s.caps ==> !IsOwn(r))
    && |s.wire| == |s.written|
    && s.factory == first.(sequence := first.sequence + |s.wire|)
    && forall k :: 0 <= k < |s.wire| ==> Carries(s.wire[k], s.written[k], first.protocolVersion, first.sequence + k + 1)
  }

  predicate Carries(e: Envelope, r: Request, version: nat, sequence: nat) {
    && e.protocolVersion == version && e.sequence == sequence
    && e.body == r.body && e.correlationId == r.correlation && (r.id.Some? ==> e.messageId == r.id.value)
  }

  lemma EnqueueKeepsOrder(s: State, r: Request, first: Factory)
    requires InOrder(s, first) && HasRoom(s, r)
    ensures InOrder(Enqueue(s, r), first)
  {
    FilterSnoc(s.accepted, r, IsOwn);
    FilterSnoc(s.accepted, r, r => !IsOwn(r));
    if IsOwn(r) {
      assert OwnOf(s.written) + (s.own + [r]) == OwnOf(s.written) + s.own + [r];
      assert CapsOf(s.accepted + [r]) == CapsOf(s.accepted);
    } else {
      assert CapsOf(s.written) + (s.caps + [r]) == CapsOf(s.written) + s.caps + [r];
      assert OwnOf(s.accepted + [r]) == OwnOf(s.accepted);
    }
  }

  lemma WriteOwnKeepsOrder(s: State, minted: Bytes, first: Factory)
    requires InOrder(s, first) && s.own != []
    ensures InOrder(Write(s.(own := s.own[1..]), s.own[0], minted), first)
  {
    var r := s.own[0];
    FilterSnoc(s.written, r, IsOwn);
    FilterSnoc(s.written, r, r => !IsOwn(r));
    assert OwnOf(s.written) + [r] + s.own[1..] == OwnOf(s.written) + s.own;
    assert CapsOf(s.written + [r]) == CapsOf(s.written);
  }

  lemma WriteCapKeepsOrder(s: State, minted: Bytes, first: Factory)
    requires InOrder(s, first) && s.caps != []
    ensures InOrder(Write(s.(caps := s.caps[1..]), s.caps[0], minted), first)
  {
    var r := s.caps[0];
    FilterSnoc(s.written, r, IsOwn);
    FilterSnoc(s.written, r, r => !IsOwn(r));
    assert CapsOf(s.written) + [r] + s.caps[1..] == CapsOf(s.written) + s.caps;
    assert OwnOf(s.written + [r]) == OwnOf(s.written);
  }

  lemma StepKeepsOrder(s: State, a: Action, negotiated: seq<string>, first: Factory)
    requires Enabled(s, a) && InOrder(s, first)
    ensures InOrder(Step(s, a, negotiated), first)
  {
    match a
    case Take =>
    case Push => EnqueueKeepsOrder(s.(current := s.current[1..]), s.current[0], first);
    case TaskPush(t) => EnqueueKeepsOrder(s.(tasks := s.tasks[t := s.tasks[t][1..]]), s.tasks[t][0], first);
    case WriteOwn(minted) => WriteOwnKeepsOrder(s, minted, first);
    case WriteCap(minted) => WriteCapKeepsOrder(s, minted, first);
    case Stop =>
  }

  lemma {:induction false} RunKeepsOrder(s: State, run: seq<Action>, negotiated: seq<string>, first: Factory)
    requires InOrder(s, first) && IsRun(s, run, negotiated)
    ensures InOrder(After(s, run, negotiated), first)
    decreases |run|
  {
    if run != [] {
      StepKeepsOrder(s, run[0], negotiated, first);
      RunKeepsOrder(Step(s, run[0], negotiated), run[1..], negotiated, first);
    }
  }

  /** For every schedule the wire is an interleaving of the two queues that keeps each in order, and its
      sequence numbers continue the handshake's without a gap. */
  lemma WireIsOrdered(s: State, run: seq<Action>, negotiated: seq<string>)
    requires Starts(s) && IsRun(s, run, negotiated)
    ensures InOrder(After(s, run, negotiated), s.factory)
  {
    RunKeepsOrder(s, run, negotiated, s.factory);
  }

  // ---- Conservation ----

  lemma LoopProducers(i: Input, negotiated: seq<string>)
    ensures forall r :: r in Sends(i, negotiated) ==> r.producer in {Loop, Capability(0)}
  {
  }

  /** A task's next message, or the loop's, moves from what is left to what a queue has accepted. */
  lemma MovedOne(accepted: seq<Request>, r: Request, left: seq<Request>, p: Producer)
    requires left != [] && left[0] == r
    ensures From(accepted + [r], p) + From(left[1..], p) == From(accepted, p) + From(left, p)
  {
    FilterSnoc(accepted, r, (r: Request) => r.producer == p);
    assert From(left, p) == (if r.producer == p then [r] else []) + From(left[1..], p);
  }

  /** What producer `p` has had accepted, and what it has left. */
  ghost function Total(s: State, p: Producer, negotiated: seq<string>): seq<Request> {
    From(s.accepted, p) + Left(s, p, negotiated)
  }

  ghost predicate LoopTagged(s: State) {
    forall r :: r in s.current ==> r.producer in {Loop, Capability(0)}
  }

  ghost predicate Tagged(s: State) {
    TasksTagged(s) && LoopTagged(s) && (s.closed ==> s.current == []) && (s.stopped ==> s.closed && s.own == [])
  }

  lemma TakeConserves(s: State, negotiated: seq<string>, p: Producer)
    requires Enabled(s, Take)
    ensures Total(Step(s, Take, negotiated), p, negotiated) == Total(s, p, negotiated)
  {
    NextSends(s.guard, s.inputs, negotiated, p);
    TakeMoves(s, negotiated, p);
  }

  lemma NextSends(g: Guard, inputs: seq<Input>, negotiated: seq<string>, p: Producer)
    requires inputs != []
    ensures From([], p) == []
    ensures From(AllSends(g, inputs, negotiated), p)
         == if EndsLoop(g, inputs[0]) then []
            else From(Sends(inputs[0], negotiated), p)
                 + From(AllSends(Admitted(g, inputs[0]), inputs[1..], negotiated), p)
  {
    FilterConcat(Sends(inputs[0], negotiated), AllSends(Admitted(g, inputs[0]), inputs[1..], negotiated),
                 (r: Request) => r.producer == p);
  }

  lemma TakeMoves(s: State, negotiated: seq<string>, p: Producer)
    requires Enabled(s, Take) && From([], p) == []
    requires From(AllSends(s.guard, s.inputs, negotiated), p)
          == if EndsLoop(s.guard, s.inputs[0]) then []
             else From(Sends(s.inputs[0], negotiated), p)
                  + From(AllSends(Admitted(s.guard, s.inputs[0]), s.inputs[1..], negotiated), p)
    ensures Left(Step(s, Take, negotiated), p, negotiated) == Left(s, p, negotiated)
  {
    TakeFields(s, negotiated);
    var ahead := From(AllSends(s.guard, s.inputs, negotiated), p);
    assert From(s.current, p) + ahead == ahead;
  }

  lemma TakeFields(s: State, negotiated: seq<string>)
    requires Enabled(s, Take)
    ensures var e := Step(s, Take, negotiated);
            && e.tasks == s.tasks && e.accepted == s.accepted && (e.closed <==> EndsLoop(s.guard, s.inputs[0]))
            && (!e.closed ==> && e.inputs == s.inputs[1..] && e.guard == Admitted(s.guard, s.inputs[0])
                              && e.current == Sends(s.inputs[0], negotiated))
  {
  }

  lemma PushConserves(s: State, negotiated: seq<string>, p: Producer)
    requires Enabled(s, Push) && Tagged(s)
    ensures Total(Step(s, Push, negotiated), p, negotiated) == Total(s, p, negotiated)
  {
    var r, e := s.current[0], Step(s, Push, negotiated);
    assert r in s.current && e.accepted == s.accepted + [r] && e.current == s.current[1..];
    assert e.inputs == s.inputs && e.tasks == s.tasks && e.closed == s.closed;
    PushMoves(s.accepted, s.current, From(AllSends(s.guard, s.inputs, negotiated), p), p);
    FilterSnoc(s.accepted, r, (r: Request) => r.producer == p);
  }

  lemma PushMoves(accepted: seq<Request>, current: seq<Request>, more: seq<Request>, p: Producer)
    requires current != []
    ensures From(accepted + [current[0]], p) + (From(current[1..], p) + more)
            == From(accepted, p) + (From(current, p) + more)
  {
    MovedOne(accepted, current[0], current, p);
    assert From(accepted + [current[0]], p) + (From(current[1..], p) + more)
        == From(accepted + [current[0]], p) + From(current[1..], p) + more;
    assert From(accepted, p) + (From(current, p) + more) == From(accepted, p) + From(current, p) + more;
  }

  lemma TaskPushConserves(s: State, t: nat, negotiated: seq<string>, p: Producer)
    requires Enabled(s, TaskPush(t)) && Tagged(s)
    ensures Total(Step(s, TaskPush(t), negotiated), p, negotiated) == Total(s, p, negotiated)
  {
    AcceptedByTask(s, t, negotiated, p);
    LeftAfterTaskPush(s, t, negotiated, p);
    TaskMoves(From(s.accepted, p), s.tasks[t], Left(s, p, negotiated), TaskOwner(s, t, p));
  }

  /** Whether the next message of task `t` is producer `p`'s. */
  ghost predicate TaskOwner(s: State, t: nat, p: Producer)
    requires Enabled(s, TaskPush(t)) && Tagged(s)
    ensures TaskOwner(s, t, p) <==> s.tasks[t][0].producer == p
    ensures TaskOwner(s, t, p) <==> p == Capability(t + 1)
    ensures TaskOwner(s, t, p) ==> forall negotiated :: Left(s, p, negotiated) == s.tasks[t]
  {
    p == Capability(t + 1)
  }

  lemma TaskMoves(accepted: seq<Request>, task: seq<Request>, left: seq<Request>, mine: bool)
    requires task != [] && (mine ==> left == task)
    ensures accepted + (if mine then [task[0]] else []) + (if mine then task[1..] else left) == accepted + left
  {
    if mine {
      HeadMoves(accepted, task);
    }
  }

  lemma AcceptedByTask(s: State, t: nat, negotiated: seq<string>, p: Producer)
    requires Enabled(s, TaskPush(t))
    ensures var r := s.tasks[t][0];
            From(Step(s, TaskPush(t), negotiated).accepted, p)
              == From(s.accepted, p) + (if r.producer == p then [r] else [])
  {
    FilterSnoc(s.accepted, s.tasks[t][0], (r: Request) => r.producer == p);
  }

  lemma LeftAfterTaskPush(s: State, t: nat, negotiated: seq<string>, p: Producer)
    requires Enabled(s, TaskPush(t))
    ensures Left(Step(s, TaskPush(t), negotiated), p, negotiated)
         == if p == Capability(t + 1) then s.tasks[t][1..] else Left(s, p, negotiated)
  {
    var e := Step(s, TaskPush(t), negotiated);
    assert e.tasks == s.tasks[t := s.tasks[t][1..]] && e.inputs == s.inputs && e.guard == s.guard;
    assert e.current == s.current && e.closed == s.closed;
  }

  lemma HeadMoves(accepted: seq<Request>, left: seq<Request>)
    requires left != []
    ensures accepted + [left[0]] + left[1..] == accepted + left
  {
  }

  lemma StepConserves(s: State, a: Action, negotiated: seq<string>, p: Producer)
    requires Enabled(s, a) && Tagged(s)
    ensures Total(Step(s, a, negotiated), p, negotiated) == Total(s, p, negotiated)
  {
    match a
    case Take => TakeConserves(s, negotiated, p);
    case Push => PushConserves(s, negotiated, p);
    case TaskPush(t) => TaskPushConserves(s, t, negotiated, p);
    case WriteOwn(_) =>
    case WriteCap(_) =>
    case Stop =>
  }

  lemma StepKeepsTags(s: State, a: Action, negotiated: seq<string>)
    requires Enabled(s, a) && Tagged(s)
    ensures Tagged(Step(s, a, negotiated))
  {
    if a.Take? {
      LoopProducers(s.inputs[0], negotiated);
    }
  }

  lemma {:induction false} RunConserves(s: State, run: seq<Action>, negotiated: seq<string>, p: Producer)
    requires Tagged(s) && IsRun(s, run, negotiated)
    ensures Tagged(After(s, run, negotiated))
    ensures Total(After(s, run, negotiated), p, negotiated) == Total(s, p, negotiated)
    decreases |run|
  {
    if run != [] {
      StepKeepsTags(s, run[0], negotiated);
      StepConserves(s, run[0], negotiated, p);
      RunConserves(Step(s, run[0], negotiated), run[1..], negotiated, p);
    }
  }

  // ---- Each producer's order on the wire ----

  function QueueOf(s: State, p: Producer): seq<Request> {
    if p.Loop? then s.own else s.caps
  }

  lemma {:induction false} FromOfOwn(s: seq<Request>, p: Producer)
    ensures p.Loop? ==> From(OwnOf(s), p) == From(s, p)
    ensures !p.Loop? ==> From(CapsOf(s), p) == From(s, p)
  {
    if s != [] {
      FromOfOwn(s[1..], p);
      if IsOwn(s[0]) {
        assert OwnOf(s)[1..] == OwnOf(s[1..]) && CapsOf(s) == CapsOf(s[1..]);
      } else {
        assert CapsOf(s)[1..] == CapsOf(s[1..]) && OwnOf(s) == OwnOf(s[1..]);
      }
    }
  }

  /** For every schedule and every producer: its frames on the wire, then those in its queue, then those
      it has not sent yet, are exactly what it set out to send, in that order. */
  lemma ProducersKeepOrder(s: State, run: seq<Action>, negotiated: seq<string>, p: Producer)
    requires Starts(s) && IsRun(s, run, negotiated)
    ensures var e := After(s, run, negotiated);
            From(e.written, p) + From(QueueOf(e, p), p) + Left(e, p, negotiated) == Left(s, p, negotiated)
  {
    WireIsOrdered(s, run, negotiated);
    RunConserves(s, run, negotiated, p);
    OrderedAndConserved(s, After(s, run, negotiated), negotiated, p);
  }

  lemma OrderedAndConserved(s: State, e: State, negotiated: seq<string>, p: Producer)
    requires s.accepted == [] && InOrder(e, s.factory) && Total(e, p, negotiated) == Total(s, p, negotiated)
    ensures From(e.written, p) + From(QueueOf(e, p), p) + Left(e, p, negotiated) == Left(s, p, negotiated)
  {
    WrittenThenQueued(e, s.factory, p);
    assert From(s.accepted, p) == [];
  }

  lemma WrittenThenQueued(e: State, first: Factory, p: Producer)
    requires InOrder(e, first)
    ensures From(e.written, p) + From(QueueOf(e, p), p) == From(e.accepted, p)
  {
    FromOfOwn(e.written, p);
    FromOfOwn(e.accepted, p);
    var mine := (r: Request) => r.producer == p;
    if p.Loop? {
      FilterConcat(OwnOf(e.written), e.own, mine);
    } else {
      FilterConcat(CapsOf(e.written), e.caps, mine);
    }
  }

  // ---- Progress ----

  function SumTasks(tasks: seq<seq<Request>>): nat {
    if tasks == [] then 0 else |tasks[0]| + SumTasks(tasks[1..])
  }

  lemma {:induction false} SumTasksUpdate(tasks: seq<seq<Request>>, t: nat)
    requires t < |tasks| && tasks[t] != []
    ensures SumTasks(tasks[t := tasks[t][1..]]) == SumTasks(tasks) - 1
  {
    if t > 0 {
      assert tasks[t := tasks[t][1..]][1..] == tasks[1..][t - 1 := tasks[t][1..]];
      SumTasksUpdate(tasks[1..], t - 1);
    }
  }

  /** Every frame has a queue to enter and a queue to leave. */
  ghost function Work(s: State, negotiated: seq<string>): nat {
    (if s.closed then 0 else |s.inputs| + 2 * |s.current| + 2 * |AllSends(s.guard, s.inputs, negotiated)| + 1)
    + 2 * SumTasks(s.tasks) + |s.own| + |s.caps| + (if s.stopped then 0 else 1)
  }

  lemma StepShrinksWork(s: State, a: Action, negotiated: seq<string>)
    requires Enabled(s, a)
    ensures Work(Step(s, a, negotiated), negotiated) < Work(s, negotiated)
  {
    if a.TaskPush? {
      SumTasksUpdate(s.tasks, a.task);
    }
  }

  /** No schedule goes on for ever. */
  lemma {:induction false} RunsAreBounded(s: State, run: seq<Action>, negotiated: seq<string>)
    requires IsRun(s, run, negotiated)
    ensures |run| + Work(After(s, run, negotiated), negotiated) <= Work(s, negotiated)
    decreases |run|
  {
    if run != [] {
      StepShrinksWork(s, run[0], negotiated);
      RunsAreBounded(Step(s, run[0], negotiated), run[1..], negotiated);
    }
  }

  /** Nothing is left to do: no input, nothing to send, both queues empty. */
  ghost predicate Idle(s: State) {
    && s.inputs == [] && s.current == [] && s.own == [] && s.caps == []
    && forall t :: 0 <= t < |s.tasks| ==> s.tasks[t] == []
  }

  /** No deadlock: unless the writer has stopped or nothing is left to do, somebody can move. */
  lemma SomebodyCanMove(s: State)
    requires !s.stopped && !(Idle(s) && !s.closed)
    ensures exists a :: Enabled(s, a)
  {
    if s.own != [] {
      assert Enabled(s, WriteOwn([]));
    } else if s.caps != [] {
      assert Enabled(s, WriteCap([]));
    } else if s.closed {
      assert Enabled(s, Stop);
    } else if s.current != [] {
      assert Enabled(s, Push);
    } else if s.inputs != [] {
      assert Enabled(s, Take);
    } else {
      var t :| 0 <= t < |s.tasks| && s.tasks[t] != [];
      assert Enabled(s, TaskPush(t));
    }
  }

  /** None of these inputs ends the loop. */
  ghost predicate Survives(g: Guard, inputs: seq<Input>)
    decreases |inputs|
  {
    inputs == [] || (!EndsLoop(g, inputs[0]) && Survives(Admitted(g, inputs[0]), inputs[1..]))
  }

  lemma {:induction false} StaysOpen(s: State, run: seq<Action>, negotiated: seq<string>)
    requires !s.closed && !s.stopped && IsRun(s, run, negotiated)
    requires Survives(s.guard, s.inputs)
    ensures !After(s, run, negotiated).closed && !After(s, run, negotiated).stopped
    decreases |run|
  {
    if run != [] {
      StaysOpen(Step(s, run[0], negotiated), run[1..], negotiated);
    }
  }

  /** While the peer keeps reading and nothing ends the session, however many replies a handler sends
      through the bounded queue, a schedule that cannot be extended has put every producer's frames on the
      wire, whole and in order; and no schedule is longer than the work there was at the start. */
  lemma EverythingReachesTheWire(s: State, run: seq<Action>, negotiated: seq<string>, p: Producer)
    requires Starts(s) && IsRun(s, run, negotiated)
    requires Survives(s.guard, s.inputs)
    requires !exists a :: Enabled(After(s, run, negotiated), a)
    ensures From(After(s, run, negotiated).written, p) == Left(s, p, negotiated)
    ensures |run| <= Work(s, negotiated)
  {
    var e := After(s, run, negotiated);
    StaysOpen(s, run, negotiated);
    if !Idle(e) {
      SomebodyCanMove(e);
    }
    ProducersKeepOrder(s, run, negotiated, p);
    RunsAreBounded(s, run, negotiated);
    assert From(QueueOf(e, p), p) == [] && Left(e, p, negotiated) == [];
  }

  /** When the session does end, the writer stops only after every frame the loop itself had sent. */
  lemma LoopFramesAreFlushed(s: State, run: seq<Action>, negotiated: seq<string>)
    requires Starts(s) && IsRun(s, run, negotiated) && After(s, run, negotiated).stopped
    ensures From(After(s, run, negotiated).written, Loop) == Left(s, Loop, negotiated)
  {
    ProducersKeepOrder(s, run, negotiated, Loop);
    RunConserves(s, run, negotiated, Loop);
    assert From([], Loop) == [];
  }

  // ---- Read by the other end ----

  function Outs(wire: seq<Envelope>): (r: seq<Handshake.Outgoing>)
    ensures |r| == |wire|
  {
    seq(|wire|, k requires 0 <= k < |wire| => Handshake.Outgoing(wire[k].messageId, wire[k].correlationId,
      wire[k].body))
  }

  lemma {:induction false} WireIsSendAll(f: Factory, wire: seq<Envelope>)
    requires forall k :: 0 <= k < |wire| ==>
            wire[k].protocolVersion == f.protocolVersion && wire[k].sequence == f.sequence + k + 1
    ensures Handshake.SendAll(f, Outs(wire)) == wire
    decreases |wire|
  {
    if wire != [] {
      var g := f.(sequence := f.sequence + 1);
      forall k | 0 <= k < |wire| - 1
        ensures wire[1..][k].protocolVersion == g.protocolVersion && wire[1..][k].sequence == g.sequence + k + 1
      {
        assert wire[1..][k] == wire[k + 1];
      }
      WireIsSendAll(g, wire[1..]);
      assert Outs(wire)[1..] == Outs(wire[1..]);
      assert [wire[0]] + wire[1..] == wire;
    }
  }

  lemma WireIsStamped(s: State, run: seq<Action>, negotiated: seq<string>)
    requires Starts(s) && IsRun(s, run, negotiated)
    ensures Handshake.SendAll(s.factory, Outs(After(s, run, negotiated).wire)) == After(s, run, negotiated).wire
  {
    WireIsOrdered(s, run, negotiated);
    WireIsSendAll(s.factory, After(s, run, negotiated).wire);
  }

  /** Both ends at work after one handshake: each writer goes on from its factory, each loop from its guard. */
  ghost predicate Connected(e: Handshake.Ended, s: State, t: State) {
    && e.initiator.Some? && e.responder.Some? && Starts(s) && Starts(t)
    && s.factory == e.initiator.value.1.factory && t.factory == e.responder.value.1.factory
    && s.guard == Guard(e.initiator.value.0.version, e.initiator.value.1.admitted)
    && t.guard == Guard(e.responder.value.0.version, e.responder.value.1.admitted)
  }

  ghost predicate IdsUsable(g: Guard, wire: seq<Envelope>) {
    Handshake.IdsUsable(Replay.Ids(g.admitted), Outs(wire))
  }

  /** Two ends that complete a handshake: whatever the schedule of either, everything its writer puts on
      the wire passes the other's version check and replay guard, if and only if the message ids are sixteen
      bytes and distinct within the guard's window. */
  lemma EveryScheduleIsReadable(i: Handshake.Party, r: Handshake.Party, h: Mac.Hmac, w: Handshake.World,
                                s: State, mine: seq<Action>, t: State, theirs: seq<Action>, negotiated: seq<string>,
                                granted: seq<string>)
    requires Handshake.Honest(i) && Handshake.Honest(r) && Connected(Handshake.Run(i, r, h, w), s, t)
    requires IsRun(s, mine, negotiated) && IsRun(t, theirs, granted)
    ensures var sent, answered := After(s, mine, negotiated).wire, After(t, theirs, granted).wire;
            && (Handshake.ReceiveAll(t.guard.version, t.guard.admitted, sent).Some? <==> IdsUsable(t.guard, sent))
            && (Handshake.ReceiveAll(s.guard.version, s.guard.admitted, answered).Some?
                <==> IdsUsable(s.guard, answered))
  {
    WireIsStamped(s, mine, negotiated);
    WireIsStamped(t, theirs, granted);
    Handshake.LaterFramesPass(i, r, h, w, Outs(After(s, mine, negotiated).wire), Outs(After(t, theirs, granted).wire));
  }

  /** The frames among a loop's inputs, in order. */
  function Frames(inputs: seq<Input>): seq<Envelope> {
    if inputs == [] then [] else (if inputs[0].Inbound? then [inputs[0].env] else []) + Frames(inputs[1..])
  }

  /** A loop survives its inputs exactly when none is unacceptable and its guard passes every frame. */
  lemma {:induction false} SurvivesExactly(g: Guard, inputs: seq<Input>)
    requires forall i :: i in inputs ==> !Unacceptable(i)
    ensures Survives(g, inputs) <==> Handshake.ReceiveAll(g.version, g.admitted, Frames(inputs)).Some?
    decreases |inputs|
  {
    if inputs != [] {
      SurvivesExactly(Admitted(g, inputs[0]), inputs[1..]);
      if inputs[0].Inbound? {
        assert Frames(inputs)[0] == inputs[0].env && Frames(inputs)[1..] == Frames(inputs[1..]);
      } else {
        assert Frames(inputs) == Frames(inputs[1..]);
      }
    }
  }

  lemma {:induction false} PrefixPasses(version: nat, log: seq<Envelope>, envs: seq<Envelope>, n: nat)
    requires n <= |envs| && Handshake.ReceiveAll(version, log, envs).Some?
    ensures Handshake.ReceiveAll(version, log, envs[..n]).Some?
    decreases |envs|
  {
    if n > 0 {
      assert envs[..n][0] == envs[0] && envs[..n][1..] == envs[1..][..n - 1];
      PrefixPasses(version, log + [envs[0]], envs[1..], n - 1);
    }
  }

  // ---- Nothing a session writes ends the other ----

  predicate Proper(body: Body) {
    match body
    case Ping(payload) => |payload| <= MAX_PING_PAYLOAD
    case Pong(_) => true
    case CapabilityMessage(_, _) => true
    case ErrorFrame(fatal) => !fatal
    case _ => false
  }

  ghost predicate AllProper(rs: seq<Request>) {
    forall r :: r in rs ==> Proper(r.body)
  }

  /** Pings carry small payloads, and tasks send capability messages. */
  ghost predicate ProperWork(s: State) {
    && (forall i :: i in s.inputs ==> ((i.PingCommand? || i.Probe?) ==> |i.payload| <= MAX_PING_PAYLOAD))
    && (forall t :: 0 <= t < |s.tasks| ==> AllProper(s.tasks[t]))
    && AllProper(s.current) && AllProper(s.own) && AllProper(s.caps) && AllProper(s.written)
  }

  lemma SendsProper(i: Input, negotiated: seq<string>)
    requires (i.PingCommand? || i.Probe?) ==> |i.payload| <= MAX_PING_PAYLOAD
    ensures AllProper(Sends(i, negotiated))
  {
  }

  lemma StepKeepsProper(s: State, a: Action, negotiated: seq<string>)
    requires Enabled(s, a) && ProperWork(s)
    ensures ProperWork(Step(s, a, negotiated))
  {
    if a.Take? {
      assert s.inputs[0] in s.inputs;
      SendsProper(s.inputs[0], negotiated);
    }
  }

  lemma {:induction false} RunKeepsProper(s: State, run: seq<Action>, negotiated: seq<string>)
    requires ProperWork(s) && IsRun(s, run, negotiated)
    ensures ProperWork(After(s, run, negotiated))
    decreases |run|
  {
    if run != [] {
      StepKeepsProper(s, run[0], negotiated);
      RunKeepsProper(Step(s, run[0], negotiated), run[1..], negotiated);
    }
  }

  /** No frame a session writes is one an established session rejects. */
  lemma WireIsProper(s: State, run: seq<Action>, negotiated: seq<string>)
    requires Starts(s) && ProperWork(s) && IsRun(s, run, negotiated)
    ensures forall e :: e in After(s, run, negotiated).wire ==> Proper(e.body)
  {
    WireIsOrdered(s, run, negotiated);
    RunKeepsProper(s, run, negotiated);
    var end := After(s, run, negotiated);
    forall e | e in end.wire ensures Proper(e.body) {
      var k :| 0 <= k < |end.wire| && end.wire[k] == e;
      assert end.written[k] in end.written;
    }
  }

  lemma {:induction false} FedAcceptable(inputs: seq<Input>, wire: seq<Envelope>)
    requires Frames(inputs) <= wire && (forall e :: e in wire ==> Proper(e.body)) && Shutdown !in inputs
    ensures forall x :: x in inputs ==> !Unacceptable(x)
  {
    forall x | x in inputs ensures !Unacceptable(x) {
      if x.Inbound? {
        FrameAmong(inputs, x);
        assert x.env in wire;
      }
    }
  }

  lemma {:induction false} FrameAmong(inputs: seq<Input>, x: Input)
    requires x in inputs && x.Inbound?
    ensures x.env in Frames(inputs)
  {
    if inputs[0] != x {
      FrameAmong(inputs[1..], x);
    }
  }

  /** Two sessions after one handshake, each loop fed a part, from the beginning and in order, of what the
      other's writer put on the wire, mixed with any commands but a shutdown: with usable ids, under any
      schedule of both, neither loop ends. */
  lemma NeitherLoopEnds(i: Handshake.Party, r: Handshake.Party, h: Mac.Hmac, w: Handshake.World,
                        s: State, mine: seq<Action>, t: State, theirs: seq<Action>, negotiated: seq<string>,
                        granted: seq<string>)
    requires Handshake.Honest(i) && Handshake.Honest(r) && Connected(Handshake.Run(i, r, h, w), s, t)
    requires IsRun(s, mine, negotiated) && IsRun(t, theirs, granted) && ProperWork(s) && ProperWork(t)
    requires Frames(t.inputs) <= After(s, mine, negotiated).wire && Frames(s.inputs) <= After(t, theirs, granted).wire
    requires IdsUsable(t.guard, After(s, mine, negotiated).wire) && IdsUsable(s.guard, After(t, theirs, granted).wire)
    requires Shutdown !in s.inputs && Shutdown !in t.inputs
    ensures Survives(s.guard, s.inputs) && Survives(t.guard, t.inputs)
    ensures !After(s, mine, negotiated).closed && !After(t, theirs, granted).closed
  {
    EveryScheduleIsReadable(i, r, h, w, s, mine, t, theirs, negotiated, granted);
    WireIsProper(s, mine, negotiated);
    WireIsProper(t, theirs, granted);
    FedAcceptable(s.inputs, After(t, theirs, granted).wire);
    FedAcceptable(t.inputs, After(s, mine, negotiated).wire);
    FedSurvives(s, After(t, theirs, granted).wire);
    FedSurvives(t, After(s, mine, negotiated).wire);
    StaysOpen(s, mine, negotiated);
    StaysOpen(t, theirs, granted);
  }

  lemma FedSurvives(s: State, wire: seq<Envelope>)
    requires Frames(s.inputs) <= wire && Handshake.ReceiveAll(s.guard.version, s.guard.admitted, wire).Some?
    requires forall x :: x in s.inputs ==> !Unacceptable(x)
    ensures Survives(s.guard, s.inputs)
  {
    PrefixPasses(s.guard.version, s.guard.admitted, wire, |Frames(s.inputs)|);
    assert wire[..|Frames(s.inputs)|] == Frames(s.inputs);
    SurvivesExactly(s.guard, s.inputs);
  }
}
