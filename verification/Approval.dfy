/** Asking a human about an incoming file: the rendezvous, the control connections that serve it, and
    every interleaving of the two. */
module Approval {
  import opened Base

  const PROVIDER_QUEUE: nat := 32

  type TransferId = Bytes
  type Epoch = nat
  /** One call that asks about one offer. A transfer id may be asked about more than once. */
  type Question = nat

  /** A question's reply channel: still open, answered through a connection, or dropped unanswered. */
  datatype Reply = Waiting | Answered(accept: bool, via: Epoch) | Dropped

  /** What the rendezvous holds under its lock, and the reply channels it has handed out. */
  datatype Core = Core(provider: Option<Epoch>, epoch: Epoch, pending: map<TransferId, Question>, replies: seq<Reply>)

  function DropAll(replies: seq<Reply>, pending: map<TransferId, Question>): (r: seq<Reply>)
    ensures |r| == |replies|
    ensures forall q :: 0 <= q < |r| ==> r[q] == if q in pending.Values then Dropped else replies[q]
  {
    seq(|replies|, q requires 0 <= q < |replies| => if q in pending.Values then Dropped else replies[q])
  }

  function DropOne(replies: seq<Reply>, q: Question): (r: seq<Reply>)
    ensures |r| == |replies|
    ensures forall p :: 0 <= p < |r| ==> r[p] == if p == q then Dropped else replies[p]
  {
    if q < |replies| then replies[q := Dropped] else replies
  }

  function Attach(c: Core): Core {
    Core(Some(c.epoch + 1), c.epoch + 1, map[], DropAll(c.replies, c.pending))
  }

  /** Only the current provider can detach. */
  function Detach(c: Core, e: Epoch): Core {
    if c.epoch != e then c else Core(None, c.epoch, map[], DropAll(c.replies, c.pending))
  }

  function Decide(c: Core, id: TransferId, accept: bool, via: Epoch): Core {
    if id !in c.pending || c.pending[id] >= |c.replies| then c
    else c.(pending := c.pending - {id}, replies := c.replies[c.pending[id] := Answered(accept, via)])
  }

  function Withdraw(c: Core, id: TransferId): Core {
    if id !in c.pending then c
    else c.(pending := c.pending - {id}, replies := DropOne(c.replies, c.pending[id]))
  }

  /** Recording a question that was queued. The one it displaces, if any, loses its reply channel. */
  function Record(c: Core, id: TransferId): Core {
    var replies := if id in c.pending then DropOne(c.replies, c.pending[id]) else c.replies;
    c.(pending := c.pending[id := |c.replies|], replies := replies + [Waiting])
  }

  function Skip(c: Core): Core {
    c.(replies := c.replies + [Dropped])
  }

  class FileApproval {
    const unattended: bool
    var provider: Option<Epoch>
    var epoch: Epoch
    var pending: map<TransferId, Question>
    var replies: seq<Reply>

    function View(): Core
      reads this
    {
      Core(provider, epoch, pending, replies)
    }

    constructor (unattended: bool)
      ensures this.unattended == unattended && View() == Core(None, 0, map[], [])
    {
      this.unattended, provider, epoch, pending, replies := unattended, None, 0, map[], [];
    }

    method AttachProvider() returns (e: Epoch)
      modifies this
      ensures View() == Attach(old(View())) && e == epoch
    {
      epoch := epoch + 1;
      e := epoch;
      provider := Some(e);
      replies := DropAll(replies, pending);
      pending := map[];
    }

    method DetachProvider(e: Epoch)
      modifies this
      ensures View() == Detach(old(View()), e)
    {
      if epoch != e {
        return;
      }
      provider := None;
      replies := DropAll(replies, pending);
      pending := map[];
    }

    method DecideOffer(id: TransferId, accept: bool, via: Epoch) returns (answered: bool)
      requires forall k :: k in pending ==> pending[k] < |replies|
      modifies this
      ensures View() == Decide(old(View()), id, accept, via)
      ensures answered <==> id in old(pending)
    {
      if id !in pending {
        return false;
      }
      var q := pending[id];
      pending := pending - {id};
      replies := replies[q := Answered(accept, via)];
      return true;
    }

    method WithdrawOffer(id: TransferId)
      modifies this
      ensures View() == Withdraw(old(View()), id)
    {
      if id in pending {
        replies := DropOne(replies, pending[id]);
        pending := pending - {id};
      }
    }

    /** The first half of asking: `None` means the question was queued and now waits; otherwise the
        answer is immediate. `room` and `listening` describe the provider's queue. */
    method BeginAsking(id: TransferId, room: bool, listening: bool) returns (immediate: Option<bool>)
      modifies this
      ensures immediate.None? <==> !unattended && old(provider).Some? && listening && room
      ensures immediate.Some? ==> immediate.value == unattended && View() == Skip(old(View()))
      ensures immediate.None? ==> View() == Record(old(View()), id)
    {
      if unattended {
        replies := replies + [Dropped];
        return Some(true);
      }
      if provider.None? || !listening || !room {
        replies := replies + [Dropped];
        return Some(false);
      }
      var q := |replies|;
      if id in pending {
        replies := DropOne(replies, pending[id]);
      }
      pending := pending[id := q];
      replies := replies + [Waiting];
      return None;
    }
  }

  // ---- Every interleaving ----

  /** One control connection serving prompts: what is queued to it, which prompts it has on screen and
      not yet answered, which questions it was ever shown, and whether it still listens. */
  datatype Connection = Connection(queue: seq<Question>, open: set<TransferId>, shown: set<Question>, alive: bool)

  datatype Asked = Asked(transfer: TransferId, returned: Option<bool>)

  datatype Desk = Desk(unattended: bool, core: Core, asked: seq<Asked>, connections: map<Epoch, Connection>)

  datatype Action =
    | Connect
    | Ask(transfer: TransferId)
    | Show(conn: Epoch, live: bool)
    | Decision(conn: Epoch, transfer: TransferId, accept: bool)
    | TransferEnded(conn: Epoch, transfer: TransferId)
    | Close(conn: Epoch)
    | Abort(conn: Epoch)
    | Resume(question: Question)
    | TimeOut(question: Question)

  predicate Alive(d: Desk, e: Epoch) {
    e in d.connections && d.connections[e].alive
  }

  /** Whether the provider can be asked one more question. */
  predicate CanQueue(d: Desk) {
    d.core.provider.Some? && Alive(d, d.core.provider.value)
      && |d.connections[d.core.provider.value].queue| < PROVIDER_QUEUE
  }

  function AskStep(d: Desk, id: TransferId): Desk {
    if d.unattended then d.(core := Skip(d.core), asked := d.asked + [Asked(id, Some(true))])
    else if !CanQueue(d) then d.(core := Skip(d.core), asked := d.asked + [Asked(id, Some(false))])
    else
      var e := d.core.provider.value;
      var c := d.connections[e];
      d.(core := Record(d.core, id), asked := d.asked + [Asked(id, None)],
         connections := d.connections[e := c.(queue := c.queue + [|d.asked|])])
  }

  function ShowStep(d: Desk, e: Epoch, live: bool): Desk
    requires Alive(d, e)
  {
    var c := d.connections[e];
    if c.queue == [] || c.queue[0] >= |d.asked| then d else
    var q := c.queue[0];
    var id := d.asked[q].transfer;
    if live then d.(connections := d.connections[e := Connection(c.queue[1..], c.open + {id}, c.shown + {q}, true)])
    else d.(connections := d.connections[e := c.(queue := c.queue[1..])], core := Withdraw(d.core, id))
  }

  /** The call ends with that answer, and its guard withdraws whatever is pending under its id. */
  function Return(d: Desk, q: Question, answer: bool): Desk
    requires q < |d.asked|
  {
    d.(asked := d.asked[q := d.asked[q].(returned := Some(answer))], core := Withdraw(d.core, d.asked[q].transfer))
  }

  predicate Pending(d: Desk, q: Question) {
    q < |d.asked| && q < |d.core.replies| && d.asked[q].returned.None?
  }

  function Step(d: Desk, a: Action): Desk {
    match a
    case Connect =>
      var core := Attach(d.core);
      d.(core := core, connections := d.connections[core.epoch := Connection([], {}, {}, true)])
    case Ask(id) => AskStep(d, id)
    case Show(e, live) => if Alive(d, e) then ShowStep(d, e, live) else d
    case Decision(e, id, accept) =>
      if !Alive(d, e) || id !in d.connections[e].open then d
      else d.(connections := d.connections[e := d.connections[e].(open := d.connections[e].open - {id})],
              core := Decide(d.core, id, accept, e))
    case TransferEnded(e, id) =>
      if !Alive(d, e) || id !in d.connections[e].open then d
      else d.(connections := d.connections[e := d.connections[e].(open := d.connections[e].open - {id})],
              core := Withdraw(d.core, id))
    case Close(e) =>
      if !Alive(d, e) then d
      else d.(connections := d.connections[e := d.connections[e].(alive := false)], core := Detach(d.core, e))
    case Abort(e) =>
      if !Alive(d, e) then d else d.(connections := d.connections[e := d.connections[e].(alive := false)])
    case Resume(q) =>
      if !Pending(d, q) then d else
      (match d.core.replies[q]
       case Waiting => d
       case Answered(accept, _) => Return(d, q, accept)
       case Dropped => Return(d, q, false))
    case TimeOut(q) => if Pending(d, q) then Return(d, q, false) else d
  }

  function Start(unattended: bool): Desk {
    Desk(unattended, Core(None, 0, map[], []), [], map[])
  }

  function Run(unattended: bool, run: seq<Action>): Desk {
    if run == [] then Start(unattended) else Step(Run(unattended, run[..|run| - 1]), run[|run| - 1])
  }

  /** A reply channel is open exactly while its question is the one pending under its id; questions
      pending imply a provider. */
  ghost predicate CoreOk(c: Core, asked: seq<Asked>) {
    && |c.replies| == |asked|
    && (forall id :: id in c.pending ==>
          c.pending[id] < |asked| && asked[c.pending[id]] == Asked(id, None) && c.replies[c.pending[id]].Waiting?)
    && (forall q :: 0 <= q < |asked| && c.replies[q].Waiting? ==>
          asked[q].transfer in c.pending && c.pending[asked[q].transfer] == q)
    && (c.pending != map[] ==> c.provider.Some?)
    && (c.provider.Some? ==> c.provider.value == c.epoch)
  }

  /** A prompt on a connection's screen was shown for a question about that transfer. */
  ghost predicate ShownFor(d: Desk, e: Epoch, id: TransferId) {
    e in d.connections && exists q :: q in d.connections[e].shown && q < |d.asked| && d.asked[q].transfer == id
  }

  ghost predicate ScreensOk(d: Desk) {
    && (forall e, id :: e in d.connections && id in d.connections[e].open ==> ShownFor(d, e, id))
    && (forall q :: 0 <= q < |d.asked| && q < |d.core.replies| && d.core.replies[q].Answered? ==>
          ShownFor(d, d.core.replies[q].via, d.asked[q].transfer))
  }

  ghost predicate AnswersOk(d: Desk) {
    forall q :: 0 <= q < |d.asked| && q < |d.core.replies| && d.asked[q].returned == Some(true) ==>
      d.unattended || (d.core.replies[q].Answered? && d.core.replies[q].accept)
  }

  ghost predicate DeskOk(d: Desk) {
    && CoreOk(d.core, d.asked)
    && (forall e :: e in d.connections ==> e <= d.core.epoch)
    && ScreensOk(d) && AnswersOk(d)
  }

  lemma ClearKeepsCore(c: Core, asked: seq<Asked>, e: Epoch)
    requires CoreOk(c, asked)
    ensures CoreOk(Attach(c), asked) && CoreOk(Detach(c, e), asked)
    ensures forall q :: 0 <= q < |asked| && c.replies[q].Waiting? ==> Attach(c).replies[q].Dropped?
    ensures c.epoch == e ==> forall q :: 0 <= q < |asked| && c.replies[q].Waiting? ==> Detach(c, e).replies[q].Dropped?
  {
    forall q | 0 <= q < |asked| && c.replies[q].Waiting? ensures q in c.pending.Values {
      assert c.pending[asked[q].transfer] == q;
    }
  }

  lemma RemoveKeepsCore(c: Core, asked: seq<Asked>, id: TransferId, accept: bool, via: Epoch)
    requires CoreOk(c, asked)
    ensures CoreOk(Decide(c, id, accept, via), asked) && CoreOk(Withdraw(c, id), asked)
  {
  }

  lemma AskKeepsCore(c: Core, asked: seq<Asked>, id: TransferId, answer: bool)
    requires CoreOk(c, asked)
    ensures CoreOk(Skip(c), asked + [Asked(id, Some(answer))])
    ensures c.provider.Some? ==> CoreOk(Record(c, id), asked + [Asked(id, None)])
  {
  }

  lemma ReturnKeepsCore(c: Core, asked: seq<Asked>, q: Question, answer: bool)
    requires CoreOk(c, asked) && q < |asked| && asked[q].returned.None?
    ensures CoreOk(Withdraw(c, asked[q].transfer), asked[q := asked[q].(returned := Some(answer))])
  {
    RemoveKeepsCore(c, asked, asked[q].transfer, false, 0);
  }

  lemma StepKeepsCore(d: Desk, a: Action)
    requires CoreOk(d.core, d.asked)
    ensures CoreOk(Step(d, a).core, Step(d, a).asked)
  {
    match a
    case Connect => ClearKeepsCore(d.core, d.asked, 0);
    case Ask(id) =>
      AskKeepsCore(d.core, d.asked, id, d.unattended);
    case Show(e, live) =>
      if Alive(d, e) && d.connections[e].queue != [] && d.connections[e].queue[0] < |d.asked| {
        RemoveKeepsCore(d.core, d.asked, d.asked[d.connections[e].queue[0]].transfer, false, 0);
      }
    case Decision(e, id, accept) => RemoveKeepsCore(d.core, d.asked, id, accept, e);
    case TransferEnded(e, id) => RemoveKeepsCore(d.core, d.asked, id, false, 0);
    case Close(e) => ClearKeepsCore(d.core, d.asked, e);
    case Abort(e) =>
    case Resume(q) =>
      if Pending(d, q) && !d.core.replies[q].Waiting? {
        ReturnKeepsCore(d.core, d.asked, q, d.core.replies[q].Answered? && d.core.replies[q].accept);
      }
    case TimeOut(q) => if Pending(d, q) { ReturnKeepsCore(d.core, d.asked, q, false); }
  }

  /** Replies only go from waiting to dropped. */
  ghost predicate OnlyDrops(r: seq<Reply>, t: seq<Reply>) {
    |r| <= |t| && forall q :: 0 <= q < |r| ==> t[q] == r[q] || (r[q].Waiting? && t[q].Dropped?)
  }

  lemma CoreOnlyDrops(c: Core, asked: seq<Asked>, id: TransferId, e: Epoch)
    requires CoreOk(c, asked)
    ensures OnlyDrops(c.replies, Attach(c).replies) && OnlyDrops(c.replies, Detach(c, e).replies)
    ensures OnlyDrops(c.replies, Withdraw(c, id).replies) && OnlyDrops(c.replies, Record(c, id).replies)
    ensures OnlyDrops(c.replies, Skip(c).replies)
  {
    forall q | 0 <= q < |c.replies| && q in c.pending.Values ensures c.replies[q].Waiting? {
      var k :| k in c.pending && c.pending[k] == q;
    }
  }

  lemma ReturnOnlyDrops(d: Desk, q: Question, answer: bool)
    requires CoreOk(d.core, d.asked) && q < |d.asked|
    ensures OnlyDrops(d.core.replies, Return(d, q, answer).core.replies)
  {
    CoreOnlyDrops(d.core, d.asked, d.asked[q].transfer, 0);
  }

  lemma ShowOnlyDrops(d: Desk, e: Epoch, live: bool)
    requires CoreOk(d.core, d.asked) && Alive(d, e)
    ensures OnlyDrops(d.core.replies, ShowStep(d, e, live).core.replies)
  {
    var queue := d.connections[e].queue;
    if queue != [] && queue[0] < |d.asked| {
      CoreOnlyDrops(d.core, d.asked, d.asked[queue[0]].transfer, 0);
    }
  }

  lemma StepOnlyDrops(d: Desk, a: Action)
    requires CoreOk(d.core, d.asked) && !a.Decision?
    ensures OnlyDrops(d.core.replies, Step(d, a).core.replies)
  {
    match a
    case Connect => CoreOnlyDrops(d.core, d.asked, [], 0);
    case Ask(id) => CoreOnlyDrops(d.core, d.asked, id, 0);
    case Show(e, live) => if Alive(d, e) { ShowOnlyDrops(d, e, live); }
    case TransferEnded(e, id) => CoreOnlyDrops(d.core, d.asked, id, 0);
    case Close(e) => CoreOnlyDrops(d.core, d.asked, [], e);
    case Abort(e) =>
    case Resume(q) => if Pending(d, q) { ReturnOnlyDrops(d, q, true); ReturnOnlyDrops(d, q, false); }
    case TimeOut(q) => if Pending(d, q) { ReturnOnlyDrops(d, q, false); }
  }

  /** Connection `e` has that prompt on screen, unanswered, and `q` is the question pending under its id. */
  ghost predicate Answerable(d: Desk, e: Epoch, id: TransferId, q: Question) {
    Alive(d, e) && id in d.connections[e].open && id in d.core.pending && d.core.pending[id] == q
  }

  /** A reply is given only by a decision on a connection with that prompt open, while the question is
      pending; once given or dropped it stays. */
  lemma StepOnReply(d: Desk, a: Action, q: Question)
    requires CoreOk(d.core, d.asked) && q < |d.asked|
    ensures q < |Step(d, a).core.replies|
    ensures var was, now := d.core.replies[q], Step(d, a).core.replies[q];
            && (!was.Waiting? ==> now == was)
            && (was.Waiting? && now.Answered? ==>
                  a == Decision(now.via, d.asked[q].transfer, now.accept)
                    && Answerable(d, now.via, d.asked[q].transfer, q))
  {
    if !a.Decision? {
      StepOnlyDrops(d, a);
    }
  }

  /** An answer returned stays, and a call returns yes only when its reply is yes. */
  lemma StepOnReturn(d: Desk, a: Action, q: Question)
    requires CoreOk(d.core, d.asked) && q < |d.asked|
    ensures q < |Step(d, a).asked| && Step(d, a).asked[q].transfer == d.asked[q].transfer
    ensures d.asked[q].returned.Some? ==> Step(d, a).asked[q] == d.asked[q]
    ensures d.asked[q].returned.None? && Step(d, a).asked[q].returned == Some(true) ==>
              d.core.replies[q].Answered? && d.core.replies[q].accept
  {
  }

  lemma StepKeepsShown(d: Desk, a: Action, e: Epoch, id: TransferId)
    requires CoreOk(d.core, d.asked) && (forall x :: x in d.connections ==> x <= d.core.epoch)
    requires ShownFor(d, e, id)
    ensures ShownFor(Step(d, a), e, id)
  {
    var q :| q in d.connections[e].shown && q < |d.asked| && d.asked[q].transfer == id;
    StepOnReturn(d, a, q);
    assert q in Step(d, a).connections[e].shown;
  }

  lemma StepKeepsEpochs(d: Desk, a: Action)
    requires forall e :: e in d.connections ==> e <= d.core.epoch
    ensures forall e :: e in Step(d, a).connections ==> e <= Step(d, a).core.epoch
  {
  }

  lemma StepOnScreen(d: Desk, a: Action, e: Epoch, id: TransferId)
    requires DeskOk(d) && e in Step(d, a).connections && id in Step(d, a).connections[e].open
    ensures ShownFor(Step(d, a), e, id)
  {
    if e in d.connections && id in d.connections[e].open {
      StepKeepsShown(d, a, e, id);
    } else {
      assert a.Show? && a.conn == e;
      var q := d.connections[e].queue[0];
      assert q in Step(d, a).connections[e].shown;
    }
  }

  lemma StepKeepsScreens(d: Desk, a: Action)
    requires DeskOk(d)
    ensures ScreensOk(Step(d, a))
  {
    var t := Step(d, a);
    StepKeepsCore(d, a);
    forall e, id | e in t.connections && id in t.connections[e].open ensures ShownFor(t, e, id) {
      StepOnScreen(d, a, e, id);
    }
    forall q | 0 <= q < |t.asked| && q < |t.core.replies| && t.core.replies[q].Answered?
      ensures ShownFor(t, t.core.replies[q].via, t.asked[q].transfer)
    {
      NewestUnanswered(d, a, q);
      StepOnReply(d, a, q);
      StepOnReturn(d, a, q);
      StepKeepsShown(d, a, t.core.replies[q].via, d.asked[q].transfer);
    }
  }

  lemma NewestUnanswered(d: Desk, a: Action, q: Question)
    requires CoreOk(d.core, d.asked) && q < |Step(d, a).asked| && q < |Step(d, a).core.replies|
    ensures q >= |d.asked| ==> !Step(d, a).core.replies[q].Answered?
    ensures q >= |d.asked| && Step(d, a).asked[q].returned == Some(true) ==> d.unattended
  {
  }

  lemma StepKeepsAnswers(d: Desk, a: Action)
    requires DeskOk(d)
    ensures AnswersOk(Step(d, a))
  {
    var t := Step(d, a);
    forall q | 0 <= q < |t.asked| && q < |t.core.replies| && t.asked[q].returned == Some(true)
      ensures t.unattended || (t.core.replies[q].Answered? && t.core.replies[q].accept)
    {
      NewestUnanswered(d, a, q);
      if q < |d.asked| {
        StepOnReply(d, a, q);
        StepOnReturn(d, a, q);
      }
    }
  }

  lemma {:induction false} RunKeepsDesk(unattended: bool, run: seq<Action>)
    ensures DeskOk(Run(unattended, run)) && Run(unattended, run).unattended == unattended
  {
    if run != [] {
      var d, a := Run(unattended, run[..|run| - 1]), run[|run| - 1];
      RunKeepsDesk(unattended, run[..|run| - 1]);
      StepKeepsCore(d, a);
      StepKeepsEpochs(d, a);
      StepKeepsScreens(d, a);
      StepKeepsAnswers(d, a);
    }
  }

  /** Step `k` of the run answered `q` with `accept`: through a connection that had itself been sent a
      prompt for that transfer and had not yet answered it, while `q` was pending under that id. */
  ghost predicate AnsweredAt(unattended: bool, run: seq<Action>, k: nat, q: Question, id: TransferId, accept: bool)
    requires k < |run|
  {
    var d := Run(unattended, run[..k]);
    && run[k].Decision? && run[k].transfer == id && run[k].accept == accept
    && Answerable(d, run[k].conn, id, q)
    && ShownFor(d, run[k].conn, id)
  }

  /** The step that turned a reply into an answer. */
  lemma AnsweringStep(d: Desk, a: Action, q: Question)
    requires DeskOk(d) && q < |Step(d, a).asked| && q < |Step(d, a).core.replies|
            && Step(d, a).core.replies[q].Answered?
    ensures q < |d.asked| && q < |d.core.replies| && Step(d, a).asked[q].transfer == d.asked[q].transfer
    ensures d.core.replies[q].Answered? ==> Step(d, a).core.replies[q] == d.core.replies[q]
    ensures !d.core.replies[q].Answered?
            ==> && a.Decision? && a.transfer == d.asked[q].transfer && a.accept == Step(d, a).core.replies[q].accept
                && Answerable(d, a.conn, a.transfer, q) && ShownFor(d, a.conn, a.transfer)
  {
    NewestUnanswered(d, a, q);
    StepOnReply(d, a, q);
    StepOnReturn(d, a, q);
  }

  lemma {:induction false} ReplyOrigin(unattended: bool, run: seq<Action>, n: nat, q: Question)
    requires n <= |run|
    requires var d := Run(unattended, run[..n]); q < |d.asked| && q < |d.core.replies| && d.core.replies[q].Answered?
    ensures var d := Run(unattended, run[..n]);
            exists k :: 0 <= k < n && AnsweredAt(unattended, run, k, q, d.asked[q].transfer, d.core.replies[q].accept)
    decreases n
  {
    var was, now := Run(unattended, run[..n - 1]), Run(unattended, run[..n]);
    assert run[..n][..n - 1] == run[..n - 1];
    RunKeepsDesk(unattended, run[..n - 1]);
    AnsweringStep(was, run[n - 1], q);
    if was.core.replies[q].Answered? {
      ReplyOrigin(unattended, run, n - 1, q);
    } else {
      assert AnsweredAt(unattended, run, n - 1, q, now.asked[q].transfer, now.core.replies[q].accept);
    }
  }

  /** In every interleaving: an offer is accepted only if the daemon never asks, or a yes for exactly
      that transfer arrived while that very question was pending, from a connection that had been sent
      the prompt and had not yet answered it. */
  lemma AcceptedOnlyByAPromptedYes(unattended: bool, run: seq<Action>, q: Question)
    requires var d := Run(unattended, run); q < |d.asked| && d.asked[q].returned == Some(true)
    ensures var id := Run(unattended, run).asked[q].transfer;
            unattended || exists k :: 0 <= k < |run| && AnsweredAt(unattended, run, k, q, id, true)
  {
    RunKeepsDesk(unattended, run);
    if !unattended {
      assert run[..|run|] == run;
      ReplyOrigin(unattended, run, |run|, q);
    }
  }

  // ---- Where a waiting question is ----

  /** Nothing queued or shown lies in the future, and nothing is queued twice. */
  ghost predicate QueuesOk(d: Desk) {
    && (forall e, q :: e in d.connections && q in d.connections[e].queue ==> q < |d.asked|)
    && (forall e, q :: e in d.connections && q in d.connections[e].shown ==> q < |d.asked|)
    && (forall e :: e in d.connections ==> Distinct(d.connections[e].queue))
  }

  ghost predicate Waits(d: Desk, q: Question) {
    q < |d.core.replies| && d.core.replies[q].Waiting?
  }

  /** A waiting question is queued to the current provider or was shown by it, not both, and by no other. */
  ghost predicate Placed(d: Desk, q: Question) {
    && d.core.epoch in d.connections
    && ((q in d.connections[d.core.epoch].queue) != (q in d.connections[d.core.epoch].shown))
    && (forall e :: e in d.connections && e != d.core.epoch ==>
          q !in d.connections[e].queue && q !in d.connections[e].shown)
  }

  ghost predicate AllPlaced(d: Desk) {
    QueuesOk(d) && forall q :: Waits(d, q) ==> Placed(d, q)
  }

  lemma AskKeepsQueues(d: Desk, id: TransferId)
    requires QueuesOk(d)
    ensures QueuesOk(AskStep(d, id))
  {
    if CanQueue(d) {
      var queue := d.connections[d.core.provider.value].queue;
      assert |d.asked| !in queue;
      assert Distinct(queue + [|d.asked|]);
    }
  }

  lemma ShowKeepsQueues(d: Desk, e: Epoch, live: bool)
    requires QueuesOk(d) && Alive(d, e)
    ensures QueuesOk(ShowStep(d, e, live))
  {
    var queue := d.connections[e].queue;
    if queue != [] {
      assert forall q :: q in queue[1..] ==> q in queue;
      assert Distinct(queue[1..]);
    }
  }

  lemma AskKeepsPlaced(d: Desk, id: TransferId)
    requires DeskOk(d) && AllPlaced(d)
    ensures AllPlaced(AskStep(d, id))
  {
    var t := AskStep(d, id);
    AskKeepsQueues(d, id);
    forall q: Question | Waits(t, q) ensures Placed(t, q) {
      assert q < |d.asked| ==> Waits(d, q);
    }
  }

  lemma ShowKeepsPlaced(d: Desk, e: Epoch, live: bool)
    requires DeskOk(d) && AllPlaced(d) && Alive(d, e)
    ensures AllPlaced(ShowStep(d, e, live))
  {
    var t, queue := ShowStep(d, e, live), d.connections[e].queue;
    if t != d {
      assert queue == [queue[0]] + queue[1..] && queue[0] !in queue[1..];
      ShowOnlyDrops(d, e, live);
      ShowKeepsQueues(d, e, live);
      forall q: Question | Waits(t, q) ensures Placed(t, q) {
        assert Waits(d, q) && Placed(d, q);
      }
    }
  }

  /** Other steps move no question, and let none begin to wait. */
  lemma StepKeepsPlaced(d: Desk, a: Action)
    requires DeskOk(d) && AllPlaced(d)
    ensures AllPlaced(Step(d, a))
  {
    match a
    case Connect => ConnectKeepsPlaced(d);
    case Ask(id) => AskKeepsPlaced(d, id);
    case Show(e, live) => if Alive(d, e) { ShowKeepsPlaced(d, e, live); }
    case Decision(_, _, _) => QuietKeepsPlaced(d, a);
    case TransferEnded(_, _) => QuietKeepsPlaced(d, a);
    case Close(_) => QuietKeepsPlaced(d, a);
    case Abort(_) => QuietKeepsPlaced(d, a);
    case Resume(_) => QuietKeepsPlaced(d, a);
    case TimeOut(_) => QuietKeepsPlaced(d, a);
  }

  lemma ConnectKeepsPlaced(d: Desk)
    requires DeskOk(d) && AllPlaced(d)
    ensures AllPlaced(Step(d, Connect))
  {
    ClearKeepsCore(d.core, d.asked, 0);
    assert forall q :: Waits(Step(d, Connect), q) ==> Waits(d, q);
  }

  lemma QuietKeepsPlaced(d: Desk, a: Action)
    requires DeskOk(d) && AllPlaced(d) && !a.Connect? && !a.Ask? && !a.Show?
    ensures AllPlaced(Step(d, a))
  {
    var t := Step(d, a);
    QuietStep(d, a);
    forall q: Question | Waits(t, q) ensures Placed(t, q) {
      if q < |d.asked| { StepOnReply(d, a, q); }
      assert Waits(d, q) && Placed(d, q);
    }
  }

  lemma QuietStep(d: Desk, a: Action)
    requires CoreOk(d.core, d.asked) && !a.Connect? && !a.Ask? && !a.Show?
    ensures var t := Step(d, a);
            && |t.asked| == |d.asked| && |t.core.replies| == |d.core.replies| && t.core.epoch == d.core.epoch
            && t.connections.Keys == d.connections.Keys
            && (forall e :: e in d.connections ==>
                  t.connections[e].queue == d.connections[e].queue && t.connections[e].shown == d.connections[e].shown)
  {
  }

  lemma {:induction false} RunKeepsPlaced(unattended: bool, run: seq<Action>)
    ensures AllPlaced(Run(unattended, run))
  {
    if run != [] {
      RunKeepsPlaced(unattended, run[..|run| - 1]);
      RunKeepsDesk(unattended, run[..|run| - 1]);
      StepKeepsPlaced(Run(unattended, run[..|run| - 1]), run[|run| - 1]);
    }
  }

  /** Whenever a connection can answer a question, it was itself shown that very question exactly when it
      is the current provider and the question is no longer queued to it. Otherwise the prompt it answers
      was for an earlier question about the same transfer. */
  lemma PromptWasForThisQuestion(unattended: bool, run: seq<Action>, e: Epoch, id: TransferId, q: Question)
    requires Answerable(Run(unattended, run), e, id, q)
    ensures var d := Run(unattended, run);
            q in d.connections[e].shown <==> e == d.core.epoch && q !in d.connections[e].queue
  {
    RunKeepsDesk(unattended, run);
    RunKeepsPlaced(unattended, run);
    assert Waits(Run(unattended, run), q);
  }

  /** In particular it was, if no transfer id has been asked about twice. */
  lemma SingleUseIdsPromptRight(unattended: bool, run: seq<Action>, e: Epoch, id: TransferId, q: Question)
    requires Answerable(Run(unattended, run), e, id, q)
    requires var asked := Run(unattended, run).asked;
             forall i, j :: 0 <= i < j < |asked| ==> asked[i].transfer != asked[j].transfer
    ensures q in Run(unattended, run).connections[e].shown
  {
    var d := Run(unattended, run);
    RunKeepsDesk(unattended, run);
    assert ShownFor(d, e, id);
    var p :| p in d.connections[e].shown && p < |d.asked| && d.asked[p].transfer == id;
    assert d.asked[q].transfer == id;
    assert p == q;
  }

  lemma RunSnoc(unattended: bool, run: seq<Action>, a: Action)
    ensures Run(unattended, run + [a]) == Step(Run(unattended, run), a)
  {
    assert (run + [a])[..|run|] == run;
  }

  lemma PromptLeftOpen(id: TransferId) returns (run: seq<Action>)
    ensures Run(false, run) == Desk(false, Core(Some(2), 2, map[], [Dropped]), [Asked(id, None)],
                                    map[1 := Connection([], {id}, {0}, true), 2 := Connection([], {}, {}, true)])
  {
    RunSnoc(false, [], Connect);
    assert Run(false, [] + [Connect]) == Desk(false, Core(Some(1), 1, map[], []), [],
      map[1 := Connection([], {}, {}, true)]);
    RunSnoc(false, [] + [Connect], Ask(id));
    run := [] + [Connect] + [Ask(id)];
    var d := Run(false, run);
    assert d.core.pending == map[id := 0] && d.core.replies == [Waiting] && d.asked == [Asked(id, None)];
    assert d.connections[1].queue == [0] && d.connections[1].open == {} && d.connections[1].shown == {};
    RunSnoc(false, run, Show(1, true));
    run := run + [Show(1, true)];
    d := Run(false, run);
    assert d.core.pending == map[id := 0] && d.core.replies == [Waiting] && d.asked == [Asked(id, None)];
    assert d.connections[1].queue == [] && d.connections[1].open == {id} && d.connections[1].shown == {0};
    RunSnoc(false, run, Connect);
    run := run + [Connect];
    d := Run(false, run);
    assert d.core.replies == [Dropped];
  }

  /** With a reused transfer id it need not be: a displaced connection that still has the old prompt on
      screen answers the new question, which only its successor was to be asked. */
  lemma ReusedIdAnswersAnotherQuestion(id: TransferId) returns (run: seq<Action>)
    ensures var d := Run(false, run);
            && |d.asked| == 2 && d.asked[1] == Asked(id, Some(true))
            && 1 in d.connections && 1 !in d.connections[1].shown
            && 2 in d.connections && d.connections[2].shown == {}
  {
    run := PromptLeftOpen(id);
    var d := Run(false, run);
    RunSnoc(false, run, Ask(id));
    run := run + [Ask(id)];
    d := Step(d, Ask(id));
    assert d.core == Core(Some(2), 2, map[id := 1], [Dropped, Waiting])
      && d.asked == [Asked(id, None), Asked(id, None)];
    RunSnoc(false, run, Decision(1, id, true));
    run := run + [Decision(1, id, true)];
    d := Step(d, Decision(1, id, true));
    assert d.core.replies[1] == Answered(true, 1);
    RunSnoc(false, run, Resume(1));
    run := run + [Resume(1)];
  }

  /** A question is answered at most once: a reply given or dropped, and an answer returned, never change. */
  lemma {:induction false} AnswersAreFinal(unattended: bool, run: seq<Action>, n: nat, q: Question)
    requires n <= |run| && q < |Run(unattended, run[..n]).asked|
    ensures var was, now := Run(unattended, run[..n]), Run(unattended, run);
            && q < |now.asked| && q < |was.core.replies| && q < |now.core.replies|
            && (was.asked[q].returned.Some? ==> now.asked[q].returned == was.asked[q].returned)
            && (!was.core.replies[q].Waiting? ==> now.core.replies[q] == was.core.replies[q])
    decreases |run|
  {
    RunKeepsDesk(unattended, run);
    if n == |run| {
      assert run[..n] == run;
    } else {
      var before := run[..|run| - 1];
      assert before[..n] == run[..n];
      AnswersAreFinal(unattended, before, n, q);
      RunKeepsDesk(unattended, before);
      StepOnReply(Run(unattended, before), run[|run| - 1], q);
      StepOnReturn(Run(unattended, before), run[|run| - 1], q);
    }
  }

  /** A question whose reply channel is dropped is declined when its call resumes. */
  lemma DroppedDeclines(d: Desk, q: Question)
    requires Pending(d, q) && d.core.replies[q].Dropped?
    ensures Step(d, Resume(q)).asked[q].returned == Some(false)
  {
  }

  /** Pending questions always have a provider; a stale connection's close leaves the newer provider and
      its questions alone; a new provider, or the current one's close, declines every open question. */
  lemma ProvidersComeAndGo(unattended: bool, run: seq<Action>, e: Epoch, q: Question)
    ensures var d := Run(unattended, run);
            && (d.core.pending != map[] ==> d.core.provider.Some?)
            && (e != d.core.epoch ==> Step(d, Close(e)).core == d.core)
            && (Pending(d, q) && d.core.replies[q].Waiting? ==>
                  && Step(Step(d, Connect), Resume(q)).asked[q].returned == Some(false)
                  && (Alive(d, d.core.epoch) ==>
                        Step(Step(d, Close(d.core.epoch)), Resume(q)).asked[q].returned == Some(false)))
  {
    var d := Run(unattended, run);
    RunKeepsDesk(unattended, run);
    if Pending(d, q) && d.core.replies[q].Waiting? {
      ClearKeepsCore(d.core, d.asked, d.core.epoch);
      DroppedDeclines(Step(d, Connect), q);
      if Alive(d, d.core.epoch) {
        DroppedDeclines(Step(d, Close(d.core.epoch)), q);
      }
    }
  }

  /** Withdrawal, a full or closed queue, and giving up all decline. */
  lemma EveryOtherWayDeclines(unattended: bool, run: seq<Action>, e: Epoch, id: TransferId, q: Question)
    ensures var d := Run(unattended, run);
            && (!unattended && !CanQueue(d) ==> Step(d, Ask(id)).asked[|d.asked|].returned == Some(false))
            && (Pending(d, q) ==> Step(d, TimeOut(q)).asked[q].returned == Some(false)
                                  && d.asked[q].transfer !in Step(d, TimeOut(q)).core.pending)
            && (Pending(d, q) && d.core.replies[q].Waiting? && Alive(d, e)
                  && d.asked[q].transfer in d.connections[e].open ==>
                  Step(Step(d, TransferEnded(e, d.asked[q].transfer)), Resume(q)).asked[q].returned == Some(false))
  {
    RunKeepsDesk(unattended, run);
  }

  // ---- A provider that breaks ----

  /** Step `k` was a live connection of epoch `e` ending on a write error. */
  ghost predicate BrokeAt(unattended: bool, run: seq<Action>, k: nat, e: Epoch)
    requires k < |run|
  {
    run[k] == Abort(e) && Alive(Run(unattended, run[..k]), e)
  }

  ghost predicate Broke(unattended: bool, run: seq<Action>, e: Epoch) {
    exists k :: 0 <= k < |run| && BrokeAt(unattended, run, k, e)
  }

  lemma BrokeSnoc(unattended: bool, run: seq<Action>, a: Action, e: Epoch)
    ensures Broke(unattended, run + [a], e)
            <==> Broke(unattended, run, e) || (a == Abort(e) && Alive(Run(unattended, run), e))
  {
    var all := run + [a];
    assert all[..|run|] == run;
    forall k | 0 <= k < |run| ensures BrokeAt(unattended, all, k, e) == BrokeAt(unattended, run, k, e) {
      assert all[..k] == run[..k];
    }
    if a == Abort(e) && Alive(Run(unattended, run), e) {
      assert BrokeAt(unattended, all, |run|, e);
    }
    if Broke(unattended, run, e) {
      var k :| 0 <= k < |run| && BrokeAt(unattended, run, k, e);
      assert BrokeAt(unattended, all, k, e);
    }
  }

  lemma {:induction false} FutureNeverBroke(unattended: bool, run: seq<Action>, e: Epoch)
    requires e > Run(unattended, run).core.epoch
    ensures !Broke(unattended, run, e)
  {
    if run != [] {
      var before, a := run[..|run| - 1], run[|run| - 1];
      assert run == before + [a];
      RunKeepsDesk(unattended, before);
      EpochsGrow(Run(unattended, before), a);
      FutureNeverBroke(unattended, before, e);
      BrokeSnoc(unattended, before, a, e);
    }
  }

  lemma EpochsGrow(d: Desk, a: Action)
    ensures d.core.epoch <= Step(d, a).core.epoch
  {
  }

  /** What a step does to the provider and its connection. */
  lemma StepOnProvider(d: Desk, a: Action)
    requires CoreOk(d.core, d.asked) && Step(d, a).core.provider.Some?
    ensures var t := Step(d, a);
            if a.Connect? then t.core.provider == Some(d.core.epoch + 1) && Alive(t, d.core.epoch + 1)
            else t.core.provider == d.core.provider && (Alive(t, t.core.provider.value)
                 <==> Alive(d, t.core.provider.value) && a != Abort(t.core.provider.value))
  {
  }

  /** A recorded provider's connection is dead exactly when it ended on a write error: that, and only
      that, skips the detach. */
  lemma {:induction false} ProviderDeadExactlyWhenBroken(unattended: bool, run: seq<Action>)
    requires Run(unattended, run).core.provider.Some?
    ensures var d := Run(unattended, run);
            !Alive(d, d.core.provider.value) <==> Broke(unattended, run, d.core.provider.value)
  {
    if run != [] {
      var before, a := run[..|run| - 1], run[|run| - 1];
      var d := Run(unattended, before);
      assert run == before + [a];
      RunKeepsDesk(unattended, before);
      StepOnProvider(d, a);
      var e := Run(unattended, run).core.provider.value;
      BrokeSnoc(unattended, before, a, e);
      if a.Connect? {
        FutureNeverBroke(unattended, before, e);
      } else {
        ProviderDeadExactlyWhenBroken(unattended, before);
      }
    }
  }

  /** No live connection has this question on screen or coming. */
  ghost predicate NobodyAsked(d: Desk, q: Question) {
    forall e :: Alive(d, e) ==> q !in d.connections[e].queue && q !in d.connections[e].shown
  }

  /** Over every run, a question still waiting has nobody to put it to a person exactly when the provider
      it was given to ended on a write error; and until another attaches, every new offer is declined. */
  lemma NobodyAskedExactlyWhenBroken(unattended: bool, run: seq<Action>, q: Question)
    requires Waits(Run(unattended, run), q)
    ensures var d := Run(unattended, run);
            && d.core.provider.Some?
            && (NobodyAsked(d, q) <==> Broke(unattended, run, d.core.provider.value))
            && (NobodyAsked(d, q) && !unattended ==>
                  forall id :: Step(d, Ask(id)).asked[|d.asked|].returned == Some(false))
  {
    var d := Run(unattended, run);
    RunKeepsDesk(unattended, run);
    RunKeepsPlaced(unattended, run);
    assert Placed(d, q) && d.core.pending[d.asked[q].transfer] == q;
    ProviderDeadExactlyWhenBroken(unattended, run);
  }

  /** And that happens: a provider is asked about a transfer and its connection breaks. */
  lemma BrokenProviderLeavesQuestion(id: TransferId) returns (run: seq<Action>)
    ensures run == [Connect, Ask(id), Abort(1)]
    ensures var d := Run(false, run);
            && Waits(d, 0) && d.asked == [Asked(id, None)] && NobodyAsked(d, 0)
            && Broke(false, run, 1) && d.core.provider == Some(1)
  {
    RunSnoc(false, [], Connect);
    RunSnoc(false, [Connect], Ask(id));
    RunSnoc(false, [Connect, Ask(id)], Abort(1));
    assert [] + [Connect] == [Connect];
    assert [Connect] + [Ask(id)] == [Connect, Ask(id)];
    run := [Connect, Ask(id)] + [Abort(1)];
    var asked := Run(false, [Connect, Ask(id)]);
    assert asked.core == Core(Some(1), 1, map[id := 0], [Waiting]) && asked.asked == [Asked(id, None)];
    assert asked.connections.Keys == {1} && asked.connections[1].queue == [0] && Alive(asked, 1);
    BrokeSnoc(false, [Connect, Ask(id)], Abort(1), 1);
  }
}
