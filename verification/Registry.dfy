/** Which session a peer has, and when a session is asked to end so that its peer reconnects. The two
    tables have a lock each; a run is any interleaving of the sections that hold one. */
module Registry {
  import opened Base

  type SessionId = nat
  /** A control connection in the middle of changing a grant. */
  type Client = nat

  datatype Handle = Handle(id: SessionId, peer: Fingerprint, negotiated: seq<string>)

  datatype Decision = Withdrawn | NoSession | AlreadyNegotiated | AlreadyRequested | Reconnect

  /** What a grant change means for the session it finds. */
  function Decide(granted: bool, capability: string, session: Option<Handle>, requested: Option<SessionId>): Decision {
    if !granted then Withdrawn
    else if session.None? then NoSession
    else if capability in session.value.negotiated then AlreadyNegotiated
    else if requested == Some(session.value.id) then AlreadyRequested
    else Reconnect
  }

  function Get<V>(m: map<Fingerprint, V>, f: Fingerprint): Option<V> {
    if f in m then Some(m[f]) else None
  }

  /** The requests after a decision: one entry per peer, overwritten. */
  function Noted(requested: map<Fingerprint, SessionId>, peer: Fingerprint, session: Option<Handle>, d: Decision)
    : map<Fingerprint, SessionId>
  {
    if d.Reconnect? && session.Some? then requested[peer := session.value.id] else requested
  }

  class DaemonSessions {
    var sessions: map<Fingerprint, Handle>
    var requested: map<Fingerprint, SessionId>
    var lastSeen: map<Fingerprint, Time>

    constructor ()
      ensures sessions == map[] && requested == map[] && lastSeen == map[]
    {
      sessions, requested, lastSeen := map[], map[], map[];
    }

    method ClearRenegotiation(peer: Fingerprint)
      modifies this`requested
      ensures requested == old(requested) - {peer}
    {
      requested := requested - {peer};
    }

    /** The session displaced, if there was one, is to be shut down. */
    method RegisterSession(h: Handle) returns (displaced: Option<Handle>)
      modifies this`sessions, this`requested
      ensures requested == old(requested) - {h.peer}
      ensures sessions == old(sessions)[h.peer := h]
      ensures displaced == Get(old(sessions), h.peer)
    {
      ClearRenegotiation(h.peer);
      displaced := Get(sessions, h.peer);
      sessions := sessions[h.peer := h];
    }

    method UnregisterSession(peer: Fingerprint, id: SessionId, now: Time)
      modifies this`sessions, this`lastSeen
      ensures if peer in old(sessions) && old(sessions)[peer].id == id
              then sessions == old(sessions) - {peer} && lastSeen == old(lastSeen)[peer := now]
              else sessions == old(sessions) && lastSeen == old(lastSeen)
    {
      if peer in sessions && sessions[peer].id == id {
        sessions := sessions - {peer};
        lastSeen := lastSeen[peer := now];
      }
    }

    /** Whatever session the peer has, whichever its id. */
    method DropSession(peer: Fingerprint, now: Time)
      modifies this`sessions, this`lastSeen
      ensures sessions == old(sessions) - {peer}
      ensures lastSeen == if peer in old(sessions) then old(lastSeen)[peer := now] else old(lastSeen)
    {
      if peer in sessions {
        sessions := sessions - {peer};
        lastSeen := lastSeen[peer := now];
      }
    }

    method OnGrantChanged(peer: Fingerprint, capability: string, granted: bool,
                          session: Option<Handle>) returns (d: Decision)
      modifies this`requested
      ensures d == Decide(granted, capability, session, Get(old(requested), peer))
      ensures requested == Noted(old(requested), peer, session, d)
    {
      d := Decide(granted, capability, session, Get(requested, peer));
      if d.Reconnect? && session.Some? {
        requested := requested[peer := session.value.id];
      }
    }

    method RenegotiateAfterGrant(peer: Fingerprint, capability: string, granted: bool)
      returns (d: Decision, toEnd: Option<Handle>)
      modifies this`requested
      ensures d == Decide(granted, capability, Get(sessions, peer), Get(old(requested), peer))
      ensures requested == Noted(old(requested), peer, Get(sessions, peer), d)
      ensures toEnd == if d.Reconnect? then Get(sessions, peer) else None
    {
      var handle := Get(sessions, peer);
      d := OnGrantChanged(peer, capability, granted, handle);
      toEnd := if d.Reconnect? then handle else None;
    }

    method EnforceRevocation(peer: Fingerprint, now: Time) returns (toEnd: Option<Handle>)
      modifies this
      ensures sessions == old(sessions) - {peer} && requested == old(requested) - {peer}
      ensures lastSeen == if peer in old(sessions) then old(lastSeen)[peer := now] else old(lastSeen)
      ensures toEnd == Get(old(sessions), peer)
    {
      toEnd := Get(sessions, peer);
      DropSession(peer, now);
      ClearRenegotiation(peer);
    }
  }

  // ---- Every interleaving ----

  datatype Look = Look(peer: Fingerprint, session: Option<Handle>)

  /** The two tables, and what each client read before it decides. */
  datatype State = State(sessions: map<Fingerprint, Handle>, requested: map<Fingerprint, SessionId>,
    looks: map<Client, Look>)

  const START := State(map[], map[], map[])

  /** One critical section. Registering is `Clear` then `Insert`, revoking `Drop` then `Clear`, and
      changing a grant `Read` then `Judge`. */
  datatype Section =
    | Clear(peer: Fingerprint)
    | Insert(handle: Handle)
    | Closed(peer: Fingerprint, id: SessionId)
    | Drop(peer: Fingerprint)
    | Read(client: Client, peer: Fingerprint)
    | Judge(client: Client, capability: string, granted: bool)

  function Verdict(s: State, a: Section): Decision
    requires a.Judge? && a.client in s.looks
  {
    var l := s.looks[a.client];
    Decide(a.granted, a.capability, l.session, Get(s.requested, l.peer))
  }

  /** The peer and session a section asks to reconnect. */
  function Asks(s: State, a: Section): Option<(Fingerprint, SessionId)> {
    if a.Judge? && a.client in s.looks && Verdict(s, a).Reconnect?
    then Some((s.looks[a.client].peer, s.looks[a.client].session.value.id))
    else None
  }

  function Step(s: State, a: Section): State {
    match a
    case Clear(peer) => s.(requested := s.requested - {peer})
    case Insert(h) => s.(sessions := s.sessions[h.peer := h])
    case Closed(peer, id) =>
      if peer in s.sessions && s.sessions[peer].id == id then s.(sessions := s.sessions - {peer}) else s
    case Drop(peer) => s.(sessions := s.sessions - {peer})
    case Read(client, peer) => s.(looks := s.looks[client := Look(peer, Get(s.sessions, peer))])
    case Judge(client, _, _) =>
      if client !in s.looks then s
      else s.(requested := Noted(s.requested, s.looks[client].peer, s.looks[client].session, Verdict(s, a)))
  }

  function Run(run: seq<Section>): State {
    if run == [] then START else Step(Run(run[..|run| - 1]), run[|run| - 1])
  }

  /** Section `a` takes session `h` out of the table: a newer session of the same peer, its own close, or
      a revocation. The close of any other session is not among them. */
  predicate Ends(a: Section, h: Handle) {
    match a
    case Insert(g) => g.peer == h.peer
    case Closed(peer, id) => peer == h.peer && id == h.id
    case Drop(peer) => peer == h.peer
    case _ => false
  }

  ghost predicate LiveSince(run: seq<Section>, i: nat, h: Handle) {
    i < |run| && run[i] == Insert(h) && forall k :: i < k < |run| ==> !Ends(run[k], h)
  }

  /** A peer's session is exactly the one most recently inserted for it that has since been neither closed
      by its own id nor dropped; so the late close of a session it displaced changes nothing. */
  lemma {:induction false} RegisteredIsLatest(run: seq<Section>, h: Handle)
    ensures Get(Run(run).sessions, h.peer) == Some(h) <==> exists i :: LiveSince(run, i, h)
  {
    if run != [] {
      var before, n := run[..|run| - 1], |run| - 1;
      RegisteredIsLatest(before, h);
      if run[n] == Insert(h) {
        assert LiveSince(run, n, h);
      } else if Ends(run[n], h) {
        assert forall i: nat :: LiveSince(run, i, h) ==> i >= n;
      } else {
        assert forall i: nat :: LiveSince(before, i, h) <==> LiveSince(run, i, h) by {
          forall i: nat ensures LiveSince(before, i, h) <==> LiveSince(run, i, h) {
            assert forall k :: 0 <= k < n ==> before[k] == run[k];
          }
        }
      }
    }
  }

  // ---- When a session is asked ----

  /** What section `k` of a run asks for. */
  function AskedAt(run: seq<Section>, k: nat): Option<(Fingerprint, SessionId)>
    requires k < |run|
  {
    Asks(Run(run[..k]), run[k])
  }

  /** Section `k` overwrites or removes what is noted for `peer`. */
  ghost predicate Forgets(run: seq<Section>, k: nat, peer: Fingerprint)
    requires k < |run|
  {
    run[k] == Clear(peer) || (AskedAt(run, k).Some? && AskedAt(run, k).value.0 == peer)
  }

  /** Section `j` asked this session, and nothing for its peer has been noted or cleared since. */
  ghost predicate LastAsked(run: seq<Section>, j: nat, peer: Fingerprint, id: SessionId) {
    && j < |run| && AskedAt(run, j) == Some((peer, id))
    && forall k :: j < k < |run| ==> !Forgets(run, k, peer)
  }

  lemma AskedAtPrefix(run: seq<Section>, n: nat, k: nat)
    requires k < n <= |run|
    ensures AskedAt(run[..n], k) == AskedAt(run, k)
  {
    assert run[..n][..k] == run[..k];
  }

  lemma LastAskedSnoc(run: seq<Section>, j: nat, peer: Fingerprint, id: SessionId)
    requires run != [] && j < |run| - 1
    ensures LastAsked(run, j, peer, id)
            <==> LastAsked(run[..|run| - 1], j, peer, id) && !Forgets(run, |run| - 1, peer)
  {
    var n := |run| - 1;
    AskedAtPrefix(run, n, j);
    forall k: nat | k < n ensures Forgets(run[..n], k, peer) == Forgets(run, k, peer) {
      AskedAtPrefix(run, n, k);
    }
    if LastAsked(run, j, peer, id) {
      assert forall k :: j < k < n ==> !Forgets(run, k, peer);
    } else if AskedAt(run, j) == Some((peer, id)) {
      var k :| j < k < |run| && Forgets(run, k, peer);
      assert k < n ==> Forgets(run[..n], k, peer);
    }
  }

  lemma {:induction false} NotedIsLastAsked(run: seq<Section>, peer: Fingerprint, id: SessionId)
    ensures Get(Run(run).requested, peer) == Some(id) <==> exists j :: LastAsked(run, j, peer, id)
  {
    if run != [] {
      var before, n := run[..|run| - 1], |run| - 1;
      NotedIsLastAsked(before, peer, id);
      forall j: nat | j < n
        ensures LastAsked(run, j, peer, id) <==> LastAsked(before, j, peer, id) && !Forgets(run, n, peer)
      {
        LastAskedSnoc(run, j, peer, id);
      }
      assert LastAsked(run, n, peer, id) <==> AskedAt(run, n) == Some((peer, id));
      assert forall j: nat :: LastAsked(run, j, peer, id) ==> j <= n;
      StepNotes(Run(before), run[n], peer);
      if Forgets(run, n, peer) {
        assert forall j: nat :: LastAsked(run, j, peer, id) ==> j == n;
      } else {
        assert forall j: nat :: LastAsked(before, j, peer, id) ==> j < n && LastAsked(run, j, peer, id);
      }
    }
  }

  lemma StepNotes(s: State, a: Section, peer: Fingerprint)
    ensures Asks(s, a).Some? && Asks(s, a).value.0 == peer ==>
            Get(Step(s, a).requested, peer) == Some(Asks(s, a).value.1)
    ensures a == Clear(peer) ==> Get(Step(s, a).requested, peer) == None
    ensures a != Clear(peer) && (Asks(s, a).None? || Asks(s, a).value.0 != peer)
            ==> Get(Step(s, a).requested, peer) == Get(s.requested, peer)
  {
  }

  /** Over every interleaving, a grant of a capability its session did not negotiate asks that session
      exactly when the session has not been asked already, or something for its peer has been noted or
      cleared since it was. */
  lemma AskedUnlessLastAsked(run: seq<Section>, client: Client, capability: string)
    requires client in Run(run).looks && Run(run).looks[client].session.Some?
    requires capability !in Run(run).looks[client].session.value.negotiated
    ensures var look := Run(run).looks[client];
            Asks(Run(run), Judge(client, capability, true)) == Some((look.peer, look.session.value.id))
            <==> !exists j :: LastAsked(run, j, look.peer, look.session.value.id)
  {
    var look := Run(run).looks[client];
    NotedIsLastAsked(run, look.peer, look.session.value.id);
  }

  lemma RunSnoc(run: seq<Section>, a: Section)
    ensures Run(run + [a]) == Step(Run(run), a)
    ensures AskedAt(run + [a], |run|) == Asks(Run(run), a)
  {
    assert (run + [a])[..|run|] == run;
  }

  /** Client 7 reads session `a`; session `b` replaces it; client 8 grants and `b` is asked. */
  function Replaced(a: Handle, b: Handle): seq<Section> {
    [Insert(a)] + [Read(7, a.peer)] + [Clear(a.peer)] + [Insert(b)] + [Read(8, a.peer)]
  }

  lemma AfterReplaced(a: Handle, b: Handle)
    requires a.peer == b.peer
    ensures Run(Replaced(a, b)) == State(map[a.peer := b], map[],
            map[7 := Look(a.peer, Some(a)), 8 := Look(a.peer, Some(b))])
  {
    RunSnoc([], Insert(a));
    assert [] + [Insert(a)] == [Insert(a)];
    RunSnoc([Insert(a)], Read(7, a.peer));
    RunSnoc([Insert(a)] + [Read(7, a.peer)], Clear(a.peer));
    RunSnoc([Insert(a)] + [Read(7, a.peer)] + [Clear(a.peer)], Insert(b));
    RunSnoc([Insert(a)] + [Read(7, a.peer)] + [Clear(a.peer)] + [Insert(b)], Read(8, a.peer));
    var s := Run(Replaced(a, b));
    assert s.requested == map[];
    assert s.sessions == map[a.peer := b];
    assert s.looks == map[7 := Look(a.peer, Some(a)), 8 := Look(a.peer, Some(b))];
  }

  /** A client that read a session before it was replaced makes the one that replaced it be asked twice,
      although that one stayed registered. */
  lemma StaleReadAsksTwice(a: Handle, b: Handle, c: string)
    requires a.peer == b.peer && a.id != b.id && c !in a.negotiated && c !in b.negotiated
    ensures var run := Replaced(a, b) + [Judge(8, c, true)] + [Judge(7, c, true)] + [Read(9, b.peer)];
            && AskedAt(run, 5) == Some((b.peer, b.id))
            && Asks(Run(run), Judge(9, c, true)) == Some((b.peer, b.id))
            && Run(run).sessions == map[b.peer := b]
  {
    var r5 := Replaced(a, b);
    var r6 := r5 + [Judge(8, c, true)];
    var r7 := r6 + [Judge(7, c, true)];
    var r8 := r7 + [Read(9, b.peer)];
    AfterReplaced(a, b);
    RunSnoc(r5, Judge(8, c, true));
    RunSnoc(r6, Judge(7, c, true));
    RunSnoc(r7, Read(9, b.peer));
    assert Run(r6).requested[b.peer] == b.id && Run(r6).looks == Run(r5).looks;
    assert Run(r7).requested[b.peer] == a.id;
    assert r8[..6] == r6;
    AskedAtPrefix(r8, 6, 5);
  }

  // ---- Calls that do not interleave ----

  datatype Call =
    | Register(handle: Handle)
    | Unregister(peer: Fingerprint, id: SessionId)
    | Grant(client: Client, peer: Fingerprint, capability: string, granted: bool)
    | Revoke(peer: Fingerprint)

  function Sections(c: Call): (r: seq<Section>)
    ensures 1 <= |r| <= 2
  {
    match c
    case Register(h) => [Clear(h.peer), Insert(h)]
    case Unregister(peer, id) => [Closed(peer, id)]
    case Grant(client, peer, capability, granted) => [Read(client, peer), Judge(client, capability, granted)]
    case Revoke(peer) => [Drop(peer), Clear(peer)]
  }

  function AllSections(calls: seq<Call>): seq<Section> {
    if calls == [] then [] else AllSections(calls[..|calls| - 1]) + Sections(calls[|calls| - 1])
  }

  /** Ids of the sessions registered so far, and of those asked. */
  ghost function Used(calls: seq<Call>): set<SessionId> {
    set i | 0 <= i < |calls| && calls[i].Register? :: calls[i].handle.id
  }

  ghost function Asked(run: seq<Section>): set<SessionId> {
    set k | 0 <= k < |run| && AskedAt(run, k).Some? :: AskedAt(run, k).value.1
  }

  /** Session ids come from a counter. */
  ghost predicate FreshIds(calls: seq<Call>) {
    forall i, j :: 0 <= i < j < |calls| && calls[i].Register? && calls[j].Register? ==>
      calls[i].handle.id != calls[j].handle.id
  }

  /** Each registered session that was asked is still noted as asked. */
  ghost predicate Remembers(s: State, used: set<SessionId>, asked: set<SessionId>) {
    && asked <= used
    && (forall p :: p in s.sessions ==> s.sessions[p].peer == p && s.sessions[p].id in used)
    && (forall p, q :: p in s.sessions && q in s.sessions && s.sessions[p].id == s.sessions[q].id ==> p == q)
    && (forall p :: p in s.sessions && s.sessions[p].id in asked ==> Get(s.requested, p) == Some(s.sessions[p].id))
  }

  lemma AfterTwo(run: seq<Section>, a: Section, b: Section)
    ensures Run(run + [a, b]) == Step(Step(Run(run), a), b)
    ensures Run((run + [a, b])[..|run| + 1]) == Step(Run(run), a)
  {
    RunSnoc(run, a);
    RunSnoc(run + [a], b);
    assert run + [a] + [b] == run + [a, b] && (run + [a, b])[..|run| + 1] == run + [a];
  }

  lemma AfterSections(run: seq<Section>, c: Call)
    ensures |Sections(c)| == 1 ==> Run(run + Sections(c)) == Step(Run(run), Sections(c)[0])
    ensures |Sections(c)| == 2 ==> Run(run + Sections(c)) == Step(Step(Run(run), Sections(c)[0]), Sections(c)[1])
    ensures |Sections(c)| == 2 ==> Run((run + Sections(c))[..|run| + 1]) == Step(Run(run), Sections(c)[0])
  {
    var sections := Sections(c);
    if |sections| == 2 {
      AfterTwo(run, sections[0], sections[1]);
      assert sections == [sections[0], sections[1]];
    } else {
      RunSnoc(run, sections[0]);
      assert sections == [sections[0]];
    }
  }

  /** Only the last section of a grant call asks anything. */
  lemma AskedByCall(run: seq<Section>, c: Call)
    ensures var all := run + Sections(c);
            Asked(all) == Asked(run) + (if AskedAt(all, |all| - 1).Some? then {AskedAt(all, |all| - 1).value.1} else {})
  {
    var all := run + Sections(c);
    assert all[..|run|] == run;
    forall k: nat | k < |run| ensures AskedAt(all, k) == AskedAt(run, k) {
      AskedAtPrefix(all, |run|, k);
    }
    assert |Sections(c)| == 2 ==> !all[|run|].Judge?;
  }

  lemma UsedSnoc(calls: seq<Call>)
    requires calls != []
    ensures var c := calls[|calls| - 1];
            Used(calls) == Used(calls[..|calls| - 1]) + (if c.Register? then {c.handle.id} else {})
    ensures FreshIds(calls) ==> FreshIds(calls[..|calls| - 1])
    ensures FreshIds(calls) && calls[|calls| - 1].Register? ==>
            calls[|calls| - 1].handle.id !in Used(calls[..|calls| - 1])
  {
    var n := |calls| - 1;
    assert forall i :: 0 <= i < n ==> calls[..n][i] == calls[i];
  }

  /** What a call other than a grant leaves. */
  lemma QuietCallRemembers(s: State, c: Call, used: set<SessionId>, asked: set<SessionId>)
    requires !c.Grant? && Remembers(s, used, asked)
    requires c.Register? ==> c.handle.id !in used
    ensures var now := used + (if c.Register? then {c.handle.id} else {});
            && (c.Unregister? ==> Remembers(Step(s, Sections(c)[0]), now, asked))
            && (!c.Unregister? ==> Remembers(Step(Step(s, Sections(c)[0]), Sections(c)[1]), now, asked))
  {
  }

  lemma {:induction false} CallsRemember(calls: seq<Call>)
    requires FreshIds(calls)
    ensures Remembers(Run(AllSections(calls)), Used(calls), Asked(AllSections(calls)))
  {
    if calls != [] {
      var before, c := calls[..|calls| - 1], calls[|calls| - 1];
      var run := AllSections(before);
      UsedSnoc(calls);
      CallsRemember(before);
      CallRemembers(run, c, Used(before));
    }
  }

  lemma CallRemembers(run: seq<Section>, c: Call, used: set<SessionId>)
    requires Remembers(Run(run), used, Asked(run))
    requires c.Register? ==> c.handle.id !in used
    ensures Remembers(Run(run + Sections(c)), used + (if c.Register? then {c.handle.id} else {}),
            Asked(run + Sections(c)))
  {
    var all := run + Sections(c);
    AfterSections(run, c);
    AskedByCall(run, c);
    assert all[|all| - 1] == Sections(c)[|Sections(c)| - 1];
    if c.Grant? {
      assert all[..|all| - 1] == all[..|run| + 1];
      GrantRemembers(Run(run), c, used, Asked(run));
      assert used + {} == used;
    } else {
      QuietCallRemembers(Run(run), c, used, Asked(run));
      assert Asked(run) + {} == Asked(run);
    }
  }

  lemma GrantRemembers(s: State, c: Call, used: set<SessionId>, asked: set<SessionId>)
    requires c.Grant? && Remembers(s, used, asked)
    ensures var read := Step(s, Sections(c)[0]);
            var asks := Asks(read, Sections(c)[1]);
            && Remembers(Step(read, Sections(c)[1]), used, asked + (if asks.Some? then {asks.value.1} else {}))
            && (asks.Some? ==> asks.value.1 !in asked)
  {
  }

  /** If call `c` asks a session at the end of `run`, that session was not asked before. */
  ghost predicate AsksOnlyNew(run: seq<Section>, c: Call) {
    var all := run + Sections(c);
    AskedAt(all, |all| - 1).Some? ==> AskedAt(all, |all| - 1).value.1 !in Asked(run)
  }

  /** When calls do not interleave, no call asks a session that was asked before. */
  lemma AskedAtMostOnce(calls: seq<Call>, c: Call)
    requires FreshIds(calls)
    ensures AsksOnlyNew(AllSections(calls), c)
  {
    CallsRemember(calls);
    NewlyAsked(AllSections(calls), c, Used(calls));
  }

  lemma NewlyAsked(run: seq<Section>, c: Call, used: set<SessionId>)
    requires Remembers(Run(run), used, Asked(run))
    ensures AsksOnlyNew(run, c)
  {
    var all := run + Sections(c);
    AfterSections(run, c);
    assert all[|all| - 1] == Sections(c)[|Sections(c)| - 1];
    if c.Grant? {
      assert all[..|all| - 1] == all[..|run| + 1];
      GrantRemembers(Run(run), c, used, Asked(run));
    }
  }
}
