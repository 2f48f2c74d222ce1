/** The single-use pairing window, and every interleaving of windows, connections and operators. */
module Pairing {
  import opened Base
  import opened Encoding
  import opened Mac
  import Handshake

  const MAX_FAILED_ATTEMPTS: nat := 3

  type PairingError = Handshake.PairingError

  /** An open window: the secret behind the QR code, and what has been tried against it. */
  datatype Window = Window(token: Token, openedAt: Time, ttl: Time, failed: nat, consumed: bool)

  predicate Expired(w: Window, now: Time) {
    (if now < w.openedAt then 0 else now - w.openedAt) >= w.ttl
  }

  predicate Exhausted(w: Window, now: Time) {
    w.consumed || Expired(w, now) || w.failed >= MAX_FAILED_ATTEMPTS
  }

  /** The window's answer to a proof, and the window afterwards. */
  function Verify(w: Window, h: Hmac, responder: Fingerprint, initiator: Fingerprint, nonce: Bytes, proof: Bytes,
                  now: Time)
    : (Window, Result<Bytes, PairingError>)
  {
    if w.consumed then (w, Err(Handshake.WindowUsed))
    else if Expired(w, now) then (w, Err(Handshake.WindowExpired))
    else if w.failed >= MAX_FAILED_ATTEMPTS then (w, Err(Handshake.TooManyAttempts))
    else if proof != ComputeProof(h, w.token, responder, initiator, nonce) then
      (w.(failed := w.failed + 1), Err(Handshake.BadProof))
    else
      (w.(consumed := true), Ok(ComputeConfirmation(h, w.token, responder, initiator, nonce)))
  }

  class PairingSession {
    const token: Token
    const openedAt: Time
    const ttl: Time
    var failedAttempts: nat
    var consumed: bool

    function View(): Window
      reads this
    {
      Window(token, openedAt, ttl, failedAttempts, consumed)
    }

    constructor (token: Token, now: Time, ttl: Time)
      ensures View() == Window(token, now, ttl, 0, false)
    {
      this.token, this.openedAt, this.ttl := token, now, ttl;
      failedAttempts, consumed := 0, false;
    }

    method VerifyAndConsume(h: Hmac, responder: Fingerprint, initiator: Fingerprint, nonce: Bytes, proof: Bytes,
                            now: Time)
      returns (r: Result<Bytes, PairingError>)
      modifies this
      ensures (View(), r) == Verify(old(View()), h, responder, initiator, nonce, proof, now)
      ensures r.Ok? <==> !Exhausted(old(View()), now)
                         && proof == h(token, Message(PairingProof, responder, initiator, nonce))
      ensures r.Ok? ==> consumed && r.value == h(token, Message(PairingConfirmation, responder, initiator, nonce))
    {
      if consumed {
        return Err(Handshake.WindowUsed);
      }
      if Expired(View(), now) {
        return Err(Handshake.WindowExpired);
      }
      if failedAttempts >= MAX_FAILED_ATTEMPTS {
        return Err(Handshake.TooManyAttempts);
      }
      var expected := ComputeMac(h, token, PairingProof, responder, initiator, nonce);
      if proof != expected {
        failedAttempts := failedAttempts + 1;
        return Err(Handshake.BadProof);
      }
      consumed := true;
      var confirmation := ComputeMac(h, token, PairingConfirmation, responder, initiator, nonce);
      return Ok(confirmation);
    }
  }

  /** The daemon's side: the one open window and the operator attached to it. */
  class PairingDesk {
    const me: Fingerprint
    var pairing: PairingSession?
    var operator: Option<OperatorId>

    function View(): Option<Window>
      reads this, pairing
    {
      if pairing == null then None else Some(pairing.View())
    }

    constructor (me: Fingerprint)
      ensures this.me == me && View() == None && operator == None
    {
      this.me, pairing, operator := me, null, None;
    }

    /** Replaces any window already open, so its code stops working at once. */
    method BeginPairing(token: Token, now: Time, ttl: Time, who: OperatorId)
      modifies this
      ensures View() == Some(Window(token, now, ttl, 0, false)) && operator == Some(who)
    {
      pairing := new PairingSession(token, now, ttl);
      operator := Some(who);
    }

    method EndPairing()
      modifies this
      ensures View() == None && operator == None
    {
      pairing := null;
      operator := None;
    }

    method PairingModeActive(now: Time) returns (active: bool)
      ensures active <==> Active(View(), operator, now)
    {
      active := operator.Some? && pairing != null && !Exhausted(pairing.View(), now);
    }

    method VerifyPairingProof(h: Hmac, initiator: Fingerprint, nonce: Bytes, proof: Bytes, now: Time)
      returns (r: Result<Bytes, PairingError>)
      modifies this, pairing
      ensures (View(), r) == Present(old(View()), h, me, initiator, nonce, proof, now)
      ensures operator == old(operator)
      ensures View().Some? ==> !Exhausted(View().value, now)
    {
      if pairing == null {
        return Err(Handshake.WindowClosed);
      }
      r := pairing.VerifyAndConsume(h, me, initiator, nonce, proof, now);
      if Exhausted(pairing.View(), now) {
        pairing := null;
      }
    }
  }

  predicate Active(window: Option<Window>, operator: Option<OperatorId>, now: Time) {
    operator.Some? && window.Some? && !Exhausted(window.value, now)
  }

  /** Presenting a proof to the desk: a window that can no longer be used is dropped at once. */
  function Present(window: Option<Window>, h: Hmac, me: Fingerprint, initiator: Fingerprint, nonce: Bytes,
                   proof: Bytes, now: Time)
    : (Option<Window>, Result<Bytes, PairingError>)
  {
    match window
    case None => (None, Err(Handshake.WindowClosed))
    case Some(w) =>
      var (w', r) := Verify(w, h, me, initiator, nonce, proof, now);
      (if Exhausted(w', now) then None else Some(w'), r)
  }

  // ---- Every interleaving ----

  type ConnId = nat
  type WindowId = nat
  type OperatorId = nat

  /** Where one unpaired connection stands. `tls` is the key it authenticated with, `nonce` the
      challenge it alone was sent. */
  datatype Conn =
    | AwaitingProof(tls: Fingerprint, nonce: Bytes)
    | Proved(tls: Fingerprint, nonce: Bytes, window: WindowId, proof: Bytes)
    | Asked(tls: Fingerprint, nonce: Bytes, window: WindowId, proof: Bytes, operator: OperatorId)
    | Agreed(tls: Fingerprint, nonce: Bytes, window: WindowId, proof: Bytes, operator: OperatorId)
    | Paired(tls: Fingerprint, nonce: Bytes, window: WindowId, proof: Bytes, operator: OperatorId)
    | Gone

  /** The desk, the trust store's verdicts (`true` trusted, `false` revoked) and the connections,
      with a record of every window ever opened: its token, the wrong proofs it saw, who used it. */
  datatype State = State(
    now: Time,
    window: Option<Window>,
    operator: Option<OperatorId>,
    peers: map<Fingerprint, bool>,
    conns: map<ConnId, Conn>,
    tokens: seq<Token>,
    wrong: seq<nat>,
    winner: map<WindowId, ConnId>)

  datatype Action =
    | Pass(elapsed: Time)
    | Begin(token: Token, ttl: Time, operator: OperatorId)
    | End
    | Hello(conn: ConnId, tls: Fingerprint, nonce: Bytes)
    | Prove(conn: ConnId, proof: Bytes)
    | Ask(conn: ConnId)
    | Answer(conn: ConnId, yes: bool)
    | Store(conn: ConnId, written: bool)
    | Revoke(peer: Fingerprint)
    | Disconnect(conn: ConnId)

  predicate TrustedIn(s: State, f: Fingerprint) {
    f in s.peers && s.peers[f]
  }

  function At(s: State, c: ConnId): Conn {
    if c in s.conns then s.conns[c] else Gone
  }

  function Step(h: Hmac, me: Fingerprint, s: State, a: Action): State {
    match a
    case Pass(elapsed) => s.(now := s.now + elapsed)
    case Begin(token, ttl, operator) =>
      s.(window := Some(Window(token, s.now, ttl, 0, false)), operator := Some(operator),
         tokens := s.tokens + [token], wrong := s.wrong + [0])
    case End => s.(window := None, operator := None)
    case Hello(c, tls, nonce) =>
      if c in s.conns || TrustedIn(s, tls) then s
      else s.(conns := s.conns[c := if Active(s.window, s.operator, s.now) then AwaitingProof(tls, nonce) else Gone])
    case Prove(c, proof) =>
      if !At(s, c).AwaitingProof? then s else StepProof(h, me, s, c, proof)
    case Ask(c) =>
      (match At(s, c)
       case Proved(tls, nonce, w, proof) =>
         s.(conns := s.conns[c := if s.operator.None? then Gone else Asked(tls, nonce, w, proof, s.operator.value)])
       case _ => s)
    case Answer(c, yes) =>
      (match At(s, c)
       case Asked(tls, nonce, w, proof, op) =>
         s.(conns := s.conns[c := if yes then Agreed(tls, nonce, w, proof, op) else Gone])
       case _ => s)
    case Store(c, written) =>
      // The key is trusted in memory even if its write fails; the connection then ends with an error.
      (match At(s, c)
       case Agreed(tls, nonce, w, proof, op) =>
         s.(peers := s.peers[tls := true],
            conns := s.conns[c := if written then Paired(tls, nonce, w, proof, op) else Gone])
       case _ => s)
    case Revoke(f) => if f in s.peers then s.(peers := s.peers[f := false]) else s
    case Disconnect(c) => if At(s, c).Paired? || c !in s.conns then s else s.(conns := s.conns[c := Gone])
  }

  /** The window now open is always the last one opened. */
  function StepProof(h: Hmac, me: Fingerprint, s: State, c: ConnId, proof: Bytes): State
    requires At(s, c).AwaitingProof?
  {
    var conn := s.conns[c];
    var (window, r) := Present(s.window, h, me, conn.tls, conn.nonce, proof, s.now);
    var id := |s.tokens| - 1;
    if r.Ok? && 0 <= id then
      s.(window := window, winner := s.winner[id := c], conns := s.conns[c := Proved(conn.tls, conn.nonce, id, proof)])
    else if r == Err(Handshake.BadProof) && 0 <= id < |s.wrong| then
      s.(window := window, wrong := s.wrong[id := s.wrong[id] + 1], conns := s.conns[c := Gone])
    else
      s.(window := window, conns := s.conns[c := Gone])
  }

  function Exec(h: Hmac, me: Fingerprint, s: State, run: seq<Action>): State {
    if run == [] then s else Step(h, me, Exec(h, me, s, run[..|run| - 1]), run[|run| - 1])
  }

  function Start(peers: map<Fingerprint, bool>): State {
    State(0, None, None, peers, map[], [], [], map[])
  }

  predicate HasProof(c: Conn) {
    c.Proved? || c.Asked? || c.Agreed? || c.Paired?
  }

  ghost predicate WindowOk(s: State) {
    && |s.tokens| == |s.wrong|
    && (forall id :: 0 <= id < |s.wrong| ==> s.wrong[id] <= MAX_FAILED_ATTEMPTS)
    && (forall id :: id in s.winner ==> id < |s.tokens|)
    && (s.window.Some? ==>
          var id := |s.tokens| - 1;
          && 0 <= id && s.window.value.token == s.tokens[id]
          && !s.window.value.consumed
          && s.window.value.failed == s.wrong[id] < MAX_FAILED_ATTEMPTS
          && id !in s.winner)
  }

  ghost predicate ConnOk(h: Hmac, me: Fingerprint, s: State, c: ConnId) {
    HasProof(At(s, c)) ==>
      var conn := At(s, c);
      && conn.window < |s.tokens|
      && conn.window in s.winner && s.winner[conn.window] == c
      && conn.proof == ComputeProof(h, s.tokens[conn.window], me, conn.tls, conn.nonce)
  }

  ghost predicate Inv(h: Hmac, me: Fingerprint, s: State) {
    WindowOk(s) && forall c :: c in s.conns ==> ConnOk(h, me, s, c)
  }

  /** What presenting a proof leaves of a window that is neither consumed nor at the limit. */
  lemma PresentKeepsWindow(w: Window, h: Hmac, me: Fingerprint, tls: Fingerprint, nonce: Bytes, proof: Bytes, now: Time)
    requires !w.consumed && w.failed < MAX_FAILED_ATTEMPTS
    ensures var (after, r) := Present(Some(w), h, me, tls, nonce, proof, now);
            && (r.Ok? ==> after.None?)
            && (after.Some? ==> after.value.token == w.token && !after.value.consumed)
            && (after.Some? ==> after.value.failed < MAX_FAILED_ATTEMPTS)
            && (after.Some? ==> after.value.failed == w.failed + (if r == Err(Handshake.BadProof) then 1 else 0))
  {
  }

  lemma ProofKeepsWindow(h: Hmac, me: Fingerprint, s: State, c: ConnId, proof: Bytes)
    requires WindowOk(s) && At(s, c).AwaitingProof?
    ensures WindowOk(StepProof(h, me, s, c, proof))
  {
    var conn := s.conns[c];
    if s.window.Some? {
      PresentKeepsWindow(s.window.value, h, me, conn.tls, conn.nonce, proof, s.now);
    }
  }

  lemma ProofKeepsConn(h: Hmac, me: Fingerprint, s: State, c: ConnId, proof: Bytes, other: ConnId)
    requires WindowOk(s) && At(s, c).AwaitingProof? && ConnOk(h, me, s, other)
    ensures ConnOk(h, me, StepProof(h, me, s, c, proof), other)
  {
    var t, conn := StepProof(h, me, s, c, proof), s.conns[c];
    if other != c {
      assert At(t, other) == At(s, other);
    } else if s.window.Some? {
      PresentAccepts(s.window.value, h, me, conn.tls, conn.nonce, proof, s.now);
    }
  }

  lemma PresentAccepts(w: Window, h: Hmac, me: Fingerprint, tls: Fingerprint, nonce: Bytes, proof: Bytes, now: Time)
    ensures Present(Some(w), h, me, tls, nonce, proof, now).1.Ok? ==> proof == ComputeProof(h, w.token, me, tls, nonce)
  {
  }

  lemma StepKeepsWindow(h: Hmac, me: Fingerprint, s: State, a: Action)
    requires WindowOk(s)
    ensures WindowOk(Step(h, me, s, a))
  {
    if a.Prove? && At(s, a.conn).AwaitingProof? {
      ProofKeepsWindow(h, me, s, a.conn, a.proof);
    }
  }

  lemma StepKeepsConn(h: Hmac, me: Fingerprint, s: State, a: Action, c: ConnId)
    requires WindowOk(s) && ConnOk(h, me, s, c)
    ensures ConnOk(h, me, Step(h, me, s, a), c)
  {
    if a.Prove? && At(s, a.conn).AwaitingProof? {
      ProofKeepsConn(h, me, s, a.conn, a.proof, c);
    }
  }

  lemma StepKeepsInv(h: Hmac, me: Fingerprint, s: State, a: Action)
    requires Inv(h, me, s)
    ensures Inv(h, me, Step(h, me, s, a))
  {
    StepKeepsWindow(h, me, s, a);
    var t := Step(h, me, s, a);
    forall c | c in t.conns ensures ConnOk(h, me, t, c) {
      StepKeepsConn(h, me, s, a, c);
    }
  }

  lemma {:induction false} ExecKeepsInv(h: Hmac, me: Fingerprint, peers: map<Fingerprint, bool>, run: seq<Action>)
    ensures Inv(h, me, Exec(h, me, Start(peers), run))
  {
    if run != [] {
      ExecKeepsInv(h, me, peers, run[..|run| - 1]);
      StepKeepsInv(h, me, Exec(h, me, Start(peers), run[..|run| - 1]), run[|run| - 1]);
    }
  }

  // ---- Where trust comes from ----

  ghost function After(h: Hmac, me: Fingerprint, peers: map<Fingerprint, bool>, run: seq<Action>, n: nat): State
    requires n <= |run|
  {
    Exec(h, me, Start(peers), run[..n])
  }

  /** Connection `c` was greeted, with that nonce, before step `n`. */
  ghost predicate GreetedBefore(run: seq<Action>, n: nat, c: ConnId, tls: Fingerprint, nonce: Bytes)
    requires n <= |run|
  {
    exists l :: 0 <= l < n && run[l] == Hello(c, tls, nonce)
  }

  /** Two stages of a connection that rest on one key, nonce, window and proof. */
  predicate SameClaim(was: Conn, cur: Conn)
    requires HasProof(was) && HasProof(cur)
  {
    (was.tls, was.nonce, was.window, was.proof) == (cur.tls, cur.nonce, cur.window, cur.proof)
  }

  /** At step `i` connection `c` presented the correct proof, for its own key and nonce, of the token of
      the window then open. */
  ghost predicate ProvedAt(h: Hmac, me: Fingerprint, peers: map<Fingerprint, bool>, run: seq<Action>, i: nat,
                           c: ConnId, conn: Conn)
    requires i < |run| && HasProof(conn)
  {
    var s := After(h, me, peers, run, i);
    && run[i] == Prove(c, conn.proof) && At(s, c) == AwaitingProof(conn.tls, conn.nonce)
    && GreetedBefore(run, i, c, conn.tls, conn.nonce)
    && s.window.Some? && !Exhausted(s.window.value, s.now)
    && conn.window == |s.tokens| - 1
    && conn.proof == ComputeProof(h, s.window.value.token, me, conn.tls, conn.nonce)
  }

  ghost predicate ProvedBefore(h: Hmac, me: Fingerprint, peers: map<Fingerprint, bool>, run: seq<Action>, n: nat,
                               c: ConnId, conn: Conn)
    requires n <= |run| && HasProof(conn)
  {
    exists i :: 0 <= i < n && ProvedAt(h, me, peers, run, i, c, conn)
  }

  /** At step `j` an operator said yes to connection `c`, which was being asked about, with that key, nonce
      and proof, the proof having been checked before. */
  ghost predicate AgreedAt(h: Hmac, me: Fingerprint, peers: map<Fingerprint, bool>, run: seq<Action>, j: nat,
                           c: ConnId, conn: Conn)
    requires j < |run| && HasProof(conn)
  {
    var was := At(After(h, me, peers, run, j), c);
    && run[j] == Answer(c, true)
    && was.Asked? && SameClaim(was, conn)
    && ProvedBefore(h, me, peers, run, j, c, conn)
  }

  ghost predicate AgreedBefore(h: Hmac, me: Fingerprint, peers: map<Fingerprint, bool>, run: seq<Action>, n: nat,
                               c: ConnId, conn: Conn)
    requires n <= |run| && HasProof(conn)
  {
    exists j :: 0 <= j < n && AgreedAt(h, me, peers, run, j, c, conn)
  }

  /** The step that leads into each stage of a connection. */
  lemma LastStepOf(h: Hmac, me: Fingerprint, s: State, a: Action, c: ConnId)
    requires WindowOk(s)
    ensures var was, cur := At(s, c), At(Step(h, me, s, a), c);
            && (cur.AwaitingProof? ==> cur == was || a == Hello(c, cur.tls, cur.nonce))
            && (HasProof(cur) ==>
                  || (HasProof(was) && SameClaim(was, cur))
                  || (&& was == AwaitingProof(cur.tls, cur.nonce) && a == Prove(c, cur.proof)
                      && s.window.Some? && !Exhausted(s.window.value, s.now) && cur.window == |s.tokens| - 1
                      && cur.proof == ComputeProof(h, s.window.value.token, me, cur.tls, cur.nonce)))
            && (cur.Agreed? || cur.Paired? ==> was.Agreed? || was.Paired? || (was.Asked? && a == Answer(c, true)))
  {
  }

  /** Whatever stage a connection has reached, the run contains the steps that led there, in order. */
  lemma {:induction false} Origins(h: Hmac, me: Fingerprint, peers: map<Fingerprint, bool>, run: seq<Action>, n: nat,
                                   c: ConnId)
    requires n <= |run|
    ensures var conn := At(After(h, me, peers, run, n), c);
            && (conn.AwaitingProof? ==> GreetedBefore(run, n, c, conn.tls, conn.nonce))
            && (HasProof(conn) ==> ProvedBefore(h, me, peers, run, n, c, conn))
            && (conn.Agreed? || conn.Paired? ==> AgreedBefore(h, me, peers, run, n, c, conn))
  {
    if n > 0 {
      Origins(h, me, peers, run, n - 1, c);
      ExecKeepsInv(h, me, peers, run[..n - 1]);
      var s := After(h, me, peers, run, n - 1);
      assert run[..n][..n - 1] == run[..n - 1];
      LastStepOf(h, me, s, run[n - 1], c);
      var was, cur := At(s, c), At(After(h, me, peers, run, n), c);
      if HasProof(cur) {
        if HasProof(was) {
          SameClaims(h, me, peers, run, n - 1, c, was, cur);
        } else {
          assert ProvedAt(h, me, peers, run, n - 1, c, cur);
        }
        if (cur.Agreed? || cur.Paired?) && !(was.Agreed? || was.Paired?) {
          assert AgreedAt(h, me, peers, run, n - 1, c, cur);
        }
      }
    }
  }

  lemma SameClaims(h: Hmac, me: Fingerprint, peers: map<Fingerprint, bool>, run: seq<Action>, n: nat, c: ConnId,
                   was: Conn, cur: Conn)
    requires n <= |run| && HasProof(was) && HasProof(cur)
    requires SameClaim(was, cur)
    ensures ProvedBefore(h, me, peers, run, n, c, was) ==> ProvedBefore(h, me, peers, run, n, c, cur)
    ensures AgreedBefore(h, me, peers, run, n, c, was) ==> AgreedBefore(h, me, peers, run, n, c, cur)
  {
    forall i | 0 <= i < n ensures ProvedAt(h, me, peers, run, i, c, was) ==> ProvedAt(h, me, peers, run, i, c, cur) {
    }
    forall j | 0 <= j < n ensures AgreedAt(h, me, peers, run, j, c, was) ==> AgreedAt(h, me, peers, run, j, c, cur) {
      forall i | 0 <= i < j ensures ProvedAt(h, me, peers, run, i, c, was) ==> ProvedAt(h, me, peers, run, i, c, cur) {
      }
    }
  }

  /** Only storing a connection's key after an agreement makes a key trusted. */
  lemma StepThatTrusts(h: Hmac, me: Fingerprint, s: State, a: Action, f: Fingerprint)
    requires !TrustedIn(s, f) && TrustedIn(Step(h, me, s, a), f)
    ensures a.Store? && At(s, a.conn).Agreed? && At(s, a.conn).tls == f
  {
  }

  /** In every interleaving: a key becomes trusted only when a connection stores it that had itself been
      greeted with a nonce, then proved the open window's token for that very key and nonce, and then
      was agreed to by an operator. */
  lemma TrustNeedsProofAndConsent(h: Hmac, me: Fingerprint, peers: map<Fingerprint, bool>, run: seq<Action>, k: nat,
                                  f: Fingerprint)
    requires k < |run|
    requires !TrustedIn(After(h, me, peers, run, k), f) && TrustedIn(After(h, me, peers, run, k + 1), f)
    ensures run[k].Store?
    ensures var c := run[k].conn;
            var conn := At(After(h, me, peers, run, k), c);
            conn.Agreed? && conn.tls == f && AgreedBefore(h, me, peers, run, k, c, conn)
  {
    assert run[..k + 1][..k] == run[..k];
    var s := After(h, me, peers, run, k);
    assert After(h, me, peers, run, k + 1) == Step(h, me, s, run[k]);
    StepThatTrusts(h, me, s, run[k], f);
    Origins(h, me, peers, run, k, run[k].conn);
  }

  /** In every interleaving, between any two calls: each window has seen at most three wrong proofs, no two
      connections with an accepted proof share one, and a window still held is neither used up nor at the
      limit. */
  lemma WindowLimits(h: Hmac, me: Fingerprint, peers: map<Fingerprint, bool>, run: seq<Action>)
    ensures var s := Exec(h, me, Start(peers), run);
            && (forall id :: 0 <= id < |s.wrong| ==> s.wrong[id] <= MAX_FAILED_ATTEMPTS)
            && (s.window.Some? ==> !s.window.value.consumed && s.window.value.failed < MAX_FAILED_ATTEMPTS)
            && (forall c, d :: HasProof(At(s, c)) && HasProof(At(s, d)) && At(s, c).window == At(s, d).window ==>
                  c == d)
  {
    ExecKeepsInv(h, me, peers, run);
    var s := Exec(h, me, Start(peers), run);
    forall c, d | HasProof(At(s, c)) && HasProof(At(s, d)) && At(s, c).window == At(s, d).window ensures c == d {
      assert ConnOk(h, me, s, c) && ConnOk(h, me, s, d);
    }
  }

  /** A step that presents a proof to that window and has it accepted. */
  ghost predicate Accepts(h: Hmac, me: Fingerprint, s: State, a: Action, id: WindowId) {
    && a.Prove? && At(s, a.conn).AwaitingProof?
    && At(Step(h, me, s, a), a.conn).Proved? && At(Step(h, me, s, a), a.conn).window == id
  }

  lemma StepKeepsWinners(h: Hmac, me: Fingerprint, s: State, a: Action)
    ensures s.winner.Keys <= Step(h, me, s, a).winner.Keys
  {
  }

  lemma {:induction false} WinnersStay(h: Hmac, me: Fingerprint, peers: map<Fingerprint, bool>, run: seq<Action>,
                                       m: nat, n: nat)
    requires m <= n <= |run|
    ensures After(h, me, peers, run, m).winner.Keys <= After(h, me, peers, run, n).winner.Keys
    decreases n
  {
    if m < n {
      WinnersStay(h, me, peers, run, m, n - 1);
      assert run[..n][..n - 1] == run[..n - 1];
      StepKeepsWinners(h, me, After(h, me, peers, run, n - 1), run[n - 1]);
    }
  }

  /** An accepted proof spends a window no proof was accepted by before. */
  lemma AcceptanceSpends(h: Hmac, me: Fingerprint, s: State, a: Action, id: WindowId)
    requires WindowOk(s) && Accepts(h, me, s, a, id)
    ensures id !in s.winner && id in Step(h, me, s, a).winner
  {
  }

  lemma AfterNext(h: Hmac, me: Fingerprint, peers: map<Fingerprint, bool>, run: seq<Action>, k: nat)
    requires k < |run|
    ensures After(h, me, peers, run, k + 1) == Step(h, me, After(h, me, peers, run, k), run[k])
  {
    assert run[..k + 1][..k] == run[..k];
  }

  /** In every interleaving no window accepts two proofs, whatever has become of the connections since. */
  lemma OneProofPerWindow(h: Hmac, me: Fingerprint, peers: map<Fingerprint, bool>, run: seq<Action>, j: nat, k: nat,
                          id: WindowId, id': WindowId)
    requires j < k < |run|
    requires Accepts(h, me, After(h, me, peers, run, j), run[j], id)
            && Accepts(h, me, After(h, me, peers, run, k), run[k], id')
    ensures id != id'
  {
    ExecKeepsInv(h, me, peers, run[..j]);
    ExecKeepsInv(h, me, peers, run[..k]);
    AfterNext(h, me, peers, run, j);
    WinnersStay(h, me, peers, run, j + 1, k);
    SpentTwice(h, me, After(h, me, peers, run, j), run[j], After(h, me, peers, run, k), run[k], id, id');
  }

  lemma SpentTwice(h: Hmac, me: Fingerprint, s: State, a: Action, t: State, b: Action, id: WindowId, id': WindowId)
    requires WindowOk(s) && WindowOk(t) && Accepts(h, me, s, a, id) && Accepts(h, me, t, b, id')
    requires Step(h, me, s, a).winner.Keys <= t.winner.Keys
    ensures id != id'
  {
    AcceptanceSpends(h, me, s, a, id);
    AcceptanceSpends(h, me, t, b, id');
  }

  /** A connection that has paired or gone is through with pairing. */
  predicate Through(s: State, c: ConnId) {
    c in s.conns && (s.conns[c].Paired? || s.conns[c].Gone?)
  }

  lemma StepKeepsThrough(h: Hmac, me: Fingerprint, s: State, a: Action, c: ConnId)
    requires Through(s, c)
    ensures Through(Step(h, me, s, a), c)
  {
  }

  lemma {:induction false} ThroughStays(h: Hmac, me: Fingerprint, peers: map<Fingerprint, bool>, run: seq<Action>,
                                        m: nat, n: nat, c: ConnId)
    requires m <= n <= |run| && Through(After(h, me, peers, run, m), c)
    ensures Through(After(h, me, peers, run, n), c)
    decreases n
  {
    if m < n {
      ThroughStays(h, me, peers, run, m, n - 1, c);
      AfterNext(h, me, peers, run, n - 1);
      StepKeepsThrough(h, me, After(h, me, peers, run, n - 1), run[n - 1], c);
    }
  }

  lemma StoreIsThrough(h: Hmac, me: Fingerprint, s: State, a: Action)
    requires a.Store? && At(s, a.conn).Agreed?
    ensures Through(Step(h, me, s, a), a.conn)
  {
  }

  /** Whether or not its write fails, a connection stores at most once. */
  lemma StoresOnce(h: Hmac, me: Fingerprint, peers: map<Fingerprint, bool>, run: seq<Action>, j: nat, k: nat)
    requires j < k < |run| && run[j].Store? && run[k].Store?
    requires At(After(h, me, peers, run, j), run[j].conn).Agreed?
    requires At(After(h, me, peers, run, k), run[k].conn).Agreed?
    ensures run[j].conn != run[k].conn
  {
    AfterNext(h, me, peers, run, j);
    StoreIsThrough(h, me, After(h, me, peers, run, j), run[j]);
    ThroughStays(h, me, peers, run, j + 1, k, run[j].conn);
  }

  lemma CorrectProofIsAccepted(h: Hmac, me: Fingerprint, s: State, c: ConnId, conn: Conn)
    requires HasProof(conn) && WindowOk(s) && At(s, c) == AwaitingProof(conn.tls, conn.nonce)
    requires s.window.Some? && !Exhausted(s.window.value, s.now) && conn.window == |s.tokens| - 1
    requires conn.proof == ComputeProof(h, s.window.value.token, me, conn.tls, conn.nonce)
    ensures Accepts(h, me, s, Prove(c, conn.proof), conn.window)
  {
  }

  /** The step at which a connection's proof was accepted, by the window it spent. */
  lemma AcceptanceOf(h: Hmac, me: Fingerprint, peers: map<Fingerprint, bool>, run: seq<Action>, n: nat, c: ConnId)
    returns (i: nat)
    requires n <= |run| && HasProof(At(After(h, me, peers, run, n), c))
    ensures i < n && run[i].Prove? && run[i].conn == c
    ensures Accepts(h, me, After(h, me, peers, run, i), run[i], At(After(h, me, peers, run, n), c).window)
  {
    var conn := At(After(h, me, peers, run, n), c);
    Origins(h, me, peers, run, n, c);
    i :| 0 <= i < n && ProvedAt(h, me, peers, run, i, c, conn);
    ExecKeepsInv(h, me, peers, run[..i]);
    CorrectProofIsAccepted(h, me, After(h, me, peers, run, i), c, conn);
  }

  /** Two connections store: their proofs were accepted by two windows. */
  lemma StoresSpendDifferentWindows(h: Hmac, me: Fingerprint, peers: map<Fingerprint, bool>, run: seq<Action>, j: nat,
                                    k: nat)
    requires j < k < |run| && run[j].Store? && run[k].Store?
    requires At(After(h, me, peers, run, j), run[j].conn).Agreed?
    requires At(After(h, me, peers, run, k), run[k].conn).Agreed?
    ensures At(After(h, me, peers, run, j), run[j].conn).window != At(After(h, me, peers, run, k), run[k].conn).window
  {
    StoresOnce(h, me, peers, run, j, k);
    var w := At(After(h, me, peers, run, j), run[j].conn).window;
    var w' := At(After(h, me, peers, run, k), run[k].conn).window;
    var i := AcceptanceOf(h, me, peers, run, j, run[j].conn);
    var i' := AcceptanceOf(h, me, peers, run, k, run[k].conn);
    if i < i' {
      OneProofPerWindow(h, me, peers, run, i, i', w, w');
    } else {
      OneProofPerWindow(h, me, peers, run, i', i, w', w);
    }
  }

  /** One window, one device: two steps that make keys trusted always spend two different windows. */
  lemma OneDevicePerWindow(h: Hmac, me: Fingerprint, peers: map<Fingerprint, bool>, run: seq<Action>, j: nat, k: nat,
                           f: Fingerprint, g: Fingerprint)
    requires j < k < |run|
    requires !TrustedIn(After(h, me, peers, run, j), f) && TrustedIn(After(h, me, peers, run, j + 1), f)
    requires !TrustedIn(After(h, me, peers, run, k), g) && TrustedIn(After(h, me, peers, run, k + 1), g)
    ensures run[j].Store? && run[k].Store?
    ensures var c, d := At(After(h, me, peers, run, j), run[j].conn), At(After(h, me, peers, run, k), run[k].conn);
            c.Agreed? && d.Agreed? && c.window != d.window
  {
    TrustNeedsProofAndConsent(h, me, peers, run, j, f);
    TrustNeedsProofAndConsent(h, me, peers, run, k, g);
    StoresSpendDifferentWindows(h, me, peers, run, j, k);
  }

  /** The token holder succeeds: a live window accepts its own token's proof and answers with the
      confirmation the initiator expects. Of anything else made with the token, for whatever purpose, it
      accepts nothing, unless that message collides with the one expected. */
  lemma WindowAcceptsExactlyItsProof(h: Hmac, w: Window, me: Fingerprint, tls: Fingerprint, nonce: Bytes, now: Time,
                                     p: Purpose, server: Fingerprint, initiator: Fingerprint, challenge: Bytes)
    requires !Exhausted(w, now)
    requires TellsApart(h, w.token, Message(p, server, initiator, challenge), Message(PairingProof, me, tls, nonce))
    ensures Verify(w, h, me, tls, nonce, h(w.token, Message(p, server, initiator, challenge)), now).1.Ok?
            <==> p == PairingProof && server == me && initiator == tls && challenge == nonce
    ensures Verify(w, h, me, tls, nonce, ComputeProof(h, w.token, me, tls, nonce), now).1
         == Ok(ComputeConfirmation(h, w.token, me, tls, nonce))
  {
    TagBindsEverything(h, w.token, p, server, initiator, challenge, PairingProof, me, tls, nonce);
  }

  // ---- The handshake and the window together ----

  /** The handshake's world once the window has judged the proof that the initiator's request carries. */
  ghost function Judged(i: Handshake.Party, r: Handshake.Party, h: Hmac, w: Handshake.World, window: Window,
                        now: Time): Handshake.World {
    var a := Handshake.FirstAnswer(i, r, w);
    if !a.HelloPairing? then w else
    var read := Handshake.FirstReading(i, r, h, w, a.ack);
    if !read.AckPairing? || !read.request.body.PairRequest? then w
    else w.(verdict := Verify(window, h, r.fingerprint, i.fingerprint, w.nonce, read.request.body.proof, now).1)
  }

  /** A device that is not trusted greets a host whose window is open, and is sent a challenge. */
  ghost predicate Challenged(i: Handshake.Party, r: Handshake.Party, w: Handshake.World) {
    && Handshake.Honest(i) && Handshake.Honest(r)
    && (w.status.UnknownPeer? || (w.status.RevokedPeer? && w.openAtLookup))
    && w.openNow && |w.nonce| == Handshake.NONCE_LEN
  }

  /** The MAC of the message that proves knowledge of a token tells these two tokens apart. */
  ghost predicate TellsTokensApart(h: Hmac, k: Token, k': Token, me: Fingerprint, tls: Fingerprint, nonce: Bytes) {
    ComputeProof(h, k, me, tls, nonce) == ComputeProof(h, k', me, tls, nonce) ==> k == k'
  }

  ghost predicate NoCollision(i: Handshake.Party, r: Handshake.Party, h: Hmac, w: Handshake.World, window: Window) {
    w.token.Some? ==> TellsTokensApart(h, w.token.value, window.token, r.fingerprint, i.fingerprint, w.nonce)
  }

  /** What a window makes of a proof made with some token for this host, key and nonce. */
  lemma VerdictOnToken(h: Hmac, window: Window, token: Token, me: Fingerprint, tls: Fingerprint, nonce: Bytes,
                       now: Time)
    requires TellsTokensApart(h, token, window.token, me, tls, nonce)
    ensures var verdict := Verify(window, h, me, tls, nonce, ComputeProof(h, token, me, tls, nonce), now).1;
            && (verdict.Ok? <==> !Exhausted(window, now) && token == window.token)
            && (verdict.Ok? ==> verdict.value == ComputeConfirmation(h, token, me, tls, nonce))
  {
  }

  /** So, of the proof in the initiator's request. */
  lemma VerdictOnProof(i: Handshake.Party, r: Handshake.Party, h: Hmac, w: Handshake.World, window: Window, now: Time)
    requires NoCollision(i, r, h, w, window)
    requires var a := Handshake.FirstAnswer(i, r, w);
             a.HelloPairing? && Handshake.FirstReading(i, r, h, w, a.ack).AckPairing?
    ensures var verdict := Judged(i, r, h, w, window, now).verdict;
            && w.token.Some?
            && (verdict.Ok? <==> !Exhausted(window, now) && w.token.value == window.token)
            && (verdict.Ok? ==>
                  verdict.value == ComputeConfirmation(h, w.token.value, r.fingerprint, i.fingerprint, w.nonce))
  {
    var a := Handshake.FirstAnswer(i, r, w);
    Handshake.ChallengeIsNonce(i, r, w);
    Handshake.ProofSent(i, r, h, w, a.ack);
    VerdictOnToken(h, window, w.token.value, r.fingerprint, i.fingerprint, w.nonce, now);
  }

  lemma FinishedMeansAccepted(i: Handshake.Party, r: Handshake.Party, h: Hmac, w: Handshake.World)
    requires Challenged(i, r, w)
    ensures var e := Handshake.Run(i, r, h, w);
            && (e.initiator.Some? || e.responder.Some? ==>
                  && w.verdict.Ok? && w.confirmed && w.storedByResponder
                  && Handshake.FirstAnswer(i, r, w).HelloPairing?
                  && Handshake.FirstReading(i, r, h, w, Handshake.FirstAnswer(i, r, w).ack).AckPairing?)
            && (e.initiator.Some? ==> w.storedByInitiator)
  {
    var a := Handshake.FirstAnswer(i, r, w);
    Handshake.ChallengeIsNonce(i, r, w);
    if a.HelloPairing? {
      Handshake.PairedMeansAccepted(i, r, h, w, a);
    }
  }

  /** Mutual authentication: whichever end finishes pairing, the other held the same token, the window was
      live, and the operator said yes. */
  lemma FinishingNeedsOneToken(i: Handshake.Party, r: Handshake.Party, h: Hmac, w: Handshake.World, window: Window,
                               now: Time)
    requires Challenged(i, r, w) && NoCollision(i, r, h, w, window)
    ensures var e := Handshake.Run(i, r, h, Judged(i, r, h, w, window, now));
            e.initiator.Some? || e.responder.Some?
            ==> w.token == Some(window.token) && !Exhausted(window, now) && w.confirmed && w.storedByResponder
  {
    var judged := Judged(i, r, h, w, window, now);
    var a := Handshake.FirstAnswer(i, r, w);
    SameFirstSteps(i, r, h, w, judged);
    FinishedMeansAccepted(i, r, h, judged);
    if a.HelloPairing? && Handshake.FirstReading(i, r, h, w, a.ack).AckPairing? {
      VerdictOnProof(i, r, h, w, window, now);
    }
  }

  /** The verdict is asked for only after the first two messages. */
  lemma SameFirstSteps(i: Handshake.Party, r: Handshake.Party, h: Hmac, w: Handshake.World, v: Handshake.World)
    requires v == w.(verdict := v.verdict)
    ensures Handshake.FirstAnswer(i, r, v) == Handshake.FirstAnswer(i, r, w)
    ensures forall ack :: Handshake.FirstReading(i, r, h, v, ack) == Handshake.FirstReading(i, r, h, w, ack)
  {
  }

  /** Handshake and window together: both ends finish exactly when the builds share a version, the four
      random ids are usable, the initiator holds the window's token, the window is live, the operator says
      yes and both ends can store the other. */
  lemma PairingCompletesExactly(i: Handshake.Party, r: Handshake.Party, h: Hmac, w: Handshake.World, window: Window,
                                now: Time)
    requires Challenged(i, r, w) && NoCollision(i, r, h, w, window)
    ensures var e := Handshake.Run(i, r, h, Judged(i, r, h, w, window, now));
            e.initiator.Some? && e.responder.Some?
            <==> && Handshake.NegotiateVersion(i.build, r.build.minVersion, r.build.maxVersion).Some?
                 && |w.helloId| == 16 && |w.ackId| == 16 && |w.requestId| == 16 && |w.responseId| == 16
                 && w.helloId != w.requestId && w.ackId != w.responseId
                 && w.token == Some(window.token) && !Exhausted(window, now)
                 && w.confirmed && w.storedByResponder && w.storedByInitiator
  {
    var judged := Judged(i, r, h, w, window, now);
    SameFirstSteps(i, r, h, w, judged);
    FinishingNeedsOneToken(i, r, h, w, window, now);
    FinishedMeansAccepted(i, r, h, judged);
    if w.token == Some(window.token) && !Exhausted(window, now) && w.confirmed && w.storedByResponder
      && w.storedByInitiator {
      AcceptedCompletes(i, r, h, w, window, now);
    }
  }

  lemma AcceptedCompletes(i: Handshake.Party, r: Handshake.Party, h: Hmac, w: Handshake.World, window: Window,
                          now: Time)
    requires Challenged(i, r, w) && NoCollision(i, r, h, w, window)
    requires w.token == Some(window.token) && !Exhausted(window, now) && w.confirmed && w.storedByResponder
            && w.storedByInitiator
    ensures var e := Handshake.Run(i, r, h, Judged(i, r, h, w, window, now));
            e.initiator.Some? && e.responder.Some?
            <==> && Handshake.NegotiateVersion(i.build, r.build.minVersion, r.build.maxVersion).Some?
                 && |w.helloId| == 16 && |w.ackId| == 16 && |w.requestId| == 16 && |w.responseId| == 16
                 && w.helloId != w.requestId && w.ackId != w.responseId
  {
    var judged := Judged(i, r, h, w, window, now);
    var accepted := w.(verdict := Ok(ComputeConfirmation(h, window.token, r.fingerprint, i.fingerprint, w.nonce)));
    SameFirstSteps(i, r, h, w, judged);
    SameFirstSteps(i, r, h, w, accepted);
    Handshake.PairingHandshakeCompletes(i, r, h, accepted);
    var a := Handshake.FirstAnswer(i, r, w);
    if a.HelloPairing? && Handshake.FirstReading(i, r, h, w, a.ack).AckPairing? {
      VerdictOnProof(i, r, h, w, window, now);
      assert judged == accepted;
    } else {
      NoReadingNoFinish(i, r, h, judged);
      NoReadingNoFinish(i, r, h, accepted);
    }
  }

  lemma NoReadingNoFinish(i: Handshake.Party, r: Handshake.Party, h: Hmac, w: Handshake.World)
    requires Challenged(i, r, w)
    requires var a := Handshake.FirstAnswer(i, r, w);
             !(a.HelloPairing? && Handshake.FirstReading(i, r, h, w, a.ack).AckPairing?)
    ensures Handshake.Run(i, r, h, w) == Handshake.Ended(None, None)
  {
    FinishedMeansAccepted(i, r, h, w);
  }
}
