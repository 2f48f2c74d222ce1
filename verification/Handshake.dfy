/** Both halves of the session handshake, and what two honest ends agree on when it completes. */
module Handshake {
  import opened Base
  import opened Wire
  import opened Replay
  import opened Capability
  import opened Encoding
  import opened Mac

  const NONCE_LEN: nat := 32

  /** The protocol versions a build speaks. */
  datatype Build = Build(minVersion: nat, maxVersion: nat)

  datatype Party = Party(build: Build, device: DeviceInfo, fingerprint: Fingerprint, capabilities: seq<string>)

  /** A device that reports its own key and lists its capabilities in order. */
  ghost predicate Honest(p: Party) {
    && p.device.identityFingerprint == FingerprintToHex(p.fingerprint)
    && p.build.minVersion <= p.build.maxVersion
    && StrictlySorted(p.capabilities)
  }

  datatype PeerStatus =
    | TrustedPeer(deviceId: string, deviceName: string, granted: seq<string>)
    | UnknownPeer
    | RevokedPeer

  datatype PairingError = WindowClosed | WindowUsed | WindowExpired | TooManyAttempts | BadProof | Declined

  datatype Failure =
    | Replayed
    | UnexpectedBody
    | NoDeviceInfo
    | MalformedFingerprint
    | FingerprintMismatch
    | NoCommonVersion
    | NotAuthorized
    | VersionChanged
    | NotStored
    | Pairing(why: PairingError)

  datatype Established = Established(peer: Fingerprint, device: DeviceInfo, capabilities: seq<string>, version: nat)

  /** One end's sequence state: its factory, and the history its replay guard stands for. */
  datatype Link = Link(factory: Factory, admitted: seq<Envelope>)

  function NegotiateVersion(own: Build, peerMin: nat, peerMax: nat): Option<nat> {
    var chosen := if peerMax < own.maxVersion then peerMax else own.maxVersion;
    var floor := if peerMin > own.minVersion then peerMin else own.minVersion;
    if chosen >= floor then Some(chosen) else None
  }

  predicate Speaks(b: Build, v: nat) {
    b.minVersion <= v <= b.maxVersion
  }

  /** A version is chosen exactly when one is common, and it is the highest. */
  lemma HighestCommonVersion(own: Build, peer: Build)
    ensures NegotiateVersion(own, peer.minVersion, peer.maxVersion).Some?
            <==> exists v: nat :: Speaks(own, v) && Speaks(peer, v)
    ensures NegotiateVersion(own, peer.minVersion, peer.maxVersion)
            == NegotiateVersion(peer, own.minVersion, own.maxVersion)
    ensures forall v: nat :: NegotiateVersion(own, peer.minVersion, peer.maxVersion) == Some(v) ==>
              Speaks(own, v) && Speaks(peer, v) && forall u: nat :: Speaks(own, u) && Speaks(peer, u) ==> u <= v
  {
    var r := NegotiateVersion(own, peer.minVersion, peer.maxVersion);
    if r.Some? {
      assert Speaks(own, r.value) && Speaks(peer, r.value);
    }
  }

  function Intersect(mutual: seq<string>, granted: seq<string>): seq<string> {
    Filter(mutual, (c: string) => c in granted)
  }

  // ---- Responder ----

  datatype HelloOutcome =
    | HelloFailed(error: Failure, reply: Option<Envelope>)
    | HelloTrusted(ack: Envelope, established: Established, link: Link)
    | HelloPairing(ack: Envelope, link: Link, device: DeviceInfo, capabilities: seq<string>, version: nat)

  /** The responder's answer to the first message. `tls` is the fingerprint of the key the peer
      authenticated with; `openAtLookup` and `openNow` are the two looks at the pairing window. */
  ghost function AcceptHello(r: Party, tls: Fingerprint, env: Envelope, status: PeerStatus,
                             openAtLookup: bool, openNow: bool, nonce: Bytes, id: Bytes): HelloOutcome
  {
    if !Fresh([], env) then HelloFailed(Replayed, None)
    else if !env.body.Hello? then HelloFailed(UnexpectedBody, None)
    else if env.body.device.None? then HelloFailed(NoDeviceInfo, None)
    else
      var device := env.body.device.value;
      var claimed := FingerprintFromHex(device.identityFingerprint);
      if claimed.None? then HelloFailed(MalformedFingerprint, None)
      else if claimed.value != tls then HelloFailed(FingerprintMismatch, None)
      else
        match NegotiateVersion(r.build, env.body.minVersion, env.body.maxVersion)
        case None =>
          HelloFailed(NoCommonVersion, Some(Stamp(Factory(r.build.maxVersion, 0), id, env.messageId,
                                                  HelloAck(Some(r.device), VersionUnsupported, 0, [], [])).1))
        case Some(version) =>
          var factory := Factory(version, 0);
          match status
          case TrustedPeer(deviceId, deviceName, granted) =>
            var (f, ack) := Stamp(factory, id, env.messageId,
              HelloAck(Some(r.device), Trusted, version, r.capabilities, []));
            HelloTrusted(ack,
                         Established(tls, device.(deviceId := deviceId, deviceName := deviceName),
                                     Intersect(Mutual(r.capabilities, env.body.capabilities), granted), version),
                         Link(f, [env]))
          case _ =>
            if status.RevokedPeer? && !openAtLookup then
              HelloFailed(NotAuthorized, Some(Stamp(factory, id, env.messageId,
                                                    HelloAck(Some(r.device), Rejected, version, [], [])).1))
            else
              var (f, ack) := Stamp(factory, id, env.messageId,
                                    HelloAck(Some(r.device), PairingRequired, version, r.capabilities,
                                             if openNow then nonce else []));
              if !openNow then HelloFailed(Pairing(WindowClosed), Some(ack))
              else HelloPairing(ack, Link(f, [env]), device, env.body.capabilities, version)
  }

  datatype PairOutcome =
    | PairFailed(error: Failure, reply: Option<Envelope>)
    | PairEstablished(response: Envelope, established: Established, link: Link)

  function PairStatusOf(e: PairingError): PairStatus {
    match e
    case WindowClosed => NotInPairingMode
    case TooManyAttempts => RateLimited
    case _ => PairRejected
  }

  /** The responder's answer to a pairing request. `verdict` is the window's answer to the proof,
      `confirmed` the operator's, `stored` whether the trust store accepted the peer, and `granted`
      what it then grants. */
  ghost function AcceptPairing(r: Party, hello: HelloOutcome, tls: Fingerprint, env: Envelope,
                               verdict: Result<Bytes, PairingError>, confirmed: bool, stored: bool,
                               granted: seq<string>, id: Bytes): PairOutcome
    requires hello.HelloPairing?
  {
    if !Fresh(hello.link.admitted, env) then PairFailed(Replayed, None)
    else if env.protocolVersion != hello.version then PairFailed(VersionChanged, None)
    else if !env.body.PairRequest? then PairFailed(UnexpectedBody, None)
    else if verdict.Err? then
      PairFailed(Pairing(verdict.error),
                 Some(Stamp(hello.link.factory, id, env.messageId, PairResponse(PairStatusOf(verdict.error), [])).1))
    else if !confirmed then
      PairFailed(Pairing(Declined), Some(Stamp(hello.link.factory, id, env.messageId,
        PairResponse(DeclinedByUser, [])).1))
    else if !stored then PairFailed(NotStored, None)
    else
      var (f, response) := Stamp(hello.link.factory, id, env.messageId, PairResponse(Accepted, verdict.value));
      PairEstablished(response,
                      Established(tls, hello.device, Intersect(Mutual(r.capabilities, hello.capabilities), granted),
                        hello.version),
                      Link(f, hello.link.admitted + [env]))
  }

  // ---- Initiator ----

  function SayHello(i: Party, id: Bytes): (Link, Envelope) {
    var (f, env) := Stamp(Factory(i.build.maxVersion, 0), id, [],
                          Hello(Some(i.device), i.build.minVersion, i.build.maxVersion, i.capabilities));
    (Link(f, []), env)
  }

  datatype AckOutcome =
    | AckFailed(error: Failure)
    | AckEstablished(established: Established, link: Link)
    | AckPairingRequired
    | AckPairing(request: Envelope, link: Link, remote: DeviceInfo, capabilities: seq<string>, version: nat,
      nonce: Bytes)

  /** The initiator's reading of the acknowledgement; with a token in hand it answers a pairing demand. */
  ghost function ReadAck(i: Party, link: Link, server: Fingerprint, token: Option<Token>, h: Hmac, env: Envelope,
                         id: Bytes): AckOutcome
  {
    if !Fresh(link.admitted, env) then AckFailed(Replayed)
    else if !env.body.HelloAck? then AckFailed(UnexpectedBody)
    else if env.body.device.None? then AckFailed(NoDeviceInfo)
    else
      var ack := env.body;
      var claimed := FingerprintFromHex(ack.device.value.identityFingerprint);
      var admitted := link.admitted + [env];
      if claimed.None? then AckFailed(MalformedFingerprint)
      else if claimed.value != server then AckFailed(FingerprintMismatch)
      else
        match ack.status
        case VersionUnsupported => AckFailed(NoCommonVersion)
        case Rejected => AckFailed(NotAuthorized)
        case UnspecifiedHello => AckFailed(UnexpectedBody)
        case Trusted =>
          if !Speaks(i.build, ack.version) then AckFailed(NoCommonVersion)
          else AckEstablished(Established(server, ack.device.value, Mutual(i.capabilities, ack.capabilities),
            ack.version),
                              Link(link.factory.(protocolVersion := ack.version), admitted))
        case PairingRequired =>
          if token.None? then AckPairingRequired
          else if |ack.pairingNonce| != NONCE_LEN then AckFailed(Pairing(WindowClosed))
          else if !Speaks(i.build, ack.version) then AckFailed(NoCommonVersion)
          else
            var proof := ComputeProof(h, token.value, server, i.fingerprint, ack.pairingNonce);
            var (f, request) := Stamp(link.factory.(protocolVersion := ack.version), id, [], PairRequest(proof));
            AckPairing(request, Link(f, admitted), ack.device.value, ack.capabilities, ack.version, ack.pairingNonce)
  }

  datatype ResponseOutcome =
    | ResponseFailed(error: Failure)
    | ResponseEstablished(established: Established, link: Link)

  /** The initiator's reading of the pairing response: accepted only with the responder's own proof
      that it holds the token. */
  ghost function ReadResponse(i: Party, ack: AckOutcome, server: Fingerprint, token: Token, h: Hmac, env: Envelope,
                              stored: bool): ResponseOutcome
    requires ack.AckPairing?
  {
    if !Fresh(ack.link.admitted, env) then ResponseFailed(Replayed)
    else if !env.body.PairResponse? then ResponseFailed(UnexpectedBody)
    else if env.body.pairStatus != Accepted then
      ResponseFailed(Pairing(match env.body.pairStatus
                             case DeclinedByUser => Declined
                             case NotInPairingMode => WindowClosed
                             case RateLimited => TooManyAttempts
                             case _ => BadProof))
    else if env.body.confirmation != ComputeConfirmation(h, token, server, i.fingerprint, ack.nonce) then
      ResponseFailed(Pairing(BadProof))
    else if !stored then ResponseFailed(NotStored)
    else
      ResponseEstablished(Established(server, ack.remote, Mutual(i.capabilities, ack.capabilities), ack.version),
                          Link(ack.link.factory, ack.link.admitted + [env]))
  }

  // ---- Both ends, over a channel that delivers what was sent ----

  /** Everything the two ends do not decide themselves: random ids and nonce, the trust store's
      answers, the window's verdict and the operator's. */
  datatype World = World(
    helloId: Bytes, ackId: Bytes, requestId: Bytes, responseId: Bytes, nonce: Bytes,
    status: PeerStatus, openAtLookup: bool, openNow: bool,
    verdict: Result<Bytes, PairingError>, confirmed: bool, granted: seq<string>,
    storedByResponder: bool, storedByInitiator: bool, token: Option<Token>)

  datatype Ended = Ended(initiator: Option<(Established, Link)>, responder: Option<(Established, Link)>)

  ghost function FirstAnswer(i: Party, r: Party, w: World): HelloOutcome {
    AcceptHello(r, i.fingerprint, SayHello(i, w.helloId).1, w.status, w.openAtLookup, w.openNow, w.nonce, w.ackId)
  }

  ghost function FirstReading(i: Party, r: Party, h: Hmac, w: World, ack: Envelope): AckOutcome {
    ReadAck(i, SayHello(i, w.helloId).0, r.fingerprint, w.token, h, ack, w.requestId)
  }

  ghost function FinishTrusted(i: Party, r: Party, h: Hmac, w: World, a: HelloOutcome): Ended
    requires a.HelloTrusted?
  {
    var read := FirstReading(i, r, h, w, a.ack);
    Ended(if read.AckEstablished? then Some((read.established, read.link)) else None, Some((a.established, a.link)))
  }

  ghost function FinishPairing(i: Party, r: Party, h: Hmac, w: World, a: HelloOutcome): Ended
    requires a.HelloPairing?
  {
    var read := FirstReading(i, r, h, w, a.ack);
    if !read.AckPairing? || w.token.None? then Ended(None, None) else
    var p := AcceptPairing(r, a, i.fingerprint, read.request, w.verdict, w.confirmed, w.storedByResponder, w.granted,
      w.responseId);
    if p.PairFailed? then Ended(None, None) else
    var done := ReadResponse(i, read, r.fingerprint, w.token.value, h, p.response, w.storedByInitiator);
    Ended(if done.ResponseEstablished? then Some((done.established, done.link)) else None,
          Some((p.established, p.link)))
  }

  ghost function Run(i: Party, r: Party, h: Hmac, w: World): Ended {
    var a := FirstAnswer(i, r, w);
    match a
    case HelloFailed(_, _) => Ended(None, None)
    case HelloTrusted(_, _, _) => FinishTrusted(i, r, h, w, a)
    case HelloPairing(_, _, _, _, _) => FinishPairing(i, r, h, w, a)
  }

  /** `from` will be understood by `to`: it stamps the agreed version, and its next sequence number is
      the one after the last that `to` admitted. */
  ghost predicate InStep(from: Link, to: Link, version: nat) {
    && from.factory.protocolVersion == version
    && from.factory.sequence == LastSequence(to.admitted)
    && Admissible(to.admitted)
  }

  lemma FreshIsAdmissible(log: seq<Envelope>, e: Envelope)
    requires Admissible(log) && Fresh(log, e)
    ensures Admissible(log + [e]) && LastSequence(log + [e]) == e.sequence
  {
    AdmissibleSnoc(log, e);
  }

  lemma IntersectWithin(mutual: seq<string>, granted: seq<string>)
    ensures forall c :: c in Intersect(mutual, granted) <==> c in mutual && c in granted
  {
    forall c ensures c in Intersect(mutual, granted) <==> c in mutual && c in granted {
      FilterMember(mutual, (x: string) => x in granted, c);
    }
  }

  /** What two finished ends share: the highest common version, each other's key, a capability list on
      the responder within the initiator's (the sorted intersection of what the two implement), and
      sequence numbers in step in both directions. */
  ghost predicate Agree(i: Party, r: Party, ei: Established, li: Link, er: Established, lr: Link) {
    && ei.version == er.version
    && NegotiateVersion(i.build, r.build.minVersion, r.build.maxVersion) == Some(ei.version)
    && ei.peer == r.fingerprint && er.peer == i.fingerprint
    && ei.capabilities == Mutual(i.capabilities, r.capabilities)
    && (forall c :: c in er.capabilities ==> c in ei.capabilities)
    && InStep(li, lr, ei.version) && InStep(lr, li, ei.version)
  }

  lemma FirstAdmissible(e: Envelope)
    requires Fresh([], e)
    ensures Admissible([e]) && LastSequence([e]) == e.sequence
  {
    FreshIsAdmissible([], e);
    assert [] + [e] == [e];
  }

  /** What the responder's first answer says, when it goes on: the acknowledgement is its first frame,
      it has admitted exactly the HELLO, and the version is the highest common one. */
  ghost predicate Answered(i: Party, r: Party, ack: Envelope, link: Link, version: nat, status: HelloStatus) {
    && NegotiateVersion(i.build, r.build.minVersion, r.build.maxVersion) == Some(version)
    && link.factory == Factory(version, 1)
    && Admissible(link.admitted) && LastSequence(link.admitted) == 1
    && ack.sequence == 1
    && ack.body.HelloAck? && ack.body.status == status && ack.body.version == version
    && ack.body.device == Some(r.device) && ack.body.capabilities == r.capabilities
  }

  lemma AnswerFacts(i: Party, r: Party, w: World)
    requires Honest(i) && Honest(r)
    ensures var a := FirstAnswer(i, r, w);
            && (a.HelloTrusted? ==>
                  && Answered(i, r, a.ack, a.link, a.established.version, Trusted)
                  && w.status.TrustedPeer? && a.established.peer == i.fingerprint
                  && a.established.capabilities == Intersect(Mutual(r.capabilities, i.capabilities), w.status.granted))
            && (a.HelloPairing? ==>
                  && Answered(i, r, a.ack, a.link, a.version, PairingRequired)
                  && a.capabilities == i.capabilities)
  {
    HexRoundTrip(i.fingerprint);
    HighestCommonVersion(i.build, r.build);
    var hello := SayHello(i, w.helloId).1;
    if Fresh([], hello) {
      FirstAdmissible(hello);
    }
  }

  lemma TrustedAgree(i: Party, r: Party, h: Hmac, w: World, a: HelloOutcome)
    requires a.HelloTrusted? && Answered(i, r, a.ack, a.link, a.established.version, Trusted)
    requires w.status.TrustedPeer? && a.established.peer == i.fingerprint
    requires a.established.capabilities == Intersect(Mutual(r.capabilities, i.capabilities), w.status.granted)
    requires FirstReading(i, r, h, w, a.ack).AckEstablished?
    ensures var read := FirstReading(i, r, h, w, a.ack);
            Agree(i, r, read.established, read.link, a.established, a.link)
  {
    FirstAdmissible(a.ack);
    assert FirstReading(i, r, h, w, a.ack).link.admitted == [a.ack];
    MutualSymmetric(i.capabilities, r.capabilities);
    IntersectWithin(Mutual(r.capabilities, i.capabilities), w.status.granted);
  }

  lemma ReadingFacts(i: Party, r: Party, h: Hmac, w: World, a: HelloOutcome)
    requires a.HelloPairing? && Answered(i, r, a.ack, a.link, a.version, PairingRequired)
    requires FirstReading(i, r, h, w, a.ack).AckPairing?
    ensures var read := FirstReading(i, r, h, w, a.ack);
            && read.version == a.version && read.capabilities == r.capabilities
            && read.link == Link(Factory(a.version, 2), [a.ack])
            && read.request.sequence == 2
            && Admissible([a.ack]) && LastSequence([a.ack]) == 1
  {
    FirstAdmissible(a.ack);
    assert [] + [a.ack] == [a.ack];
  }

  lemma PairedAgree(i: Party, r: Party, h: Hmac, w: World, a: HelloOutcome, read: AckOutcome, p: PairOutcome,
                    done: ResponseOutcome)
    requires a.HelloPairing? && Answered(i, r, a.ack, a.link, a.version, PairingRequired)
            && a.capabilities == i.capabilities
    requires read.AckPairing? && read.version == a.version && read.capabilities == r.capabilities
            && read.request.sequence == 2
    requires read.link == Link(Factory(a.version, 2), [a.ack]) && Admissible([a.ack]) && LastSequence([a.ack]) == 1
    requires w.token.Some?
    requires p == AcceptPairing(r, a, i.fingerprint, read.request, w.verdict, w.confirmed, w.storedByResponder,
            w.granted, w.responseId)
    requires p.PairEstablished?
    requires done == ReadResponse(i, read, r.fingerprint, w.token.value, h, p.response, w.storedByInitiator)
    requires done.ResponseEstablished?
    ensures Agree(i, r, done.established, done.link, p.established, p.link)
  {
    FreshIsAdmissible(a.link.admitted, read.request);
    FreshIsAdmissible(read.link.admitted, p.response);
    MutualSymmetric(i.capabilities, r.capabilities);
    IntersectWithin(Mutual(r.capabilities, i.capabilities), w.granted);
  }

  /** Whenever both ends finish, they agree. */
  lemma EstablishedAgree(i: Party, r: Party, h: Hmac, w: World)
    requires Honest(i) && Honest(r)
    requires Run(i, r, h, w).initiator.Some? && Run(i, r, h, w).responder.Some?
    ensures var e := Run(i, r, h, w);
            Agree(i, r, e.initiator.value.0, e.initiator.value.1, e.responder.value.0, e.responder.value.1)
  {
    AnswerFacts(i, r, w);
    var a := FirstAnswer(i, r, w);
    var read := FirstReading(i, r, h, w, a.ack);
    if a.HelloTrusted? {
      TrustedAgree(i, r, h, w, a);
    } else {
      ReadingFacts(i, r, h, w, a);
      var p := AcceptPairing(r, a, i.fingerprint, read.request, w.verdict, w.confirmed, w.storedByResponder,
        w.granted, w.responseId);
      var done := ReadResponse(i, read, r.fingerprint, w.token.value, h, p.response, w.storedByInitiator);
      PairedAgree(i, r, h, w, a, read, p, done);
    }
  }

  // ---- After the handshake ----

  datatype Outgoing = Outgoing(id: Bytes, correlation: Bytes, body: Body)

  /** The frames one end writes, stamped in order. */
  function SendAll(f: Factory, out: seq<Outgoing>): (envs: seq<Envelope>)
    ensures |envs| == |out|
    decreases |out|
  {
    if out == [] then []
    else var (g, e) := Stamp(f, out[0].id, out[0].correlation, out[0].body); [e] + SendAll(g, out[1..])
  }

  /** The other end's reading of them: the history grows by every frame, or the session ends at the
      first frame of another version or one its replay guard refuses. */
  ghost function ReceiveAll(version: nat, log: seq<Envelope>, envs: seq<Envelope>): Option<seq<Envelope>>
    decreases |envs|
  {
    if envs == [] then Some(log)
    else if envs[0].protocolVersion != version || !Fresh(log, envs[0]) then None
    else ReceiveAll(version, log + [envs[0]], envs[1..])
  }

  /** Every id is sixteen bytes and differs from the 1024 before it, counting what the receiver has
      already admitted. */
  ghost predicate IdsUsable(window: seq<Bytes>, out: seq<Outgoing>)
    decreases |out|
  {
    out == [] || (&& |out[0].id| == 16
                  && out[0].id !in LastN(window, DEDUP_WINDOW)
                  && IdsUsable(window + [out[0].id], out[1..]))
  }

  lemma NextFrame(f: Factory, log: seq<Envelope>, o: Outgoing)
    requires Admissible(log) && f.sequence == LastSequence(log)
    ensures var e := Stamp(f, o.id, o.correlation, o.body).1;
            && (Fresh(log, e) <==> |o.id| == 16 && o.id !in LastN(Ids(log), DEDUP_WINDOW))
            && (Fresh(log, e) ==> Admissible(log + [e]) && LastSequence(log + [e]) == f.sequence + 1)
            && Ids(log + [e]) == Ids(log) + [o.id]
  {
    var e := Stamp(f, o.id, o.correlation, o.body).1;
    forall k | 0 <= k < |log| ensures log[k].sequence < e.sequence {
      if k < |log| - 1 { AdmissibleIncreases(log, k, |log| - 1); }
    }
    if Fresh(log, e) {
      FreshIsAdmissible(log, e);
    }
  }

  lemma {:induction false} InStepFramesPass(f: Factory, log: seq<Envelope>, out: seq<Outgoing>)
    requires Admissible(log) && f.sequence == LastSequence(log)
    ensures ReceiveAll(f.protocolVersion, log, SendAll(f, out))
         == if IdsUsable(Ids(log), out) then Some(log + SendAll(f, out)) else None
    decreases |out|
  {
    if out == [] {
      assert log + [] == log;
    } else {
      NextFrame(f, log, out[0]);
      var (g, e) := Stamp(f, out[0].id, out[0].correlation, out[0].body);
      var envs := SendAll(f, out);
      assert envs[0] == e && envs[1..] == SendAll(g, out[1..]);
      if Fresh(log, e) {
        InStepFramesPass(g, log + [e], out[1..]);
        assert log + [e] + SendAll(g, out[1..]) == log + envs;
      }
    }
  }

  /** From establishment on, every frame either end writes passes the other's version check and replay
      guard, if and only if its ids are sixteen bytes and distinct within the window. */
  lemma LaterFramesPass(i: Party, r: Party, h: Hmac, w: World, fromI: seq<Outgoing>, fromR: seq<Outgoing>)
    requires Honest(i) && Honest(r)
    requires Run(i, r, h, w).initiator.Some? && Run(i, r, h, w).responder.Some?
    ensures var e := Run(i, r, h, w);
            var (ei, li) := e.initiator.value;
            var (er, lr) := e.responder.value;
            && (ReceiveAll(er.version, lr.admitted, SendAll(li.factory, fromI)).Some?
                <==> IdsUsable(Ids(lr.admitted), fromI))
            && (ReceiveAll(ei.version, li.admitted, SendAll(lr.factory, fromR)).Some?
                <==> IdsUsable(Ids(li.admitted), fromR))
  {
    EstablishedAgree(i, r, h, w);
    var e := Run(i, r, h, w);
    InStepFramesPass(e.initiator.value.1.factory, e.responder.value.1.admitted, fromI);
    InStepFramesPass(e.responder.value.1.factory, e.initiator.value.1.admitted, fromR);
  }

  // ---- When the handshake completes ----

  /** A trusted device and the host both finish exactly when the two builds share a version and both
      random ids are sixteen bytes. */
  lemma TrustedHandshakeCompletes(i: Party, r: Party, h: Hmac, w: World)
    requires Honest(i) && Honest(r) && w.status.TrustedPeer?
    ensures Run(i, r, h, w).initiator.Some? && Run(i, r, h, w).responder.Some?
            <==> && NegotiateVersion(i.build, r.build.minVersion, r.build.maxVersion).Some?
                 && |w.helloId| == 16 && |w.ackId| == 16
  {
    HexRoundTrip(i.fingerprint);
    HexRoundTrip(r.fingerprint);
    HighestCommonVersion(i.build, r.build);
    AnswerFacts(i, r, w);
  }

  lemma OneMoreFresh(first: Envelope, next: Envelope)
    requires first.sequence < next.sequence
    ensures Fresh([first], next) <==> |next.messageId| == 16 && next.messageId != first.messageId
  {
    assert Ids([first]) == [first.messageId];
  }

  /** A stranger (or a revoked device) holding the window's token, with a fresh nonce, a willing
      operator and working stores: both ends finish exactly when the builds share a version and the
      four random ids are sixteen bytes and not repeated in one direction. */
  lemma PairingHandshakeCompletes(i: Party, r: Party, h: Hmac, w: World)
    requires Honest(i) && Honest(r)
    requires w.status.UnknownPeer? || (w.status.RevokedPeer? && w.openAtLookup)
    requires w.openNow && |w.nonce| == NONCE_LEN && w.token.Some?
    requires w.verdict == Ok(ComputeConfirmation(h, w.token.value, r.fingerprint, i.fingerprint, w.nonce))
    requires w.confirmed && w.storedByResponder && w.storedByInitiator
    ensures Run(i, r, h, w).initiator.Some? && Run(i, r, h, w).responder.Some?
            <==> && NegotiateVersion(i.build, r.build.minVersion, r.build.maxVersion).Some?
                 && |w.helloId| == 16 && |w.ackId| == 16 && |w.requestId| == 16 && |w.responseId| == 16
                 && w.helloId != w.requestId && w.ackId != w.responseId
  {
    HexRoundTrip(i.fingerprint);
    HexRoundTrip(r.fingerprint);
    HighestCommonVersion(i.build, r.build);
    var a := FirstAnswer(i, r, w);
    if a.HelloPairing? {
      AnswerFacts(i, r, w);
      PairingFinishes(i, r, h, w, a);
    }
  }

  /** The challenge in the acknowledgement is the nonce drawn for this connection, and a device that is
      not trusted gets no further without pairing. */
  lemma ChallengeIsNonce(i: Party, r: Party, w: World)
    ensures var a := FirstAnswer(i, r, w);
            && (a.HelloPairing? ==> a.ack.body.HelloAck? && a.ack.body.pairingNonce == w.nonce)
            && (a.HelloTrusted? ==> w.status.TrustedPeer?)
  {
  }

  /** What the initiator then sends. */
  lemma ProofSent(i: Party, r: Party, h: Hmac, w: World, ack: Envelope)
    requires FirstReading(i, r, h, w, ack).AckPairing?
    ensures w.token.Some? && ack.body.HelloAck?
    ensures FirstReading(i, r, h, w, ack).request.body
         == PairRequest(ComputeProof(h, w.token.value, r.fingerprint, i.fingerprint, ack.body.pairingNonce))
  {
  }

  /** Neither end finishes pairing unless the window accepts, the operator agrees and the host can store
      the key; nor the initiator unless it can store the host's. */
  lemma PairedMeansAccepted(i: Party, r: Party, h: Hmac, w: World, a: HelloOutcome)
    requires a.HelloPairing?
    ensures var e := FinishPairing(i, r, h, w, a);
            && (e.initiator.Some? || e.responder.Some? ==>
                  w.verdict.Ok? && w.confirmed && w.storedByResponder && FirstReading(i, r, h, w, a.ack).AckPairing?)
            && (e.initiator.Some? ==> w.storedByInitiator)
  {
  }

  lemma PairingFinishes(i: Party, r: Party, h: Hmac, w: World, a: HelloOutcome)
    requires Honest(i) && Honest(r)
    requires a.HelloPairing? && Answered(i, r, a.ack, a.link, a.version, PairingRequired)
    requires a.link.admitted == [SayHello(i, w.helloId).1] && a.ack.messageId == w.ackId
            && a.ack.body.pairingNonce == w.nonce
    requires |w.nonce| == NONCE_LEN && w.token.Some?
    requires w.verdict == Ok(ComputeConfirmation(h, w.token.value, r.fingerprint, i.fingerprint, w.nonce))
    requires w.confirmed && w.storedByResponder && w.storedByInitiator
    ensures FinishPairing(i, r, h, w, a).initiator.Some?
            <==> && |w.ackId| == 16 && |w.requestId| == 16 && |w.responseId| == 16
                 && w.helloId != w.requestId && w.ackId != w.responseId
    ensures FinishPairing(i, r, h, w, a).initiator.Some? ==> FinishPairing(i, r, h, w, a).responder.Some?
  {
    HexRoundTrip(r.fingerprint);
    HighestCommonVersion(i.build, r.build);
    var read := FirstReading(i, r, h, w, a.ack);
    if read.AckPairing? {
      ReadingFacts(i, r, h, w, a);
      RequestAccepted(i, r, h, w, a, read);
      var p := AcceptPairing(r, a, i.fingerprint, read.request, w.verdict, w.confirmed, w.storedByResponder,
        w.granted, w.responseId);
      if p.PairEstablished? {
        ResponseAccepted(i, r, h, w, a, read, p);
      }
    }
  }

  /** With a good verdict, a willing operator and a working store, the request needs only a usable id. */
  lemma RequestAccepted(i: Party, r: Party, h: Hmac, w: World, a: HelloOutcome, read: AckOutcome)
    requires a.HelloPairing? && read.AckPairing? && read == FirstReading(i, r, h, w, a.ack) && read.version == a.version
    requires a.link.admitted == [SayHello(i, w.helloId).1] && read.request.sequence == 2
    requires w.verdict.Ok? && w.confirmed && w.storedByResponder
    ensures AcceptPairing(r, a, i.fingerprint, read.request, w.verdict, w.confirmed, w.storedByResponder, w.granted,
            w.responseId).PairEstablished?
            <==> |w.requestId| == 16 && w.helloId != w.requestId
  {
    OneMoreFresh(a.link.admitted[0], read.request);
  }

  /** And the response, carrying the confirmation expected, too. */
  lemma ResponseAccepted(i: Party, r: Party, h: Hmac, w: World, a: HelloOutcome, read: AckOutcome, p: PairOutcome)
    requires a.HelloPairing? && a.link.factory == Factory(a.version, 1) && a.ack.sequence == 1
            && a.ack.messageId == w.ackId
    requires read.AckPairing? && read.link.admitted == [a.ack] && read.nonce == w.nonce && w.token.Some?
    requires p == AcceptPairing(r, a, i.fingerprint, read.request, w.verdict, w.confirmed, w.storedByResponder,
            w.granted, w.responseId)
    requires p.PairEstablished? && w.storedByInitiator
    requires w.verdict == Ok(ComputeConfirmation(h, w.token.value, r.fingerprint, i.fingerprint, w.nonce))
    ensures ReadResponse(i, read, r.fingerprint, w.token.value, h, p.response, w.storedByInitiator).ResponseEstablished?
            <==> |w.responseId| == 16 && w.ackId != w.responseId
  {
    OneMoreFresh(a.ack, p.response);
  }
}
