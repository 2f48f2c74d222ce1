/** The messages of the control session, and the envelope that carries them. */
module Wire {
  import opened Base

  datatype DeviceInfo = DeviceInfo(deviceId: string, deviceName: string, identityFingerprint: string)

  datatype HelloStatus = Trusted | PairingRequired | Rejected | VersionUnsupported | UnspecifiedHello

  datatype PairStatus = Accepted | DeclinedByUser | NotInPairingMode | RateLimited | PairRejected | UnspecifiedPair

  datatype Body =
    | Hello(device: Option<DeviceInfo>, minVersion: nat, maxVersion: nat, capabilities: seq<string>)
    | HelloAck(device: Option<DeviceInfo>, status: HelloStatus, version: nat,
               capabilities: seq<string>, pairingNonce: Bytes)
    | PairRequest(proof: Bytes)
    | PairResponse(pairStatus: PairStatus, confirmation: Bytes)
    | Ping(payload: Bytes)
    | Pong(payload: Bytes)
    | CapabilityMessage(capabilityId: string, content: Bytes)
    | CapabilityAnnounce
    | ErrorFrame(fatal: bool)
    | EmptyBody

  datatype Envelope = Envelope(
    protocolVersion: nat,
    messageId: Bytes,
    sequence: nat,
    correlationId: Bytes,
    body: Body)

  /** Stamps outgoing envelopes: one version, sequence numbers counting up from one. */
  datatype Factory = Factory(protocolVersion: nat, sequence: nat)

  function Stamp(f: Factory, id: Bytes, correlation: Bytes, body: Body): (Factory, Envelope) {
    var g := f.(sequence := f.sequence + 1);
    (g, Envelope(g.protocolVersion, id, g.sequence, correlation, body))
  }

  /** The source of a connection's envelopes. The id of each is drawn at random, so it is an argument. */
  class EnvelopeFactory {
    const protocolVersion: nat
    var sequence: nat

    function View(): Factory
      reads this
    {
      Factory(protocolVersion, sequence)
    }

    constructor (version: nat)
      ensures View() == Factory(version, 0)
    {
      protocolVersion, sequence := version, 0;
    }

    method Build(id: Bytes, body: Body) returns (env: Envelope)
      modifies this
      ensures (View(), env) == Stamp(old(View()), id, [], body)
    {
      sequence := sequence + 1;
      env := Envelope(protocolVersion, id, sequence, [], body);
    }

    method BuildReply(id: Bytes, body: Body, correlate: Bytes) returns (env: Envelope)
      modifies this
      ensures (View(), env) == Stamp(old(View()), id, correlate, body)
    {
      env := Build(id, body);
      env := env.(correlationId := correlate);
    }
  }
}
