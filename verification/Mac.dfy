/** The authenticated messages of pairing and of file streams. The MAC itself is any function of a key
    and a message; what is ours, and proved, is that no two inputs are encoded as the same message. */
module Mac {
  import opened Base
  import opened Framing
  import opened Encoding

  type Hmac = (Bytes, Bytes) -> Bytes

  function Ascii(s: string): (b: Bytes)
    ensures |b| == |s|
  {
    seq(|s|, i requires 0 <= i < |s| => (s[i] as int % 256) as byte)
  }

  datatype Purpose = PairingProof | PairingConfirmation | DataStream

  function Domain(p: Purpose): Bytes {
    match p
    case PairingProof => Ascii("omnibridge/pairing-proof/v1")
    case PairingConfirmation => Ascii("omnibridge/pairing-confirm/v1")
    case DataStream => Ascii("omnibridge/files.v1/data-stream/v1")
  }

  /** A 32-bit length, then the data. Lengths are cast, so they wrap. */
  function LenPrefixed(data: Bytes): (r: Bytes)
    ensures |r| == 4 + |data|
  {
    Be32(|data| % 0x1_0000_0000) + data
  }

  function Message(p: Purpose, first: Bytes, second: Bytes, third: Bytes): Bytes {
    Domain(p) + (LenPrefixed(first) + (LenPrefixed(second) + LenPrefixed(third)))
  }

  lemma PrefixCancels(p: Bytes, a: Bytes, s: Bytes, p': Bytes, a': Bytes, s': Bytes)
    requires |p| == |p'| && p + a + s == p' + a' + s'
    ensures p == p' && (|a| == |a'| ==> a == a' && s == s')
  {
    var m, n := p + a + s, |p|;
    assert p == m[..n] && p' == m[..n];
    if |a| == |a'| {
      assert a == m[n..n + |a|] && a' == m[n..n + |a|];
      assert s == m[n + |a|..] && s' == m[n + |a|..];
    }
  }

  lemma SameLength(n: nat, m: nat)
    requires n < 0x1_0000_0000 && m < 0x1_0000_0000 && Be32(n) == Be32(m)
    ensures n == m
  {
    assert n == FromBe32(Be32(n));
  }

  lemma LenPrefixedInjective(a: Bytes, s: Bytes, a': Bytes, s': Bytes)
    requires |a| < 0x1_0000_0000 && |a'| < 0x1_0000_0000
    requires LenPrefixed(a) + s == LenPrefixed(a') + s'
    ensures a == a' && s == s'
  {
    var p, p' := Be32(|a| % 0x1_0000_0000), Be32(|a'| % 0x1_0000_0000);
    assert p + a + s == p' + a' + s';
    PrefixCancels(p, a, s, p', a', s');
    SameLength(|a| % 0x1_0000_0000, |a'| % 0x1_0000_0000);
  }

  lemma SameDomainInjective(p: Purpose, a: Bytes, b: Bytes, c: Bytes, a': Bytes, b': Bytes, c': Bytes)
    requires |a| < 0x1_0000_0000 && |b| < 0x1_0000_0000 && |a'| < 0x1_0000_0000 && |b'| < 0x1_0000_0000
    requires Message(p, a, b, c) == Message(p, a', b', c')
    ensures a == a' && b == b' && c == c'
  {
    var n := |Domain(p)|;
    assert Message(p, a, b, c)[n..] == LenPrefixed(a) + (LenPrefixed(b) + LenPrefixed(c));
    assert Message(p, a', b', c')[n..] == LenPrefixed(a') + (LenPrefixed(b') + LenPrefixed(c'));
    LenPrefixedInjective(a, LenPrefixed(b) + LenPrefixed(c), a', LenPrefixed(b') + LenPrefixed(c'));
    LenPrefixedInjective(b, LenPrefixed(c), b', LenPrefixed(c'));
    assert LenPrefixed(c)[4..] == c && LenPrefixed(c')[4..] == c';
  }

  /** No domain is a prefix of another, so no field can make up the difference. */
  lemma DomainsSeparate(p: Purpose, p': Purpose, a: Bytes, b: Bytes, c: Bytes, a': Bytes, b': Bytes, c': Bytes)
    requires p != p'
    ensures Message(p, a, b, c) != Message(p', a', b', c')
  {
    var k := if p.DataStream? || p'.DataStream? then 11 else 19;
    assert Domain(p)[k] != Domain(p')[k];
    assert Message(p, a, b, c)[k] == Domain(p)[k];
    assert Message(p', a', b', c')[k] == Domain(p')[k];
  }

  /** Two messages are equal only if purpose, both fingerprints and the nonce (or transfer id),
      of whatever length, are all equal. */
  lemma MessageInjective(p: Purpose, a: Fingerprint, b: Fingerprint, c: Bytes,
                         p': Purpose, a': Fingerprint, b': Fingerprint, c': Bytes)
    requires Message(p, a, b, c) == Message(p', a', b', c')
    ensures p == p' && a == a' && b == b' && c == c'
  {
    if p != p' {
      DomainsSeparate(p, p', a, b, c, a', b', c');
    } else {
      SameDomainInjective(p, a, b, c, a', b', c');
    }
  }

  function ComputeProof(h: Hmac, token: Token, responder: Fingerprint, initiator: Fingerprint, nonce: Bytes): Bytes {
    h(token, Message(PairingProof, responder, initiator, nonce))
  }

  function ComputeConfirmation(h: Hmac, token: Token, responder: Fingerprint, initiator: Fingerprint,
                               nonce: Bytes): Bytes {
    h(token, Message(PairingConfirmation, responder, initiator, nonce))
  }

  function ComputeStreamMac(h: Hmac, challenge: Bytes, acceptor: Fingerprint, dialer: Fingerprint,
                            transfer: Bytes): Bytes {
    h(challenge, Message(DataStream, acceptor, dialer, transfer))
  }

  /** The MAC under this key tells these two messages apart. It is asked only of messages compared: no MAC
      with tags of a fixed size tells all messages apart. */
  ghost predicate TellsApart(h: Hmac, key: Bytes, m: Bytes, m': Bytes) {
    h(key, m) == h(key, m') ==> m == m'
  }

  /** Unless these two very messages collide, a value made for one purpose, pair of devices and nonce is
      worthless for the other: a proof cannot be reflected as a confirmation, replayed on another
      connection, or presented by another device. */
  lemma TagBindsEverything(h: Hmac, key: Bytes, p: Purpose, a: Fingerprint, b: Fingerprint, c: Bytes,
                           p': Purpose, a': Fingerprint, b': Fingerprint, c': Bytes)
    requires TellsApart(h, key, Message(p, a, b, c), Message(p', a', b', c'))
    ensures h(key, Message(p, a, b, c)) == h(key, Message(p', a', b', c'))
            <==> p == p' && a == a' && b == b' && c == c'
  {
    if h(key, Message(p, a, b, c)) == h(key, Message(p', a', b', c')) {
      MessageInjective(p, a, b, c, p', a', b', c');
    }
  }

  /** Under any key, a data stream's MAC is good for one acceptor, one dialer and one transfer, and is never
      a value made for pairing. */
  lemma StreamMacBinds(h: Hmac, key: Bytes, a: Fingerprint, d: Fingerprint, t: Bytes,
                       p: Purpose, a': Fingerprint, d': Fingerprint, t': Bytes)
    requires TellsApart(h, key, Message(DataStream, a, d, t), Message(p, a', d', t'))
    ensures ComputeStreamMac(h, key, a, d, t) == h(key, Message(p, a', d', t'))
            <==> p == DataStream && a == a' && d == d' && t == t'
  {
    TagBindsEverything(h, key, DataStream, a, d, t, p, a', d', t');
  }

  /** The MAC as it is fed, piece by piece. */
  class RunningMac {
    const key: Bytes
    var fed: Bytes

    constructor (key: Bytes)
      ensures this.key == key && fed == []
    {
      this.key := key;
      fed := [];
    }

    method Update(data: Bytes)
      modifies this
      ensures fed == old(fed) + data
    {
      fed := fed + data;
    }

    method UpdateLenPrefixed(data: Bytes)
      modifies this
      ensures fed == old(fed) + LenPrefixed(data)
    {
      Update(Be32(|data| % 0x1_0000_0000));
      Update(data);
    }
  }

  lemma Regroup(d: Bytes, x: Bytes, y: Bytes, z: Bytes)
    ensures [] + d + x + y + z == d + (x + (y + z))
  {
  }

  /** The body shared by the three MACs: the pieces fed in order make exactly the message above. */
  method ComputeMac(h: Hmac, key: Bytes, p: Purpose, first: Bytes, second: Bytes, third: Bytes) returns (tag: Bytes)
    ensures tag == h(key, Message(p, first, second, third))
  {
    var m := new RunningMac(key);
    m.Update(Domain(p));
    m.UpdateLenPrefixed(first);
    m.UpdateLenPrefixed(second);
    m.UpdateLenPrefixed(third);
    Regroup(Domain(p), LenPrefixed(first), LenPrefixed(second), LenPrefixed(third));
    tag := h(m.key, m.fed);
  }
}
