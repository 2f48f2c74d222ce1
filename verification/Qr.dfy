/** The pairing QR payload: `omnibridge1:<fingerprint>:<token>:<device-id>:<addr>[,<addr>...]`. */
module Qr {
  import opened Base
  import opened Encoding

  const QR_SCHEME: string := "omnibridge1"
  const MAX_QR_PAYLOAD_LEN: nat := 512

  datatype QrPayload<A> = QrPayload(fingerprint: Fingerprint, tokenBase32: string, deviceId: string, addresses: seq<A>)

  datatype QrError = TooLarge | UnknownScheme | BadFingerprint | BadToken | BadDeviceId

  /** `s` up to the first `c`, and what follows it when there is one. */
  function Cut(s: string, c: char): (string, Option<string>) {
    if s == "" then ("", None)
    else if s[0] == c then ("", Some(s[1..]))
    else var (h, t) := Cut(s[1..], c); ([s[0]] + h, t)
  }

  /** At most `n` pieces; the last one keeps every separator left in it. */
  function SplitN(s: string, c: char, n: nat): (r: seq<string>)
    requires n >= 1
    ensures 1 <= |r| <= n
    decreases n
  {
    var (h, t) := Cut(s, c);
    if n == 1 || t.None? then [s] else [h] + SplitN(t.value, c, n - 1)
  }

  lemma {:induction false} CutLength(s: string, c: char)
    ensures Cut(s, c).1.Some? ==> |Cut(s, c).1.value| < |s|
  {
    if s != "" { CutLength(s[1..], c); }
  }

  function Split(s: string, c: char): (r: seq<string>)
    ensures |r| >= 1
    decreases |s|
  {
    CutLength(s, c);
    var (h, t) := Cut(s, c);
    if t.None? then [s] else [h] + Split(t.value, c)
  }

  function Join(pieces: seq<string>, c: char): string {
    if pieces == [] then ""
    else if |pieces| == 1 then pieces[0]
    else pieces[0] + [c] + Join(pieces[1..], c)
  }

  function Show<A>(xs: seq<A>, show: A -> string): (r: seq<string>)
    ensures |r| == |xs|
    ensures forall i :: 0 <= i < |xs| ==> r[i] == show(xs[i])
  {
    if xs == [] then [] else [show(xs[0])] + Show(xs[1..], show)
  }

  /** Address hints: empty and unreadable pieces are dropped, not errors. */
  function ReadAddresses<A>(pieces: seq<string>, read: string -> Option<A>): seq<A> {
    if pieces == [] then []
    else
      var rest := ReadAddresses(pieces[1..], read);
      if pieces[0] == "" then rest
      else match read(pieces[0]) case None => rest case Some(a) => [a] + rest
  }

  function Payload<A>(f: Fingerprint, t: Token, deviceId: string, addresses: seq<A>, show: A -> string): string {
    QR_SCHEME + ":" + FingerprintToHex(f) + ":" + TokenToBase32(t) + ":" + deviceId + ":"
      + Join(Show(addresses, show), ',')
  }

  predicate IsHexDigit(c: char) {
    '0' <= c <= '9' || 'a' <= c <= 'f' || 'A' <= c <= 'F'
  }

  predicate ValidDeviceId(s: string) {
    1 <= |s| <= 64 && forall i :: 0 <= i < |s| ==> IsHexDigit(s[i])
  }

  function Piece(parts: seq<string>, i: nat): string {
    if i < |parts| then parts[i] else ""
  }

  function Parse<A>(input: string, read: string -> Option<A>): Result<QrPayload<A>, QrError> {
    if |input| > MAX_QR_PAYLOAD_LEN then Err(TooLarge) else
    var parts := SplitN(input, ':', 5);
    if Piece(parts, 0) != QR_SCHEME then Err(UnknownScheme) else
    var f := FingerprintFromHex(Piece(parts, 1));
    if f.None? then Err(BadFingerprint) else
    if TokenFromBase32(Piece(parts, 2)).None? then Err(BadToken) else
    if !ValidDeviceId(Piece(parts, 3)) then Err(BadDeviceId) else
    Ok(QrPayload(f.value, Piece(parts, 2), Piece(parts, 3), ReadAddresses(Split(Piece(parts, 4), ','), read)))
  }

  lemma {:induction false} CutAt(h: string, c: char, t: string)
    requires c !in h
    ensures Cut(h + [c] + t, c) == (h, Some(t))
  {
    var s := h + [c] + t;
    if h == "" {
      assert s == [c] + t;
    } else {
      CutAt(h[1..], c, t);
      assert s[1..] == h[1..] + [c] + t;
      assert h == [h[0]] + h[1..];
    }
  }

  lemma {:induction false} CutAbsent(s: string, c: char)
    requires c !in s
    ensures Cut(s, c) == (s, None)
  {
    if s != "" {
      CutAbsent(s[1..], c);
      assert s == [s[0]] + s[1..];
    }
  }

  lemma SplitNStep(h: string, c: char, t: string, n: nat)
    requires n >= 2 && c !in h
    ensures SplitN(h + [c] + t, c, n) == [h] + SplitN(t, c, n - 1)
  {
    CutAt(h, c, t);
  }

  lemma {:induction false} SplitJoin(pieces: seq<string>, c: char)
    requires pieces != []
    requires forall i :: 0 <= i < |pieces| ==> c !in pieces[i]
    ensures Split(Join(pieces, c), c) == pieces
  {
    if |pieces| == 1 {
      CutAbsent(pieces[0], c);
    } else {
      CutAt(pieces[0], c, Join(pieces[1..], c));
      SplitJoin(pieces[1..], c);
    }
  }

  lemma {:induction false} ReadShow<A>(xs: seq<A>, show: A -> string, read: string -> Option<A>)
    requires forall a :: show(a) != "" && read(show(a)) == Some(a)
    ensures ReadAddresses(Show(xs, show), read) == xs
  {
    if xs != [] {
      ReadShow(xs[1..], show, read);
      assert Show(xs, show)[1..] == Show(xs[1..], show);
    }
  }

  lemma AddressesRoundTrip<A>(xs: seq<A>, show: A -> string, read: string -> Option<A>)
    requires forall a :: show(a) != "" && ',' !in show(a) && read(show(a)) == Some(a)
    ensures ReadAddresses(Split(Join(Show(xs, show), ','), ','), read) == xs
  {
    if xs == [] {
      assert Split("", ',') == [""];
    } else {
      SplitJoin(Show(xs, show), ',');
      ReadShow(xs, show, read);
    }
  }

  lemma AlphabetHasNoColon(s: string, alphabet: string)
    requires AllIn(s, alphabet) && ':' !in alphabet
    ensures ':' !in s
  {
  }

  lemma FiveFields(a: string, b: string, c: string, d: string, e: string)
    requires ':' !in a && ':' !in b && ':' !in c && ':' !in d
    ensures SplitN(a + ":" + b + ":" + c + ":" + d + ":" + e, ':', 5) == [a, b, c, d, e]
  {
    var de := d + ":" + e;
    var cde := c + ":" + de;
    var bcde := b + ":" + cde;
    assert a + ":" + b + ":" + c + ":" + d + ":" + e == a + ":" + bcde;
    SplitNStep(a, ':', bcde, 5);
    SplitNStep(b, ':', cde, 4);
    SplitNStep(c, ':', de, 3);
    SplitNStep(d, ':', e, 2);
  }

  lemma ParseParts<A>(input: string, hex: string, token: string, deviceId: string, addresses: string,
                      read: string -> Option<A>)
    requires |input| <= MAX_QR_PAYLOAD_LEN && SplitN(input, ':', 5) == [QR_SCHEME, hex, token, deviceId, addresses]
    requires FingerprintFromHex(hex).Some? && TokenFromBase32(token).Some? && ValidDeviceId(deviceId)
    ensures Parse(input, read)
         == Ok(QrPayload(FingerprintFromHex(hex).value, token, deviceId, ReadAddresses(Split(addresses, ','), read)))
  {
    var parts := SplitN(input, ':', 5);
    assert Piece(parts, 0) == QR_SCHEME && Piece(parts, 1) == hex && Piece(parts, 2) == token;
    assert Piece(parts, 3) == deviceId && Piece(parts, 4) == addresses;
  }

  lemma NoColons(hex: string, token: string, deviceId: string)
    requires AllIn(hex, HEX_ALPHABET) && AllIn(token, BASE32_ALPHABET) && ValidDeviceId(deviceId)
    ensures ':' !in hex && ':' !in token && ':' !in deviceId && ':' !in QR_SCHEME
  {
    HexHasNoColon(hex);
    TokenHasNoColon(token);
  }

  lemma HexHasNoColon(hex: string)
    requires AllIn(hex, HEX_ALPHABET)
    ensures ':' !in hex
  {
    AlphabetHasNoColon(hex, HEX_ALPHABET);
  }

  lemma TokenHasNoColon(token: string)
    requires AllIn(token, BASE32_ALPHABET)
    ensures ':' !in token
  {
    AlphabetHasNoColon(token, BASE32_ALPHABET);
  }

  lemma ParseFields<A>(hex: string, token: string, deviceId: string, addresses: string, read: string -> Option<A>)
    requires FingerprintFromHex(hex).Some? && TokenFromBase32(token).Some? && ValidDeviceId(deviceId)
    requires |QR_SCHEME + ":" + hex + ":" + token + ":" + deviceId + ":" + addresses| <= MAX_QR_PAYLOAD_LEN
    ensures Parse(QR_SCHEME + ":" + hex + ":" + token + ":" + deviceId + ":" + addresses, read)
         == Ok(QrPayload(FingerprintFromHex(hex).value, token, deviceId, ReadAddresses(Split(addresses, ','), read)))
  {
    NoColons(hex, token, deviceId);
    FiveFields(QR_SCHEME, hex, token, deviceId, addresses);
    ParseParts(QR_SCHEME + ":" + hex + ":" + token + ":" + deviceId + ":" + addresses, hex, token, deviceId,
      addresses, read);
  }

  lemma ParsedIsValid<A>(input: string, read: string -> Option<A>)
    requires Parse(input, read).Ok?
    ensures |input| <= MAX_QR_PAYLOAD_LEN && ValidDeviceId(Parse(input, read).value.deviceId)
  {
  }

  /** Scanning a displayed code gives back exactly what was displayed, for every fingerprint, token
      and address list (addresses may contain colons), if and only if the device id is 1 to 64
      hexadecimal digits and the text fits in 512 characters. */
  lemma QrRoundTrip<A>(f: Fingerprint, t: Token, deviceId: string, addresses: seq<A>,
                       show: A -> string, read: string -> Option<A>)
    requires forall a :: show(a) != "" && ',' !in show(a) && read(show(a)) == Some(a)
    ensures var text := Payload(f, t, deviceId, addresses, show);
            Parse(text, read) == Ok(QrPayload(f, TokenToBase32(t), deviceId, addresses))
            <==> ValidDeviceId(deviceId) && |text| <= MAX_QR_PAYLOAD_LEN
    ensures TokenFromBase32(TokenToBase32(t)) == Some(t)
  {
    Base32RoundTrip(t);
    var text := Payload(f, t, deviceId, addresses, show);
    if ValidDeviceId(deviceId) && |text| <= MAX_QR_PAYLOAD_LEN {
      HexRoundTrip(f);
      ParseFields(FingerprintToHex(f), TokenToBase32(t), deviceId, Join(Show(addresses, show), ','), read);
      AddressesRoundTrip(addresses, show, read);
    } else if Parse(text, read).Ok? {
      ParsedIsValid(text, read);
    }
  }

  lemma {:induction false} CutRejoins(s: string, c: char)
    ensures var (h, t) := Cut(s, c); s == (if t.None? then h else h + [c] + t.value)
  {
    if s != "" { CutRejoins(s[1..], c); }
  }

  lemma {:induction false} SplitNRejoins(s: string, c: char, n: nat)
    requires n >= 1
    ensures Join(SplitN(s, c, n), c) == s
    decreases n
  {
    var (h, t) := Cut(s, c);
    if n > 1 && t.Some? {
      CutRejoins(s, c);
      SplitNRejoins(t.value, c, n - 1);
      assert SplitN(s, c, n)[1..] == SplitN(t.value, c, n - 1);
    }
  }

  /** The pieces say scheme, fingerprint, token and device id, each well formed. */
  predicate WellFormed(parts: seq<string>) {
    && 4 <= |parts| <= 5 && parts[0] == QR_SCHEME
    && FingerprintFromHex(parts[1]).Some? && TokenFromBase32(parts[2]).Some? && ValidDeviceId(parts[3])
  }

  lemma PartsDecide<A>(input: string, read: string -> Option<A>)
    ensures var parts := SplitN(input, ':', 5);
            && (Parse(input, read).Ok? <==> |input| <= MAX_QR_PAYLOAD_LEN && WellFormed(parts))
            && (Parse(input, read).Ok? ==>
                  var p := Parse(input, read).value;
                  Some(p.fingerprint) == FingerprintFromHex(parts[1]) && p.tokenBase32 == parts[2]
                    && p.deviceId == parts[3])
  {
    MissingIsMalformed();
    var parts := SplitN(input, ':', 5);
    if |parts| < 4 {
      assert Piece(parts, 3) == "";
    }
  }

  lemma MissingIsMalformed()
    ensures FingerprintFromHex("").None? && TokenFromBase32("").None? && !ValidDeviceId("")
  {
  }

  /** Whatever is scanned, it is accepted exactly when it is within the limit and is, joined by colons, the
      scheme, a fingerprint, a token and a device id, perhaps with addresses; and those are what is read. */
  lemma ParseIsStrict<A>(input: string, read: string -> Option<A>)
    ensures Parse(input, read).Ok?
            <==> && |input| <= MAX_QR_PAYLOAD_LEN
                 && exists parts :: WellFormed(parts) && Fields(parts) && Join(parts, ':') == input
    ensures Parse(input, read).Ok? ==>
              var p := Parse(input, read).value;
              exists parts :: && WellFormed(parts) && Join(parts, ':') == input
                              && Some(p.fingerprint) == FingerprintFromHex(parts[1])
                              && p.tokenBase32 == parts[2] && p.deviceId == parts[3]
  {
    PartsDecide(input, read);
    SplitNRejoins(input, ':', 5);
    if Parse(input, read).Ok? {
      SplitIsFields(input);
    } else if |input| <= MAX_QR_PAYLOAD_LEN {
      forall parts | WellFormed(parts) && Fields(parts) ensures Join(parts, ':') != input {
        FieldsSplit(parts);
      }
    }
  }

  /** Without a fifth piece, none contains a colon; the fifth may. */
  predicate Fields(parts: seq<string>) {
    forall i :: 0 <= i < |parts| && i < 4 ==> ':' !in parts[i]
  }

  lemma {:induction false} CutHasNone(s: string, c: char)
    ensures c !in Cut(s, c).0
  {
    if s != "" { CutHasNone(s[1..], c); }
  }

  lemma {:induction false} SplitNHasNone(s: string, c: char, n: nat)
    requires n >= 1
    ensures forall i :: 0 <= i < |SplitN(s, c, n)| && i < n - 1 ==> c !in SplitN(s, c, n)[i]
    decreases n
  {
    var (h, t) := Cut(s, c);
    CutHasNone(s, c);
    CutRejoins(s, c);
    if n > 1 && t.Some? {
      SplitNHasNone(t.value, c, n - 1);
      var rest := SplitN(t.value, c, n - 1);
      assert SplitN(s, c, n) == [h] + rest;
      forall i | 0 <= i < |rest| + 1 && i < n - 1 ensures c !in ([h] + rest)[i] {
        if i > 0 { assert ([h] + rest)[i] == rest[i - 1]; }
      }
    }
  }

  lemma SplitIsFields(input: string)
    ensures Fields(SplitN(input, ':', 5))
  {
    SplitNHasNone(input, ':', 5);
  }

  lemma {:induction false} SplitNJoin(parts: seq<string>, c: char, n: nat)
    requires 1 <= |parts| <= n
    requires forall i :: 0 <= i < |parts| && i < n - 1 ==> c !in parts[i]
    ensures SplitN(Join(parts, c), c, n) == parts
    decreases n
  {
    if |parts| == 1 {
      if n > 1 { CutAbsent(parts[0], c); }
    } else {
      SplitNStep(parts[0], c, Join(parts[1..], c), n);
      SplitNJoin(parts[1..], c, n - 1);
    }
  }

  lemma FieldsSplit(parts: seq<string>)
    requires WellFormed(parts) && Fields(parts)
    ensures SplitN(Join(parts, ':'), ':', 5) == parts
  {
    SplitNJoin(parts, ':', 5);
  }
}
