/** Fixed-width text encodings of binary values: hexadecimal and base32 (sections 8 and 6 of RFC 4648).
    A block whose bit length is a multiple of the digit width is one big-endian number written in
    another base, which is how both are modelled. */
module Encoding {
  import opened Base

  const HEX_ALPHABET: string := "0123456789abcdef"
  const BASE32_ALPHABET: string := "ABCDEFGHIJKLMNOPQRSTUVWXYZ234567"

  function Pow(b: nat, n: nat): nat {
    if n == 0 then 1 else Pow(b, n - 1) * b
  }

  /** The `n` low digits of `v`, most significant first. */
  function ToDigits(v: nat, base: nat, n: nat): (ds: seq<nat>)
    requires base >= 2
    ensures |ds| == n && forall i :: 0 <= i < n ==> ds[i] < base
  {
    if n == 0 then [] else ToDigits(v / base, base, n - 1) + [v % base]
  }

  function FromDigits(ds: seq<nat>, base: nat): nat {
    if ds == [] then 0 else FromDigits(ds[..|ds| - 1], base) * base + ds[|ds| - 1]
  }

  lemma QuotientUnique(q: nat, d: nat, q': nat, d': nat, base: nat)
    requires d < base && d' < base && q * base + d == q' * base + d'
    ensures q == q' && d == d'
  {
    if q < q' {
      MulMono(q + 1, q', base);
    } else if q' < q {
      MulMono(q' + 1, q, base);
    }
  }

  lemma DivModOfSum(q: nat, base: nat, d: nat)
    requires d < base
    ensures (q * base + d) / base == q && (q * base + d) % base == d
  {
    var v := q * base + d;
    QuotientUnique(q, d, v / base, v % base, base);
  }

  lemma QuotientBelow(v: nat, base: nat, p: nat)
    requires base > 0 && v < p * base
    ensures v / base < p && v / base * base + v % base == v
  {
    if p <= v / base { MulMono(p, v / base, base); }
  }

  lemma FromDigitsSnoc(ds: seq<nat>, d: nat, base: nat)
    ensures FromDigits(ds + [d], base) == FromDigits(ds, base) * base + d
  {
    assert (ds + [d])[..|ds|] == ds;
  }

  lemma {:induction false} FromToDigits(v: nat, base: nat, n: nat)
    requires base >= 2 && v < Pow(base, n)
    ensures FromDigits(ToDigits(v, base, n), base) == v
  {
    if n > 0 {
      QuotientBelow(v, base, Pow(base, n - 1));
      FromToDigits(v / base, base, n - 1);
      FromDigitsSnoc(ToDigits(v / base, base, n - 1), v % base, base);
    }
  }

  lemma ToDigitsStep(q: nat, base: nat, d: nat, n: nat)
    requires base >= 2 && d < base
    ensures ToDigits(q * base + d, base, n + 1) == ToDigits(q, base, n) + [d]
  {
    DivModOfSum(q, base, d);
  }

  lemma {:induction false} ToFromDigits(ds: seq<nat>, base: nat)
    requires base >= 2
    requires forall i :: 0 <= i < |ds| ==> ds[i] < base
    ensures ToDigits(FromDigits(ds, base), base, |ds|) == ds
  {
    if ds != [] {
      var n := |ds| - 1;
      ToFromDigits(ds[..n], base);
      ToDigitsStep(FromDigits(ds[..n], base), base, ds[n], n);
    }
  }

  lemma {:induction false} FromDigitsBound(ds: seq<nat>, base: nat)
    requires base >= 2
    requires forall i :: 0 <= i < |ds| ==> ds[i] < base
    ensures FromDigits(ds, base) < Pow(base, |ds|)
  {
    if ds != [] {
      var n := |ds| - 1;
      var q := FromDigits(ds[..n], base);
      FromDigitsBound(ds[..n], base);
      MulMono(q + 1, Pow(base, n), base);
      assert (q + 1) * base == q * base + base;
    }
  }

  function IndexOf(c: char, alphabet: string): (i: nat)
    requires c in alphabet
    ensures i < |alphabet| && alphabet[i] == c
  {
    if alphabet[0] == c then 0 else 1 + IndexOf(c, alphabet[1..])
  }

  predicate AllIn(s: string, alphabet: string) {
    forall i :: 0 <= i < |s| ==> s[i] in alphabet
  }

  /** Writes `data` as `width` characters of `alphabet`. */
  function Encode(data: Bytes, alphabet: string, width: nat): (s: string)
    requires |alphabet| >= 2
    ensures |s| == width && AllIn(s, alphabet)
  {
    var ds := ToDigits(FromDigits(Octets(data), 256), |alphabet|, width);
    seq(width, i requires 0 <= i < width => alphabet[ds[i]])
  }

  function Octets(data: Bytes): (ns: seq<nat>)
    ensures |ns| == |data| && forall i :: 0 <= i < |ns| ==> ns[i] < 256
  {
    seq(|data|, i requires 0 <= i < |data| => data[i] as nat)
  }

  function FromOctets(ns: seq<nat>): (data: Bytes)
    requires forall i :: 0 <= i < |ns| ==> ns[i] < 256
    ensures |data| == |ns|
    ensures Octets(data) == ns
  {
    seq(|ns|, i requires 0 <= i < |ns| => ns[i] as byte)
  }

  lemma OctetsInjective(a: Bytes, b: Bytes)
    requires Octets(a) == Octets(b)
    ensures a == b
  {
    forall i | 0 <= i < |a| ensures a[i] == b[i] {
      assert Octets(a)[i] == Octets(b)[i];
    }
  }

  /** Reads `width` characters of `alphabet` back as `size` bytes; refuses any other length or character. */
  function Decode(s: string, alphabet: string, width: nat, size: nat): (r: Option<Bytes>)
    requires |alphabet| >= 2
    ensures r.Some? <==> |s| == width && AllIn(s, alphabet)
    ensures r.Some? ==> |r.value| == size
  {
    if |s| != width || !AllIn(s, alphabet) then None else
      Some(FromOctets(ToDigits(FromDigits(Digits(s, alphabet), |alphabet|), 256, size)))
  }

  lemma IndexOfUnique(alphabet: string, i: nat)
    requires i < |alphabet| && Distinct(alphabet)
    ensures IndexOf(alphabet[i], alphabet) == i
  {
  }

  function Digits(s: string, alphabet: string): (ds: seq<nat>)
    requires AllIn(s, alphabet)
    ensures |ds| == |s|
  {
    seq(|s|, i requires 0 <= i < |s| => IndexOf(s[i], alphabet))
  }

  lemma DigitsOfEncode(data: Bytes, alphabet: string, width: nat)
    requires |alphabet| >= 2 && Distinct(alphabet)
    ensures Digits(Encode(data, alphabet, width), alphabet)
         == ToDigits(FromDigits(Octets(data), 256), |alphabet|, width)
  {
    var ds := ToDigits(FromDigits(Octets(data), 256), |alphabet|, width);
    forall i | 0 <= i < width ensures Digits(Encode(data, alphabet, width), alphabet)[i] == ds[i] {
      IndexOfUnique(alphabet, ds[i]);
    }
  }

  /** Reading undoes writing, whenever the two widths hold the same number of bits. */
  lemma DecodeEncode(data: Bytes, alphabet: string, width: nat)
    requires |alphabet| >= 2 && Distinct(alphabet)
    requires Pow(256, |data|) == Pow(|alphabet|, width)
    ensures Decode(Encode(data, alphabet, width), alphabet, width, |data|) == Some(data)
  {
    var v := FromDigits(Octets(data), 256);
    FromDigitsBound(Octets(data), 256);
    FromToDigits(v, |alphabet|, width);
    DigitsOfEncode(data, alphabet, width);
    ToFromDigits(Octets(data), 256);
    OctetsInjective(FromOctets(Octets(data)), data);
  }

  lemma {:induction false} PowAdd(b: nat, m: nat, n: nat)
    ensures Pow(b, m + n) == Pow(b, m) * Pow(b, n)
  {
    if n > 0 {
      PowAdd(b, m, n - 1);
      assert Pow(b, m + n) == Pow(b, m) * Pow(b, n - 1) * b;
    }
  }

  lemma {:induction false} PowOfSquare(b: nat, n: nat)
    ensures Pow(b * b, n) == Pow(b, 2 * n)
  {
    if n > 0 {
      PowOfSquare(b, n - 1);
      PowAdd(b, 2 * (n - 1), 2);
      assert Pow(b, 2) == b * b by { assert Pow(b, 1) == b; }
    }
  }

  /** Twenty bytes and thirty-two base32 digits both hold 160 bits. */
  lemma TokenWidth()
    ensures Pow(256, 20) == Pow(32, 32)
  {
    assert Pow(256, 5) == 0x100_0000_0000;
    assert Pow(32, 8) == 0x100_0000_0000;
    PowAdd(256, 5, 5);
    PowAdd(256, 10, 10);
    PowAdd(32, 8, 8);
    PowAdd(32, 16, 16);
  }

  function FingerprintToHex(f: Fingerprint): (s: string)
    ensures |s| == 64 && AllIn(s, HEX_ALPHABET)
  {
    Encode(f, HEX_ALPHABET, 64)
  }

  /** Strict: exactly 64 lower-case digits. */
  function FingerprintFromHex(s: string): (r: Option<Fingerprint>)
    ensures r.Some? <==> |s| == 64 && AllIn(s, HEX_ALPHABET)
  {
    match Decode(s, HEX_ALPHABET, 64, 32)
    case None => None
    case Some(f) => Some(f)
  }

  lemma HexRoundTrip(f: Fingerprint)
    ensures FingerprintFromHex(FingerprintToHex(f)) == Some(f)
  {
    PowOfSquare(16, 32);
    DecodeEncode(f, HEX_ALPHABET, 64);
  }

  const TOKEN_LEN: nat := 20

  type Token = t: Bytes | |t| == TOKEN_LEN witness seq(20, _ => 0)

  function TokenToBase32(t: Token): (s: string)
    ensures |s| == 32 && AllIn(s, BASE32_ALPHABET)
  {
    Encode(t, BASE32_ALPHABET, 32)
  }

  function TokenFromBase32(s: string): (r: Option<Token>)
    ensures r.Some? <==> |s| == 32 && AllIn(s, BASE32_ALPHABET)
  {
    match Decode(s, BASE32_ALPHABET, 32, TOKEN_LEN)
    case None => None
    case Some(t) => Some(t)
  }

  lemma Base32RoundTrip(t: Token)
    ensures TokenFromBase32(TokenToBase32(t)) == Some(t)
  {
    TokenWidth();
    DecodeEncode(t, BASE32_ALPHABET, 32);
  }
}
