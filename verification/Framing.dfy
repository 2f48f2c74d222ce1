/** Length-prefixed framing: four big-endian length bytes, then the body. */
module Framing {
  import opened Base

  const MAX_FRAME_LEN: nat := 65536

  datatype FrameError = Closed | FrameTooLarge(len: nat) | ZeroLengthFrame

  function Be32(n: nat): (b: Bytes)
    requires n < 0x1_0000_0000
    ensures |b| == 4 && FromBe32(b) == n
  {
    var a := n / 0x100;
    var b := a / 0x100;
    [(b / 0x100) as byte, (b % 0x100) as byte, (a % 0x100) as byte, (n % 0x100) as byte]
  }

  function FromBe32(b: Bytes): nat
    requires |b| == 4
  {
    b[0] as nat * 0x100_0000 + b[1] as nat * 0x1_0000 + b[2] as nat * 0x100 + b[3] as nat
  }

  function Frame(body: Bytes): (f: Bytes)
    requires |body| <= MAX_FRAME_LEN
    ensures |f| == 4 + |body|
  {
    Be32(|body|) + body
  }

  /** One read from a stream that ends after `data`: the outcome and what is left unread. */
  function ReadFrame(data: Bytes): (Result<Bytes, FrameError>, Bytes) {
    if |data| < 4 then (Err(Closed), []) else
    var len := FromBe32(data[..4]);
    if len > MAX_FRAME_LEN then (Err(FrameTooLarge(len)), data[4..])
    else if len == 0 then (Err(ZeroLengthFrame), data[4..])
    else if |data| - 4 < len then (Err(Closed), [])
    else (Ok(data[4..4 + len]), data[4 + len..])
  }

  /** Reads until the first error, as the session's reader task does. */
  function ReadAll(data: Bytes): (seq<Bytes>, FrameError)
    decreases |data|
  {
    var (r, rest) := ReadFrame(data);
    match r
    case Err(e) => ([], e)
    case Ok(body) => var (more, e) := ReadAll(rest); ([body] + more, e)
  }

  function WriteAll(bodies: seq<Bytes>): Bytes
    requires forall b :: b in bodies ==> |b| <= MAX_FRAME_LEN
  {
    if bodies == [] then [] else Frame(bodies[0]) + WriteAll(bodies[1..])
  }

  /** A duplex byte channel: writes append, reads consume from the front. */
  class ByteChannel {
    var data: Bytes

    constructor ()
      ensures data == []
    {
      data := [];
    }

    method WriteEnvelope(body: Bytes) returns (r: Result<(), FrameError>)
      modifies this
      ensures r == if |body| <= MAX_FRAME_LEN then Ok(())
                   else Err(FrameTooLarge(if |body| < 0x1_0000_0000 then |body| else 0xffff_ffff))
      ensures data == old(data) + (if r.Ok? then Frame(body) else [])
    {
      if |body| >= 0x1_0000_0000 {
        return Err(FrameTooLarge(0xffff_ffff));
      }
      if |body| > MAX_FRAME_LEN {
        return Err(FrameTooLarge(|body|));
      }
      data := data + Be32(|body|);
      data := data + body;
      return Ok(());
    }

    /** Fills a buffer of `n` bytes, or drains the stream and reports its end. */
    method ReadExact(n: nat) returns (r: Option<Bytes>)
      modifies this
      ensures r == if n <= |old(data)| then Some(old(data)[..n]) else None
      ensures data == if n <= |old(data)| then old(data)[n..] else []
    {
      if n > |data| {
        data := [];
        return None;
      }
      r := Some(data[..n]);
      data := data[n..];
    }

    method ReadEnvelope() returns (r: Result<Bytes, FrameError>)
      modifies this
      ensures (r, data) == ReadFrame(old(data))
    {
      var lenBuf := ReadExact(4);
      if lenBuf.None? {
        return Err(Closed);
      }
      var len := FromBe32(lenBuf.value);
      if len > MAX_FRAME_LEN {
        return Err(FrameTooLarge(len));
      }
      if len == 0 {
        return Err(ZeroLengthFrame);
      }
      var body := ReadExact(len);
      if body.None? {
        return Err(Closed);
      }
      assert old(data)[4..][..len] == old(data)[4..4 + len] && old(data)[4..][len..] == old(data)[4 + len..];
      return Ok(body.value);
    }
  }

  /** What was written is what is read, and the rest of the stream is untouched, exactly when the
      body is not empty: an empty body is written but refused on arrival. */
  lemma FrameRoundTrip(body: Bytes, rest: Bytes)
    requires |body| <= MAX_FRAME_LEN
    ensures ReadFrame(Frame(body) + rest) == (Ok(body), rest) <==> body != []
    ensures body == [] ==> ReadFrame(Frame(body) + rest) == (Err(ZeroLengthFrame), rest)
  {
    var data := Frame(body) + rest;
    assert data[..4] == Be32(|body|);
    assert data[4..4 + |body|] == body;
    assert data[4 + |body|..] == rest;
  }

  /** Any list of non-empty frames reads back exactly, and then the stream is closed. */
  lemma {:induction false} StreamRoundTrip(bodies: seq<Bytes>)
    requires forall b :: b in bodies ==> 1 <= |b| <= MAX_FRAME_LEN
    ensures ReadAll(WriteAll(bodies)) == (bodies, Closed)
  {
    if bodies != [] {
      ReadAllStep(bodies[0], WriteAll(bodies[1..]));
      StreamRoundTrip(bodies[1..]);
      assert bodies == [bodies[0]] + bodies[1..];
    }
  }

  /** How many whole frames lie within the first `n` bytes of the stream. */
  function WholeFrames(bodies: seq<Bytes>, n: nat): (k: nat)
    ensures k <= |bodies|
  {
    if bodies == [] || n < 4 + |bodies[0]| then 0 else 1 + WholeFrames(bodies[1..], n - 4 - |bodies[0]|)
  }

  /** A frame cut short is not read at all. */
  lemma TornFrame(body: Bytes, cut: Bytes)
    requires 1 <= |body| <= MAX_FRAME_LEN && |cut| < 4 + |body| && cut == Frame(body)[..|cut|]
    ensures ReadAll(cut) == ([], Closed)
  {
    if |cut| >= 4 {
      assert cut[..4] == Be32(|body|);
    }
  }

  /** A whole frame is read, and reading goes on with the rest. */
  lemma ReadAllStep(body: Bytes, rest: Bytes)
    requires 1 <= |body| <= MAX_FRAME_LEN
    ensures ReadAll(Frame(body) + rest) == ([body] + ReadAll(rest).0, ReadAll(rest).1)
  {
    FrameRoundTrip(body, rest);
  }

  lemma CutOfTwo(first: Bytes, rest: Bytes, n: nat)
    requires n <= |first| + |rest|
    ensures (first + rest)[..n] == if n < |first| then first[..n] else first + rest[..n - |first|]
  {
  }

  lemma WholeStep(bodies: seq<Bytes>, n: nat)
    requires bodies != [] && 4 + |bodies[0]| <= n
    ensures bodies[..WholeFrames(bodies, n)]
            == [bodies[0]] + bodies[1..][..WholeFrames(bodies[1..], n - 4 - |bodies[0]|)]
  {
  }

  /** Wherever the stream is cut, exactly the frames that arrived whole are read, then it is closed:
      never an error, never part of a frame. */
  lemma {:induction false} TruncationReadsPrefix(bodies: seq<Bytes>, n: nat)
    requires forall b :: b in bodies ==> 1 <= |b| <= MAX_FRAME_LEN
    requires n <= |WriteAll(bodies)|
    ensures ReadAll(WriteAll(bodies)[..n]) == (bodies[..WholeFrames(bodies, n)], Closed)
  {
    if bodies != [] {
      var first, rest := Frame(bodies[0]), WriteAll(bodies[1..]);
      CutOfTwo(first, rest, n);
      if n < |first| {
        TornFrame(bodies[0], first[..n]);
      } else {
        ReadAllStep(bodies[0], rest[..n - |first|]);
        TruncationReadsPrefix(bodies[1..], n - |first|);
        WholeStep(bodies, n);
      }
    }
  }
}
