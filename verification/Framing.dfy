/**
 Length-prefix framing: four big-endian bytes of payload length, then the payload. The message codec is a
 parameter, of which only the round trip is used.
 */
module Framing {
  import opened Document

  type Byte = b: nat | b < 256
  type Bytes = seq<Byte>

  const MAX_FRAME: nat := 16 * 1024 * 1024
  const U32: nat := 0x1_0000_0000

  /** A payload codec; `decode` gives nothing for bytes that are not a message. */
  datatype Codec<!M> = Codec(encode: M -> Bytes, decode: Bytes -> Option<M>)

  ghost predicate RoundTrips<M(!new)>(codec: Codec<M>) {
    forall m: M :: codec.decode(codec.encode(m)) == Some(m)
  }

  function Low(n: nat): Byte {
    n % 256
  }

  function Header(len: nat): (h: Bytes)
    requires len < U32
    ensures |h| == 4
  {
    var high: Byte := len / 0x100_0000;
    [high, Low(len / 0x1_0000), Low(len / 256), Low(len)]
  }

  function HeaderLength(h: Bytes): nat
    requires |h| == 4
  {
    var b0: nat, b1: nat, b2: nat, b3: nat := h[0], h[1], h[2], h[3];
    ((b0 * 256 + b1) * 256 + b2) * 256 + b3
  }

  /** The four header bytes hold the length exactly, the most significant first. */
  lemma HeaderRoundTrip(len: nat)
    requires len < U32
    ensures HeaderLength(Header(len)) == len
    ensures var h := Header(len);
      len == (h[0] as int) * 16777216 + (h[1] as int) * 65536 + (h[2] as int) * 256 + (h[3] as int)
  {
    assert len / 256 == len / 0x1_0000 * 256 + len / 256 % 256;
    assert len / 0x1_0000 == len / 0x100_0000 * 256 + len / 0x1_0000 % 256;
  }

  // -- The frames of a byte stream, as values -------------------------------------------------------

  /** What one call of the reader gives: a message, the end of the stream, or an error. */
  datatype ReadResult<+M> =
    | Message(value: M)
    | EndOfStream
    | TooLarge
    | Truncated
    | Undecodable
    | Failed

  function Frame<M>(codec: Codec<M>, m: M): Bytes
    requires |codec.encode(m)| < U32
  {
    Header(|codec.encode(m)|) + codec.encode(m)
  }

  /** One read: the result and what it leaves of the stream. */
  function ReadOne<M>(codec: Codec<M>, s: Bytes): (ReadResult<M>, Bytes) {
    if |s| < 4 then (EndOfStream, [])
    else
      var len, rest := HeaderLength(s[..4]), s[4..];
      if len > MAX_FRAME then (TooLarge, rest)
      else if |rest| < len then (Truncated, [])
      else
        match codec.decode(rest[..len])
        case Some(m) => (Message(m), rest[len..])
        case None => (Undecodable, rest[len..])
  }

  /** The same read on a connection that fails with an I/O error where the data ends. */
  function Failing<M>(r: ReadResult<M>): ReadResult<M> {
    if r.EndOfStream? || r.Truncated? then Failed else r
  }

  /** Reading until something other than a message comes. */
  function ReadAll<M>(codec: Codec<M>, s: Bytes): (seq<M>, ReadResult<M>)
    decreases |s|
  {
    var (r, rest) := ReadOne(codec, s);
    if r.Message? then
      var (ms, last) := ReadAll(codec, rest);
      ([r.value] + ms, last)
    else ([], r)
  }

  predicate Fits<M>(codec: Codec<M>, m: M) {
    |codec.encode(m)| <= MAX_FRAME
  }

  predicate AllFit<M>(codec: Codec<M>, ms: seq<M>) {
    forall i :: 0 <= i < |ms| ==> Fits(codec, ms[i])
  }

  function Frames<M>(codec: Codec<M>, ms: seq<M>): Bytes
    requires AllFit(codec, ms)
  {
    if ms == [] then [] else Frame(codec, ms[0]) + Frames(codec, ms[1..])
  }

  /** What comes back for a frame at the head of a stream: the message exactly when it is within the limit. */
  lemma ReadFrameBack<M(!new)>(codec: Codec<M>, m: M, rest: Bytes)
    requires RoundTrips(codec) && |codec.encode(m)| < U32
    ensures ReadOne(codec, Frame(codec, m) + rest)
         == if |codec.encode(m)| <= 16777216 then (Message(m), rest) else (TooLarge, codec.encode(m) + rest)
  {
    var payload := codec.encode(m);
    var s := Frame(codec, m) + rest;
    HeaderRoundTrip(|payload|);
    assert s[..4] == Header(|payload|);
    assert s[4..] == payload + rest;
    assert (payload + rest)[..|payload|] == payload && (payload + rest)[|payload|..] == rest;
  }

  /** Reading on from a frame that fits. */
  lemma ReadAllFrame<M(!new)>(codec: Codec<M>, m: M, rest: Bytes)
    requires RoundTrips(codec) && Fits(codec, m)
    ensures ReadAll(codec, Frame(codec, m) + rest)
         == ([m] + ReadAll(codec, rest).0, ReadAll(codec, rest).1)
  {
    ReadFrameBack(codec, m, rest);
  }

  lemma NothingToRead<M(!new)>(codec: Codec<M>)
    ensures ReadAll(codec, []) == ([], EndOfStream)
  {
  }

  /** Messages written back to back read back as the same messages, then the end of the stream. */
  lemma {:induction false} FramesRoundTrip<M(!new)>(codec: Codec<M>, ms: seq<M>)
    requires RoundTrips(codec) && AllFit(codec, ms)
    ensures ReadAll(codec, Frames(codec, ms)) == (ms, EndOfStream)
    decreases |ms|
  {
    if ms == [] {
      NothingToRead(codec);
    } else {
      ReadAllFrame(codec, ms[0], Frames(codec, ms[1..]));
      FramesRoundTrip(codec, ms[1..]);
      assert [ms[0]] + ms[1..] == ms;
    }
  }

  /** How many of the messages lie entirely within the first `k` bytes. */
  function Whole<M>(codec: Codec<M>, ms: seq<M>, k: nat): (n: nat)
    requires AllFit(codec, ms)
    ensures n <= |ms|
  {
    if ms == [] || k < |Frame(codec, ms[0])| then 0
    else 1 + Whole(codec, ms[1..], k - |Frame(codec, ms[0])|)
  }

  /** The bytes that the first `n` messages take. */
  function Span<M>(codec: Codec<M>, ms: seq<M>, n: nat): nat
    requires n <= |ms| && AllFit(codec, ms)
  {
    |Frames(codec, ms[..n])|
  }

  lemma {:induction false} FramesPrefix<M>(codec: Codec<M>, ms: seq<M>, n: nat)
    requires n <= |ms| && AllFit(codec, ms)
    ensures Frames(codec, ms[..n]) <= Frames(codec, ms)
    decreases n
  {
    if n > 0 {
      FramesPrefix(codec, ms[1..], n - 1);
      assert ms[..n][1..] == ms[1..][..n - 1];
    }
  }

  lemma SpanStep<M>(codec: Codec<M>, ms: seq<M>, n: nat)
    requires n < |ms| && AllFit(codec, ms)
    ensures Span(codec, ms, n + 1) == |Frame(codec, ms[0])| + Span(codec, ms[1..], n)
  {
    assert ms[..n + 1][1..] == ms[1..][..n];
  }

  /** What cutting a stream of messages after `k` bytes leaves to read. */
  ghost predicate CutReads<M(!new)>(codec: Codec<M>, ms: seq<M>, k: nat, n: nat)
    requires AllFit(codec, ms) && k <= |Frames(codec, ms)| && n <= |ms|
  {
    && Span(codec, ms, n) <= k && (n < |ms| ==> k < Span(codec, ms, n + 1))
    && ReadAll(codec, Frames(codec, ms)[..k])
       == (ms[..n], if k - Span(codec, ms, n) < 4 then EndOfStream else Truncated)
  }

  lemma WholeStep<M>(codec: Codec<M>, ms: seq<M>, k: nat)
    requires AllFit(codec, ms) && ms != [] && |Frame(codec, ms[0])| <= k
    ensures Whole(codec, ms, k) == 1 + Whole(codec, ms[1..], k - |Frame(codec, ms[0])|)
  {
  }

  lemma CutInFirst<M(!new)>(codec: Codec<M>, ms: seq<M>, k: nat)
    requires RoundTrips(codec) && AllFit(codec, ms) && ms != [] && k < |Frame(codec, ms[0])|
    ensures k <= |Frames(codec, ms)| && CutReads(codec, ms, k, 0)
  {
    assert Frames(codec, ms)[..k] == Frame(codec, ms[0])[..k];
    CutFirstFrame(codec, ms[0], k);
    SpanStep(codec, ms, 0);
    assert ms[..0] == [] && ms[1..][..0] == [];
  }

  lemma ReadPastFirst<M(!new)>(codec: Codec<M>, ms: seq<M>, k: nat)
    requires RoundTrips(codec) && AllFit(codec, ms) && ms != []
    requires |Frame(codec, ms[0])| <= k <= |Frames(codec, ms)|
    ensures var (more, last) := ReadAll(codec, Frames(codec, ms[1..])[..k - |Frame(codec, ms[0])|]);
      ReadAll(codec, Frames(codec, ms)[..k]) == ([ms[0]] + more, last)
  {
    var first, more := Frame(codec, ms[0]), Frames(codec, ms[1..]);
    assert Frames(codec, ms)[..k] == first + more[..k - |first|];
    ReadAllFrame(codec, ms[0], more[..k - |first|]);
  }

  lemma CutLater<M(!new)>(codec: Codec<M>, ms: seq<M>, k: nat, n: nat)
    requires RoundTrips(codec) && AllFit(codec, ms) && ms != [] && n < |ms|
    requires |Frame(codec, ms[0])| <= k <= |Frames(codec, ms)|
    requires CutReads(codec, ms[1..], k - |Frame(codec, ms[0])|, n)
    ensures CutReads(codec, ms, k, n + 1)
  {
    ReadPastFirst(codec, ms, k);
    assert ms[..n + 1] == [ms[0]] + ms[1..][..n];
    SpanStep(codec, ms, n);
    if n + 1 < |ms| {
      SpanStep(codec, ms, n + 1);
    }
  }

  lemma {:induction false} CutReadsWhole<M(!new)>(codec: Codec<M>, ms: seq<M>, k: nat)
    requires RoundTrips(codec) && AllFit(codec, ms) && k <= |Frames(codec, ms)|
    ensures CutReads(codec, ms, k, Whole(codec, ms, k))
    decreases |ms|
  {
    if ms == [] {
      NothingToRead(codec);
    } else if k < |Frame(codec, ms[0])| {
      CutInFirst(codec, ms, k);
    } else {
      var k1 := k - |Frame(codec, ms[0])|;
      CutReadsWhole(codec, ms[1..], k1);
      WholeStep(codec, ms, k);
      CutLater(codec, ms, k, Whole(codec, ms[1..], k1));
    }
  }

  /**
   A stream cut anywhere reads as the messages that are whole, then as the end of the stream if the cut is
   between frames or inside a header, and as an error if it is inside a payload.
   */
  lemma CutStream<M(!new)>(codec: Codec<M>, ms: seq<M>, k: nat)
    requires RoundTrips(codec) && AllFit(codec, ms) && k <= |Frames(codec, ms)|
    ensures var n := Whole(codec, ms, k);
      && Span(codec, ms, n) <= k && (n < |ms| ==> k < Span(codec, ms, n + 1))
      && ReadAll(codec, Frames(codec, ms)[..k])
         == (ms[..n], if k - Span(codec, ms, n) < 4 then EndOfStream else Truncated)
  {
    CutReadsWhole(codec, ms, k);
  }

  lemma CutFirstFrame<M(!new)>(codec: Codec<M>, m: M, k: nat)
    requires Fits(codec, m) && k < |Frame(codec, m)|
    ensures ReadAll(codec, Frame(codec, m)[..k]) == ([], if k < 4 then EndOfStream else Truncated)
  {
    var payload := codec.encode(m);
    var cut := Frame(codec, m)[..k];
    if k >= 4 {
      HeaderRoundTrip(|payload|);
      assert cut[..4] == Header(|payload|);
    }
  }

  // -- The reader and the writer -------------------------------------------------------------------

  /**
   A byte stream: what has been written to it, how far it has been read, and whether a read beyond its data
   meets an I/O error instead of its end.
   */
  class ByteStream {
    var data: Bytes
    var pos: nat
    const broken: bool

    ghost predicate Valid()
      reads this
    {
      pos <= |data|
    }

    /** What is still to be read. */
    function Rest(): Bytes
      requires Valid()
      reads this
    {
      data[pos..]
    }

    constructor (broken: bool)
      ensures Valid() && Rest() == [] && this.broken == broken
    {
      data, pos, this.broken := [], 0, broken;
    }

    method WriteAll(bytes: Bytes)
      requires Valid()
      modifies this
      ensures Valid() && Rest() == old(Rest()) + bytes
    {
      data := data + bytes;
    }

    /** Fills the whole buffer, or reports that the data ended before, consuming what there was. */
    method ReadExact(buf: array<Byte>) returns (ok: bool)
      requires Valid()
      modifies this`pos, buf
      ensures Valid() && ok == (buf.Length <= |old(Rest())|)
      ensures ok ==> buf[..] == old(Rest())[..buf.Length] && Rest() == old(Rest())[buf.Length..]
      ensures !ok ==> Rest() == []
    {
      var i := 0;
      ghost var start := Rest();
      while i < buf.Length && pos < |data|
        invariant 0 <= i <= buf.Length && Valid() && i <= |start|
        invariant buf[..i] == start[..i] && Rest() == start[i..]
      {
        assert data[pos] == start[i];
        buf[i] := data[pos];
        assert buf[..i + 1] == buf[..i] + [buf[i]];
        pos, i := pos + 1, i + 1;
      }
      ok := i == buf.Length;
    }

    /** Writes one frame; refuses only what a 32-bit length cannot express. */
    method WriteFrame<M>(codec: Codec<M>, m: M) returns (ok: bool)
      requires Valid()
      modifies this
      ensures Valid() && ok == (|codec.encode(m)| <= 4294967295)
      ensures Rest() == if ok then old(Rest()) + Frame(codec, m) else old(Rest())
    {
      var payload := codec.encode(m);
      if |payload| >= U32 {
        return false;
      }
      WriteAll(Header(|payload|));
      WriteAll(payload);
      ok := true;
    }

    /** Reads one frame. */
    method ReadFrame<M>(codec: Codec<M>) returns (r: ReadResult<M>)
      requires Valid()
      modifies this`pos
      ensures Valid() && Rest() == ReadOne(codec, old(Rest())).1
      ensures var clean := ReadOne(codec, old(Rest())).0; r == if broken then Failing(clean) else clean
    {
      var header := new Byte[4];
      var ok := ReadExact(header);
      if !ok {
        return if broken then Failed else EndOfStream;
      }
      var len := HeaderLength(header[..]);
      if len > MAX_FRAME {
        return TooLarge;
      }
      var payload := new Byte[len];
      ok := ReadExact(payload);
      if !ok {
        return if broken then Failed else Truncated;
      }
      assert payload[..] == old(Rest())[4..][..len];
      match codec.decode(payload[..])
      case Some(m) => r := Message(m);
      case None => r := Undecodable;
    }
  }
}
