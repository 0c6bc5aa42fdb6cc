/**
 The dedicated reader task of a peer session: it decodes the stream and hands messages to the select loop
 through a bounded channel. Its steps and the loop's interleave freely.
 */
module PeerReader {
  import opened Document
  import opened Framing

  const CAPACITY: nat := 32

  /** What travels through the channel: a message, or the error that ended the stream. */
  datatype Item<+M> = Got(value: M) | Broken

  /**
   `unread` is what the reader has not consumed, `hand` what it holds while the channel is full,
   `handled` what the loop has taken out, in order.
   */
  datatype Pipe<+M> = Pipe(
    unread: Bytes, hand: Option<Item<M>>, channel: seq<Item<M>>, handled: seq<Item<M>>,
    reading: bool, aborted: bool, looping: bool)

  datatype PipeStep =
    | Decode   // the reader finishes a read_frame
    | Send     // the reader's send completes
    | Give     // the reader's send fails: the loop is gone
    | Receive  // the loop takes a message
    | Closed   // the loop finds the channel empty and its sender gone
    | Branch   // another select branch fires: a timer or a wake-up
    | Leave    // the loop ends for another reason, and aborts the reader

  function Begin<M>(stream: Bytes): Pipe<M> {
    Pipe(stream, None, [], [], true, false, true)
  }

  predicate CanPipe<M>(p: Pipe<M>, step: PipeStep) {
    match step
    case Decode => p.reading && p.hand.None?
    case Send => p.reading && p.hand.Some? && |p.channel| < CAPACITY && p.looping
    case Give => p.reading && p.hand.Some? && !p.looping
    case Receive => p.looping && p.channel != []
    case Closed => p.looping && p.channel == [] && !p.reading
    case Branch => p.looping
    case Leave => p.looping
  }

  function DoPipe<M>(codec: Codec<M>, p: Pipe<M>, step: PipeStep): Pipe<M>
    requires CanPipe(p, step)
  {
    match step
    case Decode =>
      var (r, rest) := ReadOne(codec, p.unread);
      (match r
       case Message(m) => p.(unread := rest, hand := Some(Got(m)))
       case EndOfStream => p.(unread := rest, reading := false)
       case _ => p.(unread := rest, hand := Some(Broken)))
    case Send => p.(channel := p.channel + [p.hand.value], hand := None, reading := p.hand.value.Got?)
    case Give => p.(reading := false)
    case Receive => p.(channel := p.channel[1..], handled := p.handled + [p.channel[0]],
                       looping := p.channel[0].Got?)
    case Closed => p.(looping := false)
    case Branch => p
    case Leave => p.(looping := false, reading := false, aborted := true)
  }

  ghost predicate PipeRun<M>(codec: Codec<M>, stream: Bytes, ps: seq<Pipe<M>>, steps: seq<PipeStep>) {
    && |ps| == |steps| + 1 && ps[0] == Begin(stream)
    && forall i :: 0 <= i < |steps| ==> CanPipe(ps[i], steps[i]) && ps[i + 1] == DoPipe(codec, ps[i], steps[i])
  }

  function Wrap<M>(ms: seq<M>): (items: seq<Item<M>>)
    ensures |items| == |ms| && forall i :: 0 <= i < |ms| ==> items[i] == Got(ms[i])
  {
    seq(|ms|, i requires 0 <= i < |ms| => Got(ms[i]))
  }

  /** Everything a stream decodes to: its messages, then the error if there is one. */
  function Decoded<M>(codec: Codec<M>, stream: Bytes): seq<Item<M>> {
    var (ms, last) := ReadAll(codec, stream);
    Wrap(ms) + if last == EndOfStream then [] else [Broken]
  }

  /** What has left the stream, in order. */
  function Passed<M>(p: Pipe<M>): seq<Item<M>> {
    p.handled + p.channel + if p.hand.Some? then [p.hand.value] else []
  }

  /** What has been decoded and what is still to come make up the stream; nothing is lost while reading. */
  ghost predicate InOrder<M>(codec: Codec<M>, stream: Bytes, p: Pipe<M>) {
    && |p.channel| <= CAPACITY
    && Passed(p) <= Decoded(codec, stream)
    && (p.reading && p.hand != Some(Broken) ==> Decoded(codec, stream) == Passed(p) + Decoded(codec, p.unread))
    && (p.hand == Some(Broken) || (!p.reading && !p.aborted && p.looping) ==> Passed(p) == Decoded(codec, stream))
    && (!p.reading && p.looping ==> p.hand.None?)
    && (p.aborted ==> !p.looping)
  }

  lemma DecodedStep<M>(codec: Codec<M>, stream: Bytes)
    ensures var (r, rest) := ReadOne(codec, stream);
      Decoded(codec, stream) == match r
        case Message(m) => [Got(m)] + Decoded(codec, rest)
        case EndOfStream => []
        case _ => [Broken]
  {
    var (r, rest) := ReadOne(codec, stream);
    if r.Message? {
      var (ms, last) := ReadAll(codec, rest);
      assert Wrap([r.value] + ms) == [Got(r.value)] + Wrap(ms);
    }
  }

  lemma DecodeKeepsOrder<M>(codec: Codec<M>, stream: Bytes, p: Pipe<M>)
    requires InOrder(codec, stream, p) && CanPipe(p, Decode)
    ensures InOrder(codec, stream, DoPipe(codec, p, Decode))
  {
    DecodedStep(codec, p.unread);
    var q := DoPipe(codec, p, Decode);
    var all, passed := Decoded(codec, stream), Passed(p);
    assert all == passed + Decoded(codec, p.unread);
    if q.hand.Some? {
      Moved(all, passed, q.hand.value, if q.hand.value.Got? then Decoded(codec, q.unread) else []);
      assert Passed(q) == passed + [q.hand.value];
    } else {
      assert Passed(q) == passed == all;
    }
  }

  lemma Moved<T>(all: seq<T>, passed: seq<T>, x: T, rest: seq<T>)
    requires all == passed + ([x] + rest)
    ensures all == passed + [x] + rest && passed + [x] <= all && (rest == [] ==> all == passed + [x])
  {
  }

  lemma PipeStepKeepsOrder<M>(codec: Codec<M>, stream: Bytes, p: Pipe<M>, step: PipeStep)
    requires InOrder(codec, stream, p) && CanPipe(p, step)
    ensures InOrder(codec, stream, DoPipe(codec, p, step))
  {
    if step.Decode? {
      DecodeKeepsOrder(codec, stream, p);
    } else {
      var q := DoPipe(codec, p, step);
      assert Passed(q) == Passed(p);
    }
  }

  lemma {:induction false} PipeInOrder<M>(codec: Codec<M>, stream: Bytes, ps: seq<Pipe<M>>, steps: seq<PipeStep>,
                                          i: nat)
    requires PipeRun(codec, stream, ps, steps) && i < |ps|
    ensures InOrder(codec, stream, ps[i])
    decreases i
  {
    if i == 0 {
      assert Passed(ps[0]) == [];
    } else {
      PipeInOrder(codec, stream, ps, steps, i - 1);
      PipeStepKeepsOrder(codec, stream, ps[i - 1], steps[i - 1]);
    }
  }

  /**
   No message is lost, duplicated or reordered: in every interleaving the loop has handled a prefix of what
   the stream decodes to, and all of it once it finds the channel closed.
   */
  lemma HandledInOrder<M>(codec: Codec<M>, stream: Bytes, ps: seq<Pipe<M>>, steps: seq<PipeStep>, i: nat)
    requires PipeRun(codec, stream, ps, steps) && i < |ps|
    ensures ps[i].handled <= Decoded(codec, stream) && |ps[i].channel| <= 32
    ensures ps[i].reading && ps[i].looping && ps[i].hand.Some? ==> (CanPipe(ps[i], Send) <==> |ps[i].channel| < 32)
    ensures CanPipe(ps[i], Closed) ==> ps[i].handled == Decoded(codec, stream)
  {
    PipeInOrder(codec, stream, ps, steps, i);
    var p := ps[i];
    assert p.handled <= Passed(p);
  }

  /**
   End to end: whatever the sender wrote, wherever the connection was cut and however the two tasks were
   scheduled, the messages handled are the first ones sent.
   */
  lemma HandledIsPrefixOfSent<M(!new)>(codec: Codec<M>, ms: seq<M>, k: nat, ps: seq<Pipe<M>>, steps: seq<PipeStep>,
                                       i: nat)
    requires RoundTrips(codec) && AllFit(codec, ms) && k <= |Frames(codec, ms)|
    requires PipeRun(codec, Frames(codec, ms)[..k], ps, steps) && i < |ps|
    ensures forall x :: 0 <= x < |ps[i].handled| && ps[i].handled[x].Got? ==>
      x < |ms| && ps[i].handled[x].value == ms[x]
    ensures CanPipe(ps[i], Closed) && k == |Frames(codec, ms)| ==> ps[i].handled == Wrap(ms)
  {
    var stream := Frames(codec, ms)[..k];
    HandledInOrder(codec, stream, ps, steps, i);
    CutStream(codec, ms, k);
    if k == |Frames(codec, ms)| {
      assert stream == Frames(codec, ms);
      FramesRoundTrip(codec, ms);
    }
  }
}
