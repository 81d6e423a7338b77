/**
 The framing of the worker channel: a kind byte, a big-endian length, a payload.

 The functions describe what one read or write does to a byte string; the classes are
 the streams of the program, and their methods are proved to do exactly that.
 */
module Framing {
  import opened Prelude

  const MAX_FRAME_BYTES: nat := 256 * 1024 * 1024
  const HEADER_BYTES: nat := 5

  const KIND_MESSAGE: Byte := 0
  const KIND_BLOB: Byte := 1

  /** What a reader asks for. */
  datatype Kind = Message | Blob

  datatype FrameError =
    | TooLarge(declared: nat)
    | Closed
    | Malformed(reason: string)
    | UnknownKind(kind: Byte)
    | WrongKind(expected: Kind, actual: Kind)
    | Io

  // ------------------------------------------------------------------ lengths

  function BigEndian(n: U32): (bytes: seq<Byte>)
    ensures |bytes| == 4
  {
    [n / 0x100_0000, n / 0x1_0000 % 0x100, n / 0x100 % 0x100, n % 0x100]
  }

  function FromBigEndian(bytes: seq<Byte>): U32
    requires |bytes| == 4
  {
    var (a: int, b: int, c: int, d: int) := (bytes[0], bytes[1], bytes[2], bytes[3]);
    a * 0x100_0000 + b * 0x1_0000 + c * 0x100 + d
  }

  lemma DigitsOf(bytes: seq<Byte>, a: Byte, b: Byte, c: Byte, d: Byte)
    requires bytes == [a, b, c, d]
    ensures FromBigEndian(bytes) == a * 0x100_0000 + b * 0x1_0000 + c * 0x100 + d
  {
  }

  lemma LengthRoundTrip(n: U32)
    ensures FromBigEndian(BigEndian(n)) == n
  {
    hide FromBigEndian;
    var high, middle, low := n / 0x100_0000, n / 0x1_0000, n / 0x100;
    assert low / 0x100 == middle && middle / 0x100 == high;
    DigitsOf(BigEndian(n), high, middle % 0x100, low % 0x100, n % 0x100);
  }

  // -------------------------------------------------------- reading and writing

  /** The bytes still to come, and the error a read past them gives: `Closed` or `Io`. */
  datatype Input = Input(bytes: seq<Byte>, dry: FrameError)

  /** A read that runs out takes what was left. */
  function Drained(input: Input): Input {
    Input([], input.dry)
  }

  function After(input: Input, n: nat): Input
    requires n <= |input.bytes|
  {
    Input(input.bytes[n..], input.dry)
  }

  function TakeHeader(input: Input): (Result<(Byte, nat), FrameError>, Input) {
    if |input.bytes| < HEADER_BYTES then
      (Err(input.dry), Drained(input))
    else
      var declared := FromBigEndian(input.bytes[1..5]);
      if declared > MAX_FRAME_BYTES then
        (Err(TooLarge(declared)), After(input, HEADER_BYTES))
      else
        (Ok((input.bytes[0], declared)), After(input, HEADER_BYTES))
  }

  function TakePayload(input: Input, length: nat): (Result<seq<Byte>, FrameError>, Input) {
    if |input.bytes| < length then
      (Err(input.dry), Drained(input))
    else
      (Ok(input.bytes[..length]), After(input, length))
  }

  function KindByte(kind: Kind): Byte {
    match kind
    case Message => KIND_MESSAGE
    case Blob => KIND_BLOB
  }

  /** The error for a frame that is not of the wanted kind. Only a message read tells an unknown kind apart. */
  function KindError(want: Kind, kind: Byte): FrameError {
    match want
    case Message => if kind == KIND_BLOB then WrongKind(Message, Blob) else UnknownKind(kind)
    case Blob => WrongKind(Blob, Message)
  }

  /** One read of a frame of kind `want`. A frame of another kind is refused, payload and all. */
  function TakeFrame(input: Input, want: Kind): (Result<seq<Byte>, FrameError>, Input) {
    var (header, rest) := TakeHeader(input);
    if header.Err? then
      (Err(header.error), rest)
    else
      var (payload, tail) := TakePayload(rest, header.value.1);
      if header.value.0 != KindByte(want) then
        (Err(KindError(want, header.value.0)), tail)
      else
        (payload, tail)
  }

  function Decoded<T>(payload: Result<seq<Byte>, FrameError>, decode: seq<Byte> -> Result<T, string>)
    : Result<T, FrameError>
  {
    match payload
    case Err(error) => Err(error)
    case Ok(bytes) =>
      match decode(bytes)
      case Ok(value) => Ok(value)
      case Err(reason) => Err(Malformed(reason))
  }

  function TakeMessage<T>(input: Input, decode: seq<Byte> -> Result<T, string>): (Result<T, FrameError>, Input) {
    var (payload, tail) := TakeFrame(input, Message);
    (Decoded(payload, decode), tail)
  }

  datatype Frame = Frame(kind: Byte, payload: seq<Byte>) {
    predicate Fits() {
      |payload| <= MAX_FRAME_BYTES
    }
  }

  function Encoded(frame: Frame): (bytes: seq<Byte>)
    requires frame.Fits()
    ensures |bytes| == HEADER_BYTES + |frame.payload|
  {
    [frame.kind] + BigEndian(|frame.payload|) + frame.payload
  }

  // ------------------------------------------------------------------ streams

  class ByteReader {
    var input: Input

    constructor (bytes: seq<Byte>, dry: FrameError)
      ensures input == Input(bytes, dry)
    {
      input := Input(bytes, dry);
    }

    method ReadExact(n: nat) returns (r: Result<seq<Byte>, FrameError>)
      modifies this
      ensures (r, input) == TakePayload(old(input), n)
    {
      if |input.bytes| < n {
        r := Err(input.dry);
        input := input.(bytes := []);
      } else {
        r := Ok(input.bytes[..n]);
        input := input.(bytes := input.bytes[n..]);
      }
    }

    method ReadHeader() returns (r: Result<(Byte, nat), FrameError>)
      modifies this
      ensures (r, input) == TakeHeader(old(input))
    {
      var header := ReadExact(HEADER_BYTES);
      match header {
        case Err(error) => r := Err(error);
        case Ok(bytes) =>
          assert old(input).bytes[1..5] == bytes[1..];
          var declared := FromBigEndian(bytes[1..]);
          if declared > MAX_FRAME_BYTES {
            r := Err(TooLarge(declared));
          } else {
            r := Ok((bytes[0], declared));
          }
      }
    }

    method ReadFrame<T>(decode: seq<Byte> -> Result<T, string>) returns (r: Result<T, FrameError>)
      modifies this
      ensures (r, input) == TakeMessage(old(input), decode)
    {
      var header := ReadHeader();
      if header.Err? {
        return Err(header.error);
      }
      var (kind, declared) := header.value;
      var payload := ReadExact(declared);
      if kind != KIND_MESSAGE {
        return Err(if kind == KIND_BLOB then WrongKind(Message, Blob) else UnknownKind(kind));
      }
      if payload.Err? {
        return Err(payload.error);
      }
      match decode(payload.value) {
        case Ok(value) => r := Ok(value);
        case Err(reason) => r := Err(Malformed(reason));
      }
    }

    method ReadBlob() returns (r: Result<seq<Byte>, FrameError>)
      modifies this
      ensures (r, input) == TakeFrame(old(input), Blob)
    {
      var header := ReadHeader();
      if header.Err? {
        return Err(header.error);
      }
      var (kind, declared) := header.value;
      r := ReadExact(declared);
      if kind != KIND_BLOB {
        r := Err(WrongKind(Blob, Message));
      }
    }
  }

  /** A stream whose other side takes `capacity` bytes before it is gone. */
  class ByteWriter {
    const capacity: nat
    var written: seq<Byte>
    /** Everything the program has tried to write so far. */
    ghost var offered: seq<Byte>

    ghost predicate Valid()
      reads this
    {
      written == offered[..Min(|offered|, capacity)]
    }

    constructor (capacity: nat)
      ensures Valid() && this.capacity == capacity && offered == []
    {
      this.capacity, written, offered := capacity, [], [];
    }

    method WriteAll(bytes: seq<Byte>) returns (ok: bool)
      requires Valid()
      modifies this
      ensures Valid() && offered == old(offered) + bytes
      ensures bytes != [] || |old(offered)| <= capacity ==> (ok <==> |offered| <= capacity)
    {
      var room := capacity - |written|;
      offered := offered + bytes;
      written := written + bytes[..Min(|bytes|, room)];
      ok := |bytes| <= room;
    }

    method WriteHeader(kind: Byte, length: nat) returns (r: Result<(), FrameError>)
      requires Valid()
      modifies this
      ensures Valid()
      ensures length > MAX_FRAME_BYTES ==> r == Err(TooLarge(length)) && offered == old(offered)
      ensures length <= MAX_FRAME_BYTES ==> offered == old(offered) + ([kind] + BigEndian(length))
      ensures length <= MAX_FRAME_BYTES ==> r == if |offered| <= capacity then Ok(()) else Err(Io)
    {
      if length > MAX_FRAME_BYTES {
        return Err(TooLarge(length));
      }
      var ok := WriteAll([kind]);
      if ok {
        ok := WriteAll(BigEndian(length));
      } else {
        Offer(BigEndian(length));
      }
      assert offered == old(offered) + ([kind] + BigEndian(length));
      r := if ok then Ok(()) else Err(Io);
    }

    /** What would have been written had the other side still been there. */
    ghost method Offer(bytes: seq<Byte>)
      requires Valid() && |offered| > capacity
      modifies this`offered
      ensures Valid() && offered == old(offered) + bytes
    {
      offered := offered + bytes;
    }

    /** Once the other side is gone it no longer matters what else is offered. */
    ghost method Restate(bytes: seq<Byte>)
      requires Valid() && |offered| > capacity && |bytes| > capacity
      requires offered[..capacity] == bytes[..capacity]
      modifies this`offered
      ensures Valid() && offered == bytes
    {
      offered := bytes;
    }

    /** The body `write_frame` and `write_blob` share; a frame over the limit leaves nothing on the stream. */
    method WritePayload(frame: Frame) returns (r: Result<(), FrameError>)
      requires Valid()
      modifies this
      ensures Valid()
      ensures !frame.Fits() ==> r == Err(TooLarge(|frame.payload|)) && offered == old(offered)
      ensures frame.Fits() ==> offered == old(offered) + Encoded(frame)
      ensures frame.Fits() ==> r == if |offered| <= capacity then Ok(()) else Err(Io)
    {
      r := WriteHeader(frame.kind, |frame.payload|);
      if r.Ok? {
        var ok := WriteAll(frame.payload);
        r := if ok then Ok(()) else Err(Io);
      } else if r.error.Io? {
        Offer(frame.payload);
      }
      assert frame.Fits() ==> offered == old(offered) + Encoded(frame);
    }

    method WriteFrame(payload: seq<Byte>) returns (r: Result<(), FrameError>)
      requires Valid()
      modifies this
      ensures Valid()
      ensures |payload| > MAX_FRAME_BYTES ==> r == Err(TooLarge(|payload|)) && offered == old(offered)
      ensures |payload| <= MAX_FRAME_BYTES ==> offered == old(offered) + Encoded(Frame(KIND_MESSAGE, payload))
      ensures |payload| <= MAX_FRAME_BYTES ==> r == if |offered| <= capacity then Ok(()) else Err(Io)
    {
      r := WritePayload(Frame(KIND_MESSAGE, payload));
    }

    method WriteBlob(bytes: seq<Byte>) returns (r: Result<(), FrameError>)
      requires Valid()
      modifies this
      ensures Valid()
      ensures |bytes| > MAX_FRAME_BYTES ==> r == Err(TooLarge(|bytes|)) && offered == old(offered)
      ensures |bytes| <= MAX_FRAME_BYTES ==> offered == old(offered) + Encoded(Frame(KIND_BLOB, bytes))
      ensures |bytes| <= MAX_FRAME_BYTES ==> r == if |offered| <= capacity then Ok(()) else Err(Io)
    {
      r := WritePayload(Frame(KIND_BLOB, bytes));
    }
  }

  // -------------------------------------------------------- one frame at a time

  /** What reading a whole frame gives. */
  function Expected(frame: Frame, want: Kind): Result<seq<Byte>, FrameError> {
    if frame.kind == KindByte(want) then Ok(frame.payload) else Err(KindError(want, frame.kind))
  }

  lemma TakesHeader(frame: Frame, bytes: seq<Byte>, dry: FrameError)
    requires frame.Fits() && HEADER_BYTES <= |bytes| && Encoded(frame)[..HEADER_BYTES] == bytes[..HEADER_BYTES]
    ensures TakeHeader(Input(bytes, dry)) == (Ok((frame.kind, |frame.payload|)), Input(bytes[HEADER_BYTES..], dry))
  {
    var header := bytes[..HEADER_BYTES];
    assert header == [frame.kind] + BigEndian(|frame.payload|);
    assert bytes[0] == header[0] == frame.kind;
    assert bytes[1..5] == header[1..] == BigEndian(|frame.payload|);
    LengthRoundTrip(|frame.payload|);
  }

  /** A whole frame is consumed exactly, whether or not it is the kind asked for. */
  lemma TakesWholeFrame(frame: Frame, rest: seq<Byte>, want: Kind, dry: FrameError)
    requires frame.Fits()
    ensures TakeFrame(Input(Encoded(frame) + rest, dry), want) == (Expected(frame, want), Input(rest, dry))
  {
    var bytes := Encoded(frame) + rest;
    assert bytes[..HEADER_BYTES] == Encoded(frame)[..HEADER_BYTES];
    TakesHeader(frame, bytes, dry);
    assert bytes[HEADER_BYTES..] == frame.payload + rest;
    assert (frame.payload + rest)[..|frame.payload|] == frame.payload;
    assert (frame.payload + rest)[|frame.payload|..] == rest;
  }

  /**
   A frame cut short gives the end-of-stream error and nothing is left. The one exception:
   when the header survived and named another kind, the read reports the kind.
   */
  lemma TakesCutFrame(frame: Frame, n: nat, want: Kind, dry: FrameError)
    requires frame.Fits() && n < |Encoded(frame)|
    ensures TakeFrame(Input(Encoded(frame)[..n], dry), want) ==
            (Err(if n < HEADER_BYTES || frame.kind == KindByte(want) then dry else KindError(want, frame.kind)),
             Input([], dry))
  {
    var bytes := Encoded(frame)[..n];
    if n >= HEADER_BYTES {
      assert bytes[..HEADER_BYTES] == Encoded(frame)[..HEADER_BYTES];
      TakesHeader(frame, bytes, dry);
    }
  }

  // ------------------------------------------------------------ whole streams

  ghost predicate AllFit(frames: seq<Frame>) {
    forall i | 0 <= i < |frames| :: frames[i].Fits()
  }

  function EncodedAll(frames: seq<Frame>): (bytes: seq<Byte>)
    requires AllFit(frames)
  {
    if frames == [] then [] else Encoded(frames[0]) + EncodedAll(frames[1..])
  }

  /** Reads one frame for each wanted kind, carrying on after a refused one. */
  function TakeFrames(input: Input, wants: seq<Kind>): (seq<Result<seq<Byte>, FrameError>>, Input)
    decreases |wants|
  {
    if wants == [] then
      ([], input)
    else
      var (first, rest) := TakeFrame(input, wants[0]);
      var (others, tail) := TakeFrames(rest, wants[1..]);
      ([first] + others, tail)
  }

  function ExpectedAll(frames: seq<Frame>, wants: seq<Kind>): seq<Result<seq<Byte>, FrameError>>
    requires |frames| == |wants|
  {
    seq(|frames|, i requires 0 <= i < |frames| => Expected(frames[i], wants[i]))
  }

  /**
   Frames written one after another are read back one after another, every byte accounted for,
   and a read of the wrong kind anywhere leaves the later frames as they were.
   */
  lemma {:induction false} StreamRoundTrip(frames: seq<Frame>, wants: seq<Kind>, rest: seq<Byte>, dry: FrameError)
    requires AllFit(frames) && |frames| == |wants|
    ensures TakeFrames(Input(EncodedAll(frames) + rest, dry), wants) == (ExpectedAll(frames, wants), Input(rest, dry))
  {
    if frames == [] {
      assert EncodedAll(frames) + rest == rest;
    } else {
      var tail := EncodedAll(frames[1..]) + rest;
      assert EncodedAll(frames) + rest == Encoded(frames[0]) + tail;
      TakesWholeFrame(frames[0], tail, wants[0], dry);
      StreamRoundTrip(frames[1..], wants[1..], rest, dry);
      assert ExpectedAll(frames, wants) == [Expected(frames[0], wants[0])] + ExpectedAll(frames[1..], wants[1..]);
    }
  }

  /** How many whole frames the first `n` bytes hold. */
  function WholeFrames(frames: seq<Frame>, n: nat): (count: nat)
    requires AllFit(frames)
    ensures count <= |frames|
  {
    if frames == [] || n < |Encoded(frames[0])| then 0
    else 1 + WholeFrames(frames[1..], n - |Encoded(frames[0])|)
  }

  /** A cut leaves that many frames, and a proper part of the next one. */
  lemma {:induction false} CutFallsInAFrame(frames: seq<Frame>, n: nat)
    requires AllFit(frames) && n < |EncodedAll(frames)|
    ensures var w := WholeFrames(frames, n);
            && w < |frames|
            && var whole := EncodedAll(frames[..w]);
            && |whole| <= n < |whole| + |Encoded(frames[w])|
            && EncodedAll(frames)[..n] == whole + Encoded(frames[w])[..n - |whole|]
  {
    hide Encoded;
    var first := Encoded(frames[0]);
    if n < |first| {
      assert EncodedAll(frames)[..n] == first[..n];
    } else {
      CutFallsInAFrame(frames[1..], n - |first|);
      var w := WholeFrames(frames, n);
      assert frames[..w][1..] == frames[1..][..w - 1] && frames[..w][0] == frames[0];
      assert EncodedAll(frames)[..n] == first + EncodedAll(frames[1..])[..n - |first|];
    }
  }

  lemma {:induction false} TakesFramesInTurn(input: Input, wants: seq<Kind>, more: seq<Kind>)
    ensures var (results, rest) := TakeFrames(input, wants);
            var (others, tail) := TakeFrames(rest, more);
            TakeFrames(input, wants + more) == (results + others, tail)
    decreases |wants|
  {
    if wants == [] {
      assert wants + more == more;
      var others := TakeFrames(input, more).0;
      assert [] + others == others;
    } else {
      var (first, rest) := TakeFrame(input, wants[0]);
      TakesFramesInTurn(rest, wants[1..], more);
      assert (wants + more)[1..] == wants[1..] + more;
      var (results, middle) := TakeFrames(rest, wants[1..]);
      var others := TakeFrames(middle, more).0;
      assert [first] + (results + others) == ([first] + results) + others;
    }
  }

  /**
   A stream cut at any byte yields its whole frames and then the end-of-stream error,
   provided the reader asked for the right kinds.
   */
  lemma CutStream(frames: seq<Frame>, wants: seq<Kind>, n: nat, dry: FrameError)
    requires AllFit(frames) && |frames| == |wants|
    requires forall i | 0 <= i < |frames| :: frames[i].kind == KindByte(wants[i])
    requires n < |EncodedAll(frames)|
    ensures var w := WholeFrames(frames, n);
            && w < |frames|
            && TakeFrames(Input(EncodedAll(frames)[..n], dry), wants[..w + 1]) ==
               (ExpectedAll(frames[..w], wants[..w]) + [Err(dry)], Input([], dry))
  {
    hide Encoded, TakeFrame;
    CutFallsInAFrame(frames, n);
    var w := WholeFrames(frames, n);
    var whole := EncodedAll(frames[..w]);
    var part := Encoded(frames[w])[..n - |whole|];
    StreamRoundTrip(frames[..w], wants[..w], part, dry);
    TakesCutFrame(frames[w], n - |whole|, wants[w], dry);
    TakesFramesInTurn(Input(whole + part, dry), wants[..w], [wants[w]]);
    assert [Err(dry)] + TakeFrames(Input([], dry), [wants[w]][1..]).0 == [Err(dry)];
    assert wants[..w + 1] == wants[..w] + [wants[w]];
  }

  /**
   Whatever the bytes, a read never gives a payload over the limit, and except for an over-limit
   declaration or an end of stream it consumes one header and exactly the declared payload.
   */
  lemma AnyBytesAreBounded(input: Input, want: Kind)
    requires input.dry == Closed || input.dry == Io
    ensures var (r, tail) := TakeFrame(input, want);
            && (r.Ok? ==>
                  && |r.value| <= MAX_FRAME_BYTES
                  && input.bytes == Encoded(Frame(KindByte(want), r.value)) + tail.bytes)
            && tail.dry == input.dry
            && (r.Err? && tail.bytes != [] && !r.error.TooLarge? ==>
                  exists frame: Frame :: frame.Fits() && frame.kind != KindByte(want) &&
                                         input.bytes == Encoded(frame) + tail.bytes)
  {
    var (header, rest) := TakeHeader(input);
    if header.Ok? {
      var (kind, length) := header.value;
      var (payload, tail) := TakePayload(rest, length);
      if payload.Ok? {
        var frame := Frame(kind, payload.value);
        assert input.bytes[..5] == [kind] + BigEndian(length) by { BigEndianOf(input.bytes[1..5]); }
        assert input.bytes == input.bytes[..5] + input.bytes[5..];
        assert frame.Fits() && input.bytes == Encoded(frame) + tail.bytes;
      }
    }
  }

  lemma BigEndianOf(bytes: seq<Byte>)
    requires |bytes| == 4
    ensures BigEndian(FromBigEndian(bytes)) == bytes
  {
    var n: int := FromBigEndian(bytes);
    var a: int, b: int, c: int := bytes[0], bytes[1], bytes[2];
    assert n / 0x100_0000 == a;
    assert n / 0x1_0000 == a * 0x100 + b;
    assert n / 0x100 == a * 0x1_0000 + b * 0x100 + c;
  }

  /** The layout of a frame: its kind, four bytes of length with the high ones first, its payload. */
  lemma FrameLayout(frame: Frame)
    requires frame.Fits()
    ensures var bytes := Encoded(frame);
            var (a: int, b: int, c: int, d: int) := (bytes[1], bytes[2], bytes[3], bytes[4]);
            bytes[0] == frame.kind && ((a * 0x100 + b) * 0x100 + c) * 0x100 + d == |frame.payload| &&
            bytes[5..] == frame.payload
  {
    LengthRoundTrip(|frame.payload|);
    assert Encoded(frame)[1..5] == BigEndian(|frame.payload|);
  }

  /** Which error a frame of the wrong kind gives; only a message read tells an unknown kind from a known one. */
  lemma WrongKinds(payload: seq<Byte>, kind: Byte, dry: FrameError)
    requires |payload| <= MAX_FRAME_BYTES
    ensures var input := Input(Encoded(Frame(kind, payload)), dry);
            && (kind == 1 ==> TakeFrame(input, Message).0 == Err(WrongKind(Message, Blob)))
            && (kind > 1 ==> TakeFrame(input, Message).0 == Err(UnknownKind(kind)))
            && (kind != 1 ==> TakeFrame(input, Blob).0 == Err(WrongKind(Blob, Message)))
  {
    hide Encoded, TakeFrame;
    var frame := Frame(kind, payload);
    assert Encoded(frame) + [] == Encoded(frame);
    TakesWholeFrame(frame, [], Message, dry);
    TakesWholeFrame(frame, [], Blob, dry);
  }
}
