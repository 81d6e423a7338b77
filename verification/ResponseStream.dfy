/** The host's reader: rebuilds responses from the worker's output, pairing each page with its pixels. */
module ResponseStream {
  import opened Prelude
  import opened Framing
  import opened Tiles
  import opened Protocol
  import opened WorkerProcess

  type Item = Result<Response, FrameError>

  /** A page takes the blob that follows it, if that is one of the declared length. */
  function Paired(page: Response, blob: Result<seq<Byte>, FrameError>): Item
    requires page.PageRendered?
  {
    match blob
    case Err(error) => Err(error)
    case Ok(bytes) =>
      if |bytes| == page.byteLen then Ok(page.(pixels := bytes))
      else Err(Malformed("pixel blob of another length than the message declared"))
  }

  /** One round of the reader's loop. */
  function TakeResponse(codec: Codec, input: Input): (Item, Input) {
    var (message, rest) := TakeMessage(input, codec.decodeResponse);
    if message.Ok? && message.value.PageRendered? then
      var (blob, tail) := TakeFrame(rest, Blob);
      (Paired(message.value, blob), tail)
    else
      (message, rest)
  }

  /** Everything the reader queues: responses up to the first error, which it queues too. */
  function Responses(codec: Codec, input: Input): seq<Item>
    decreases |input.bytes|
  {
    var (item, rest) := TakeResponse(codec, input);
    if item.Err? then [item] else [item] + Responses(codec, rest)
  }

  method ReadResponses(codec: Codec, stdout: ByteReader) returns (queue: seq<Item>)
    modifies stdout
    ensures queue == Responses(codec, old(stdout.input))
  {
    hide TakeFrame, Decoded, TakeMessage, Responses;
    queue := [];
    var closed := false;
    ghost var all := Responses(codec, stdout.input);
    while !closed
      invariant all == queue + if closed then [] else Responses(codec, stdout.input)
      decreases !closed, |stdout.input.bytes|
    {
      ghost var before := stdout.input;
      ReadingTakesBytes(codec, before);
      NextResponse(codec, before, queue);
      var frame := stdout.ReadFrame(codec.decodeResponse);
      if frame.Ok? && frame.value.PageRendered? {
        var blob := stdout.ReadBlob();
        frame := Paired(frame.value, blob);
      }
      assert (frame, stdout.input) == TakeResponse(codec, before);
      closed := frame.Err?;
      queue := queue + [frame];
    }
  }

  lemma NextResponse(codec: Codec, input: Input, queue: seq<Item>)
    ensures var (item, rest) := TakeResponse(codec, input);
            queue + Responses(codec, input) ==
            queue + [item] + if item.Err? then [] else Responses(codec, rest)
  {
  }

  lemma ReadingTakesBytes(codec: Codec, input: Input)
    ensures TakeResponse(codec, input).0.Ok? ==> |TakeResponse(codec, input).1.bytes| < |input.bytes|
  {
  }

  // -------------------------------------------------- what one answer becomes

  /** The worker's own pages declare the length of their pixels. */
  predicate DeclaresItsLength(response: Response) {
    response.PageRendered? ==> response.byteLen == |response.pixels|
  }

  /**
   What the host reads for one answer. An answer too long for a message arrives as a refusal;
   a page too long for its blob has already been announced, and the refusal that follows breaks the pairing.
   */
  function Delivered(codec: Codec, response: Response): Item {
    match TooLong(codec, response)
    case None => Ok(response)
    case Some(length) =>
      if !MessageFrame(codec, Refusal(length)).Fits() then Err(Closed)
      else if MessageFrame(codec, response).Fits() then Err(WrongKind(Blob, Message))
      else Ok(Refusal(length))
  }

  lemma TakesMessage(codec: Codec, response: Response, rest: seq<Byte>, dry: FrameError)
    requires codec.Lawful() && MessageFrame(codec, response).Fits()
    ensures TakeMessage(Input(Encoded(MessageFrame(codec, response)) + rest, dry), codec.decodeResponse) ==
            (Ok(response.Bare()), Input(rest, dry))
  {
    TakesWholeFrame(MessageFrame(codec, response), rest, Message, dry);
    assert response.Bare().Bare() == response.Bare();
  }

  /** The reader takes exactly the bytes of one answer and makes of them what `Delivered` says. */
  lemma TakesAnswer(codec: Codec, response: Response, rest: seq<Byte>, dry: FrameError)
    requires codec.Lawful() && DeclaresItsLength(response) && !Emitted(codec, response).exits
    ensures TakeResponse(codec, Input(Emitted(codec, response).bytes + rest, dry)) ==
            (Delivered(codec, response), Input(rest, dry))
  {
    hide Encoded, TakeFrame, Decoded, Describe;
    var message := MessageFrame(codec, response);
    if message.Fits() {
      var tail := if !response.PageRendered? then rest
                  else if PixelFrame(response).Fits() then Encoded(PixelFrame(response)) + rest
                  else Encoded(MessageFrame(codec, Refusal(|response.pixels|))) + rest;
      assert Emitted(codec, response).bytes + rest == Encoded(message) + tail;
      TakesMessage(codec, response, tail, dry);
      if response.PageRendered? {
        var second := if PixelFrame(response).Fits() then PixelFrame(response)
                      else MessageFrame(codec, Refusal(|response.pixels|));
        TakesWholeFrame(second, rest, Blob, dry);
      }
    } else {
      var refusal := Refusal(|message.payload|);
      assert Emitted(codec, response).bytes == Encoded(MessageFrame(codec, refusal));
      TakesMessage(codec, refusal, rest, dry);
    }
  }

  // ------------------------------------------------------------- whole streams

  function EmittedAll(codec: Codec, responses: seq<Response>): seq<Byte> {
    if responses == [] then [] else Emitted(codec, responses[0]).bytes + EmittedAll(codec, responses[1..])
  }

  function AllOk(responses: seq<Response>): seq<Item> {
    seq(|responses|, i requires 0 <= i < |responses| => Ok(responses[i]))
  }

  lemma NothingToRead(codec: Codec, dry: FrameError)
    ensures Responses(codec, Input([], dry)) == [Err(dry)]
  {
  }

  /** Any responses that can be sent are rebuilt exactly, pixels included, and then the end is reported. */
  lemma {:induction false} ResponsesRoundTrip(codec: Codec, responses: seq<Response>, dry: FrameError)
    requires codec.Lawful()
    requires forall i | 0 <= i < |responses| ::
               TooLong(codec, responses[i]).None? && DeclaresItsLength(responses[i])
    ensures Responses(codec, Input(EmittedAll(codec, responses), dry)) == AllOk(responses) + [Err(dry)]
  {
    hide Encoded, TakeFrame, Decoded, SentBytes, TakeResponse, MessageFrame;
    NothingToRead(codec, dry);
    if responses != [] {
      TakesAnswer(codec, responses[0], EmittedAll(codec, responses[1..]), dry);
      ResponsesRoundTrip(codec, responses[1..], dry);
      assert AllOk(responses) == [Ok(responses[0])] + AllOk(responses[1..]);
      assert [Ok(responses[0])] + (AllOk(responses[1..]) + [Err(dry)]) ==
             [Ok(responses[0])] + AllOk(responses[1..]) + [Err(dry)];
    } else {
      assert AllOk(responses) + [Err(dry)] == [Err(dry)];
    }
  }

  /** Whatever bytes arrive, a queued page has the pixels it declared, and no more than a frame of them. */
  lemma {:induction false} QueuedPagesAreWhole(codec: Codec, input: Input)
    ensures forall i | 0 <= i < |Responses(codec, input)| ::
              var item := Responses(codec, input)[i];
              item.Ok? && item.value.PageRendered? ==>
                |item.value.pixels| == item.value.byteLen <= MAX_FRAME_BYTES
    decreases |input.bytes|
  {
    var (item, rest) := TakeResponse(codec, input);
    if item.Ok? {
      QueuedPagesAreWhole(codec, rest);
    }
  }

  /** The page a caller gets has four bytes for every pixel it claims, and fits a frame. */
  lemma AcceptedPagesAreWhole(codec: Codec, input: Input, i: nat)
    requires i < |Responses(codec, input)|
    requires var item := Responses(codec, input)[i];
             item.Ok? && item.value.PageRendered? && item.value.IsSelfConsistent()
    ensures var page := Responses(codec, input)[i].value;
            |page.pixels| == page.byteLen == 4 * page.width * page.height <= MAX_FRAME_BYTES
  {
    hide Responses;
    QueuedPagesAreWhole(codec, input);
    var page := Responses(codec, input)[i].value;
    FourBytesAPixel(page.width, page.height);
  }

  lemma FourBytesAPixel(width: U32, height: U32)
    ensures PixelBytes(width, height).Some? ==> PixelBytes(width, height).value == 4 * width * height
  {
    var area := width * height;
    assert 4 * width * height == 4 * area;
  }

  // ------------------------------------------------- worker and reader together

  ghost predicate Requestable(codec: Codec, request: Request) {
    |codec.encodeRequest(request)| <= MAX_FRAME_BYTES
  }

  function RequestFrames(codec: Codec, requests: seq<Request>): seq<Frame> {
    seq(|requests|, i requires 0 <= i < |requests| => Frame(KIND_MESSAGE, codec.encodeRequest(requests[i])))
  }

  /** What the host should read: one answer a request, up to the first that breaks the channel. */
  function Conversation(world: World, document: Option<Doc>, requests: seq<Request>): seq<Item>
    decreases |requests|
  {
    if requests == [] || requests[0].Shutdown? then [Err(Closed)]
    else
      var (response, document') := Handle(world, document, requests[0]);
      var item := Delivered(world.codec, response);
      if item.Err? then [item] else [item] + Conversation(world, document', requests[1..])
  }

  lemma AnswersDeclareTheirLength(world: World, document: Option<Doc>, request: Request)
    ensures DeclaresItsLength(Handle(world, document, request).0)
  {
  }

  lemma TakesRequest(codec: Codec, request: Request, rest: seq<Byte>, dry: FrameError)
    requires codec.Lawful() && Requestable(codec, request)
    ensures TakeMessage(
              Input(Encoded(Frame(KIND_MESSAGE, codec.encodeRequest(request))) + rest, dry), codec.decodeRequest) ==
            (Ok(request), Input(rest, dry))
  {
    TakesWholeFrame(Frame(KIND_MESSAGE, codec.encodeRequest(request)), rest, Message, dry);
  }

  lemma NothingToServe(world: World, document: Option<Doc>, dry: FrameError)
    ensures Served(world, document, Input([], dry)) == []
  {
  }

  /** When the loop gives up, what it wrote reads as a closed channel. */
  lemma TakesLastWords(codec: Codec, response: Response)
    requires codec.Lawful() && Emitted(codec, response).exits
    ensures TakeResponse(codec, Input(Emitted(codec, response).bytes, Closed)) ==
            (Delivered(codec, response), Input([], Closed))
    ensures Delivered(codec, response) == Err(Closed)
  {
    if MessageFrame(codec, response).Fits() {
      var message := Encoded(MessageFrame(codec, response));
      assert message + [] == message;
      TakesMessage(codec, response, [], Closed);
    }
  }

  /**
   End to end over any list of requests: the worker's output, read by the host, is the answers in order,
   and reading stops at the first one that could not be delivered.
   */
  lemma {:induction false} WorkerAnswersHost(world: World, document: Option<Doc>, requests: seq<Request>)
    requires world.codec.Lawful()
    requires forall request | request in requests :: Requestable(world.codec, request)
    ensures AllFit(RequestFrames(world.codec, requests))
    ensures Responses(world.codec,
                      Input(Served(world, document, Input(EncodedAll(RequestFrames(world.codec, requests)), Closed)),
                            Closed)) ==
            Conversation(world, document, requests)
    decreases |requests|
  {
    hide Encoded, TakeFrame, Decoded, Emitted, Delivered, Handle, TakeResponse;
    var codec := world.codec;
    forall i | 0 <= i < |requests|
      ensures RequestFrames(codec, requests)[i].Fits()
    {
      assert requests[i] in requests && Requestable(codec, requests[i]);
    }
    NothingToRead(codec, Closed);
    if requests == [] {
      NothingToServe(world, document, Closed);
    } else {
      var request := requests[0];
      var frames, later := RequestFrames(codec, requests), RequestFrames(codec, requests[1..]);
      assert frames[1..] == later && frames[0] == Frame(KIND_MESSAGE, codec.encodeRequest(request));
      assert EncodedAll(frames) == Encoded(frames[0]) + EncodedAll(later);
      WorkerAnswersHost(world, Handle(world, document, request).1, requests[1..]);
      assert request in requests && Requestable(codec, request);
      TakesRequest(codec, request, EncodedAll(later), Closed);
      var (response, document') := Handle(world, document, request);
      AnswersDeclareTheirLength(world, document, request);
      if !request.Shutdown? {
        if Emitted(codec, response).exits {
          TakesLastWords(codec, response);
        } else {
          TakesAnswer(codec, response, Served(world, document', Input(EncodedAll(later), Closed)), Closed);
        }
      }
    }
  }
}
