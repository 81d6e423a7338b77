/**
 The worker process: one request at a time, one answer each, pixels as a frame of their own,
 and a refusal in place of an answer that cannot be sent.
 */
module WorkerProcess {
  import opened Bitmaps
  import opened Decimals
  import opened Prelude
  import opened Framing
  import opened Tiles
  import opened Protocol
  import Outline
  import TextSearch

  // ------------------------------------------------------------------- engine

  /** A document as the host can name it: its bytes and the password that opened it. */
  datatype Doc = Doc(data: seq<Byte>, password: Option<string>)

  datatype OpenOutcome = Opened(pageCount: Usize) | PasswordRequired | OpenFailed(reason: string)

  /** The PDF engine: deterministic, and a function of the document. */
  datatype Engine = Engine(
    open: Doc -> OpenOutcome,
    pageSize: (Doc, nat) -> Result<(Single, Single), string>,
    rasterise: (Doc, nat, Edges, int) -> Result<Tile, string>,
    extractText: (Doc, nat) -> Result<string, string>,
    characters: (Doc, nat) -> Result<seq<TextSearch.RawChar>, string>,
    bookmarks: Doc -> Outline.Bookmarks,
    matches: (Doc, string, bool) -> seq<TextSearch.PageMatches>)

  /** The installation the host runs against. */
  datatype World = World(
    codec: Codec,
    engine: Option<Engine>,
    workerVersion: string,
    hostVersion: string,
    sandboxed: bool)

  // ------------------------------------------------------------------- answers

  const NoDocument: Response := Failed(MalformedDocument("no document is open"))
  const EngineMissing: Response := Failed(Unsupported("the PDF engine is not available to this worker"))

  function Answer<T>(outcome: Result<T, string>, wrap: T -> Response): Response {
    match outcome
    case Ok(value) => wrap(value)
    case Err(reason) => Failed(MalformedDocument(reason))
  }

  /** A page at a key: refused when its bitmap would be of an implausible size. */
  function Rendered(engine: Engine, doc: Doc, key: TileKey): Result<Tile, string> {
    match engine.pageSize(doc, key.page)
    case Err(reason) => Err(reason)
    case Ok(size) =>
      match BitmapSize(size.0, size.1, key)
      case Err(_) => Err("refusing to render the page")
      case Ok(edges) => engine.rasterise(doc, key.page, edges, RenderRotation(key.rotation))
  }

  /** What a request that only looks at the open document is answered with. */
  function Reading(engine: Engine, doc: Doc, request: Request): Response
    requires Reads(request)
  {
    match request
    case RenderPage(page, zoom, rotation) =>
      Answer(Rendered(engine, doc, TileKey(page, FromZoom(Finite(zoom)), rotation)),
             (tile: Tile) => PageRendered(tile.width, tile.height, |tile.pixels|, tile.pixels))
    case PageSize(page) =>
      Answer(engine.pageSize(doc, page), (size: (Single, Single)) => PageMeasured(size.0, size.1))
    case ExtractText(page) =>
      Answer(engine.extractText(doc, page), (text: string) => TextExtracted(text))
    case TextLayout(page) =>
      Answer(engine.characters(doc, page),
             (chars: seq<TextSearch.RawChar>) =>
               var (boxes, truncated) := TextSearch.LayoutOf(chars); LayoutFound(boxes, truncated))
    case Outline =>
      OutlineFound(Outline.OutlineOf(engine.bookmarks(doc)))
    case Search(query, matchCase) =>
      var (hits, truncated) := TextSearch.SearchOf(query, engine.matches(doc, query, matchCase));
      SearchResults(hits, truncated)
  }

  predicate Reads(request: Request) {
    request.RenderPage? || request.PageSize? || request.ExtractText? || request.TextLayout? ||
    request.Outline? || request.Search?
  }

  /** One request: the answer, and the document open afterwards. */
  function Handle(world: World, document: Option<Doc>, request: Request): (Response, Option<Doc>) {
    match request
    case Handshake => (Ready(world.workerVersion, world.sandboxed, world.engine.Some?), document)
    case OpenDocument(data, password) =>
      if world.engine.None? then
        (EngineMissing, document)
      else (
        match world.engine.value.open(Doc(data, password))
        case Opened(pageCount) => (DocumentOpened(pageCount, password.Some?, false), Some(Doc(data, password)))
        case PasswordRequired => (Failed(BadPassword), None)
        case OpenFailed(reason) => (Failed(MalformedDocument(reason)), None)
      )
    case CloseDocument => (Done, None)
    case Shutdown => (Done, document)
    case _ =>
      if document.None? || world.engine.None? then (NoDocument, document)
      else (Reading(world.engine.value, document.value, request), document)
  }

  // ------------------------------------------------------------------- sending

  function MessageFrame(codec: Codec, response: Response): Frame {
    Frame(KIND_MESSAGE, codec.encodeResponse(response.Bare()))
  }

  function PixelFrame(response: Response): Frame
    requires response.PageRendered?
  {
    Frame(KIND_BLOB, response.pixels)
  }

  /** The length that keeps a response from being sent, if any. */
  function TooLong(codec: Codec, response: Response): Option<nat> {
    if !MessageFrame(codec, response).Fits() then Some(|MessageFrame(codec, response).payload|)
    else if response.PageRendered? && !PixelFrame(response).Fits() then Some(|response.pixels|)
    else None
  }

  function Refusal(length: nat): Response {
    Failed(MalformedDocument("the result could not be sent: " + Describe(length)))
  }

  const ChannelLost: Response := Failed(MalformedDocument("the result could not be sent: i/o error"))

  function Describe(length: nat): string {
    "frame of " + Decimal(length) + " bytes exceeds the 268435456 byte limit"
  }

  /** The frames that go out before one turns out too long. */
  function SentBytes(codec: Codec, response: Response): seq<Byte> {
    var message := MessageFrame(codec, response);
    if !message.Fits() then []
    else if response.PageRendered? && PixelFrame(response).Fits() then
      Encoded(message) + Encoded(PixelFrame(response))
    else Encoded(message)
  }

  /** What the loop puts on the stream for one answer, and whether it gives up afterwards. */
  datatype Emission = Emission(bytes: seq<Byte>, exits: bool)

  function Emitted(codec: Codec, response: Response): Emission {
    match TooLong(codec, response)
    case None => Emission(SentBytes(codec, response), false)
    case Some(length) =>
      var refusal := MessageFrame(codec, Refusal(length));
      if refusal.Fits() then Emission(SentBytes(codec, response) + Encoded(refusal), false)
      else Emission(SentBytes(codec, response), true)
  }

  // ------------------------------------------------------------------- the loop

  /** Everything the worker writes while reading `input` to its end. */
  function Served(world: World, document: Option<Doc>, input: Input): seq<Byte>
    decreases |input.bytes|
  {
    var (request, rest) := TakeMessage(input, world.codec.decodeRequest);
    if request.Err? || request.value.Shutdown? then []
    else
      var (response, document') := Handle(world, document, request.value);
      var emission := Emitted(world.codec, response);
      if emission.exits then emission.bytes
      else emission.bytes + Served(world, document', rest)
  }

  /** One round of the loop, after `sent`. */
  lemma ServedNext(world: World, document: Option<Doc>, input: Input, sent: seq<Byte>)
    ensures var (request, rest) := TakeMessage(input, world.codec.decodeRequest);
            sent + Served(world, document, input) ==
            if request.Err? || request.value.Shutdown? then sent
            else
              var (response, document') := Handle(world, document, request.value);
              var emission := Emitted(world.codec, response);
              sent + emission.bytes + if emission.exits then [] else Served(world, document', rest)
  {
    hide Handle, Emitted, TakeMessage;
  }

  class Worker {
    const world: World
    var document: Option<Doc>

    constructor (world: World)
      ensures this.world == world && document == None
    {
      this.world, document := world, None;
    }

    method HandleRequest(request: Request) returns (response: Response)
      modifies this
      ensures (response, document) == Handle(world, old(document), request)
    {
      match request {
        case Handshake =>
          response := Ready(world.workerVersion, world.sandboxed, world.engine.Some?);
        case OpenDocument(data, password) =>
          if world.engine.None? {
            return EngineMissing;
          }
          document := None;
          match world.engine.value.open(Doc(data, password)) {
            case Opened(pageCount) =>
              document := Some(Doc(data, password));
              response := DocumentOpened(pageCount, password.Some?, false);
            case PasswordRequired =>
              response := Failed(BadPassword);
            case OpenFailed(reason) =>
              response := Failed(MalformedDocument(reason));
          }
        case CloseDocument =>
          document := None;
          response := Done;
        case Shutdown =>
          response := Done;
        case _ =>
          if document.None? || world.engine.None? {
            return NoDocument;
          }
          response := Reading(world.engine.value, document.value, request);
      }
    }

    /** Stops at the first frame that does not go out. */
    method Send(out: ByteWriter, response: Response) returns (r: Result<(), FrameError>)
      requires out.Valid()
      modifies out
      ensures out.Valid() && out.offered == old(out.offered) + SentBytes(world.codec, response)
      ensures r == if SentBytes(world.codec, response) != [] && out.capacity < |out.offered| then Err(Io)
                   else if TooLong(world.codec, response).Some? then
                     Err(TooLarge(TooLong(world.codec, response).value))
                   else Ok(())
    {
      ghost var start := out.offered;
      var message := world.codec.encodeResponse(response.Bare());
      r := out.WriteFrame(message);
      if |message| <= MAX_FRAME_BYTES && response.PageRendered? {
        ghost var pixels := PixelFrame(response);
        ghost var announced := Encoded(MessageFrame(world.codec, response));
        if pixels.Fits() {
          assert start + (announced + Encoded(pixels)) == start + announced + Encoded(pixels);
        }
        if r.Ok? {
          r := out.WriteBlob(response.pixels);
        } else if pixels.Fits() {
          out.Offer(Encoded(pixels));
        }
      }
    }

    /** Sends the answer, or says that it could not be sent. Ends the loop when not even that goes out. */
    method Reply(out: ByteWriter, response: Response) returns (ended: bool)
      requires out.Valid() && |out.offered| <= out.capacity
      modifies out
      ensures out.Valid() && out.offered == old(out.offered) + Emitted(world.codec, response).bytes
      ensures ended <==> Emitted(world.codec, response).exits || out.capacity < |out.offered|
    {
      hide Encoded, SentBytes, TooLong, Refusal;
      ended := false;
      ghost var target := out.offered + Emitted(world.codec, response).bytes;
      var sent := Send(out, response);
      if sent.Err? {
        ghost var start := out.offered;
        var reason := if sent.error.TooLarge? then Refusal(sent.error.declared) else ChannelLost;
        var refusal := world.codec.encodeResponse(reason.Bare());
        var refused := out.WriteFrame(refusal);
        ended := refused.Err?;
        if sent.error.Io? {
          assert start <= target && start <= out.offered;
          out.Restate(target);
        }
      }
    }

    /** The loop ends with everything written that the stream would take. */
    method Run(stdin: ByteReader, stdout: ByteWriter)
      requires stdout.Valid() && |stdout.offered| <= stdout.capacity
      modifies this, stdin, stdout
      ensures stdout.Valid()
      ensures stdout.offered <= old(stdout.offered) + Served(world, old(document), old(stdin.input))
      ensures |stdout.offered| <= stdout.capacity ==>
                stdout.offered == old(stdout.offered) + Served(world, old(document), old(stdin.input))
    {
      hide Served, Handle, Emitted, TakeMessage;
      ghost var all := stdout.offered + Served(world, document, stdin.input);
      while true
        invariant stdout.Valid() && |stdout.offered| <= stdout.capacity
        invariant all == stdout.offered + Served(world, document, stdin.input)
        decreases |stdin.input.bytes|
      {
        ghost var before, held, sent := stdin.input, document, stdout.offered;
        var request := stdin.ReadFrame(world.codec.decodeRequest);
        ServedNext(world, held, before, sent);
        if request.Err? {
          break;
        }
        ReadingMakesProgress(before, world.codec.decodeRequest);
        if request.value.Shutdown? {
          break;
        }
        var response := HandleRequest(request.value);
        var ended := Reply(stdout, response);
        if ended {
          break;
        }
      }
    }
  }

  lemma ReadingMakesProgress<T>(input: Input, decode: seq<Byte> -> Result<T, string>)
    requires TakeMessage(input, decode).0.Ok?
    ensures |TakeMessage(input, decode).1.bytes| < |input.bytes|
  {
  }
}
