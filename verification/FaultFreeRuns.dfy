/**
 Runs in which nothing goes wrong outside the documents themselves, and what a caller can tell from the results
 alone: when the session is stranded, and so when a page is shown.
 */
module FaultFreeRuns {
  import opened Prelude
  import opened Tiles
  import opened Protocol
  import opened WorkerProcess
  import opened ResponseStream
  import opened WorkerChannel
  import opened Session
  import opened SessionRuns
  import Outline
  import TextSearch
  import TileCache

  /** The request an operation puts to the worker, if it comes to that. */
  function Asked(state: State, op: Op): Option<Request> {
    match op
    case OpenFile(content, _, password, _) =>
      if content.None? then None else Some(OpenDocument(content.value, password))
    case Render(page, zoom, rotation, _) =>
      if TileKey(page, FromZoom(zoom), rotation) in state.cache.tiles then None
      else Some(RenderPage(page, ZoomOf(FromZoom(zoom)), rotation))
    case Query(request, _) => Some(request)
    case CloseFile(_) => Some(Request.CloseDocument)
  }

  ghost predicate GoesWell(world: World, state: State, op: Op) {
    Asked(state, op).Some? ==>
      && op.luck == NoFaults(world, state.worker, Held(state), Asked(state, op).value)
      && Workable(world, Held(state), Asked(state, op).value)
  }

  ghost predicate FaultFree(world: World, ops: seq<Op>) {
    ops == [] ||
    (FaultFree(world, ops[..|ops| - 1]) && GoesWell(world, After(world, ops[..|ops| - 1]), ops[|ops| - 1]))
  }

  predicate IsOpen(op: Op) {
    op.OpenFile? && op.content.Some?
  }

  /** Whether the last file that could be read was rejected; false when there has been none. */
  predicate LastOpenRejected(world: World, ops: seq<Op>) {
    if ops == [] then false
    else if IsOpen(ops[|ops| - 1]) then !SessionRuns.Result(world, ops, |ops| - 1).FileOpened?
    else LastOpenRejected(world, ops[..|ops| - 1])
  }

  /** The worker is up and waiting, and has the host's document unless the last open was rejected. */
  ghost predicate Standing(state: State, rejected: bool) {
    && (state.worker.Some? ==> state.worker.value.running && Quiet(state.worker.value))
    && (Held(state).Some? ==> state.worker.Some? && (state.worker.value.document == None <==> rejected))
  }

  lemma OpenStands(world: World, state: State, op: Op, rejected: bool)
    requires Good(world, state) && Standing(state, rejected) && GoesWell(world, state, op) && IsOpen(op)
    ensures var (state', result) := Performed(world, state, op);
            Standing(state', !result.FileOpened?)
  {
    hide Exchanged, Workable, NoFaults, CacheFits, Resendable, Quiet, Idle;
    FaultFreeExchange(world, state.worker, Held(state), OpenDocument(op.content.value, op.password));
  }

  lemma RenderStands(world: World, state: State, op: Op, rejected: bool)
    requires Good(world, state) && Standing(state, rejected) && GoesWell(world, state, op) && op.Render?
    ensures Standing(Performed(world, state, op).0, rejected)
  {
    hide Exchanged, Workable, NoFaults, CacheFits, Resendable, Quiet, Idle, FromZoom, ZoomOf, TileCache.Inserted,
      TileCache.Without, Openable, Handle, Swapped;
    if Asked(state, op).Some? {
      var request := Asked(state, op).value;
      FaultFreeExchange(world, state.worker, Held(state), request);
      ReadsKeepDocument(world, if Stranded(state.worker, Held(state)) then None else Held(state), request);
    }
  }

  lemma QueryStands(world: World, state: State, op: Op, rejected: bool)
    requires Good(world, state) && Standing(state, rejected) && GoesWell(world, state, op)
    requires op.Query? && Reads(op.request)
    ensures Standing(Performed(world, state, op).0, rejected)
  {
    hide Exchanged, Workable, NoFaults, CacheFits, Resendable, Quiet, Idle, Openable, Handle;
    FaultFreeExchange(world, state.worker, Held(state), op.request);
    ReadsKeepDocument(world, if Stranded(state.worker, Held(state)) then None else Held(state), op.request);
  }

  lemma CloseStands(world: World, state: State, op: Op, rejected: bool)
    requires Good(world, state) && Standing(state, rejected) && GoesWell(world, state, op) && op.CloseFile?
    ensures Standing(Performed(world, state, op).0, rejected)
  {
    hide Exchanged, Workable, NoFaults, CacheFits, Resendable, Quiet, Idle, Openable;
    FaultFreeExchange(world, state.worker, Held(state), Request.CloseDocument);
  }

  lemma {:induction false} RunStands(world: World, ops: seq<Op>)
    requires Serialises(world.codec) && (forall op | op in ops :: Allowed(op)) && FaultFree(world, ops)
    ensures Standing(After(world, ops), LastOpenRejected(world, ops))
  {
    hide Good, Standing, GoesWell, Performed, Serialises;
    if ops == [] {
      assert Standing(NewSession, false) by {
        NewSessionStands();
      }
    } else {
      var before, op := ops[..|ops| - 1], ops[|ops| - 1];
      assert op in ops;
      RunStands(world, before);
      RunsStayGood(world, before);
      var state, rejected := After(world, before), LastOpenRejected(world, before);
      match op
      case OpenFile(content, _, _, _) =>
        if content.Some? {
          OpenStands(world, state, op, rejected);
        } else {
          UnreadableChangesNothing(world, state, op);
        }
      case Render(_, _, _, _) => RenderStands(world, state, op, rejected);
      case Query(_, _) => QueryStands(world, state, op, rejected);
      case CloseFile(_) => CloseStands(world, state, op, rejected);
    }
  }

  lemma NewSessionStands()
    ensures Standing(NewSession, false)
  {
  }

  lemma UnreadableChangesNothing(world: World, state: State, op: Op)
    requires op.OpenFile? && op.content.None?
    ensures Performed(world, state, op).0 == state
  {
  }

  /**
   Over runs without faults the session is stranded exactly when a document is open and the last file that could be
   read was rejected: a caller can tell from the results alone.
   */
  lemma StrandedIffLastOpenRejected(world: World, ops: seq<Op>)
    requires Serialises(world.codec) && (forall op | op in ops :: Allowed(op)) && FaultFree(world, ops)
    ensures var state := After(world, ops);
            Stranded(state.worker, Held(state)) <==>
            LastOpened(world, ops).Some? && LastOpenRejected(world, ops)
  {
    hide After, LastOpened, LastOpenRejected, Quiet, Good, Serialises;
    RunStands(world, ops);
    RunsStayGood(world, ops);
  }

  /** And so, at the end of such a run, of a page that is not cached: shown exactly when the last open succeeded. */
  lemma PageIsShownIff(world: World, ops: seq<Op>, page: nat, zoom: Zoom, rotation: int)
    requires Serialises(world.codec) && (forall op | op in ops :: Allowed(op)) && FaultFree(world, ops)
    requires LastOpened(world, ops).Some?
    requires var key := TileKey(page, FromZoom(zoom), rotation);
             && key !in After(world, ops).cache.tiles && world.engine.Some?
             && PageAt(world.engine.value, LastOpened(world, ops).value, key).Some?
             && Workable(world, LastOpened(world, ops), RenderPage(page, ZoomOf(FromZoom(zoom)), rotation))
    ensures var state, request := After(world, ops), RenderPage(page, ZoomOf(FromZoom(zoom)), rotation);
            var luck := NoFaults(world, state.worker, Held(state), request);
            RenderedPage(world, state, page, zoom, rotation, luck).1.PageReady? <==>
            !LastOpenRejected(world, ops)
  {
    hide After, LastOpened, LastOpenRejected, Good, Serialises, RenderedPage, Workable, NoFaults, PageAt, FromZoom,
      ZoomOf, Stranded;
    StrandedIffLastOpenRejected(world, ops);
    RunsStayGood(world, ops);
    FaultFreeRender(world, After(world, ops), page, zoom, rotation);
  }

  // ------------------------------------------------------------ single operations

  /** What a caller gets to see of what the engine says: the value itself, or a refusal. */
  ghost predicate Shows(engine: Engine, doc: Doc, request: Request, result: OpResult) {
    match request
    case PageSize(page) =>
      (match engine.pageSize(doc, page)
       case Ok((w, h)) => result == ReadBack(PageMeasured(w, h))
       case Err(_) => result == Rejected(Refused))
    case ExtractText(page) =>
      (match engine.extractText(doc, page)
       case Ok(text) => result == ReadBack(TextExtracted(text))
       case Err(_) => result == Rejected(Refused))
    case TextLayout(page) =>
      (match engine.characters(doc, page)
       case Ok(chars) =>
         result.ReadBack? && result.response.LayoutFound? &&
         TextSearch.LayoutAnswer(chars, result.response.chars, result.response.layoutTruncated)
       case Err(_) => result == Rejected(Refused))
    case Outline => result == ReadBack(OutlineFound(Outline.OutlineOf(engine.bookmarks(doc))))
    case Search(query, matchCase) =>
      result.ReadBack? && result.response.SearchResults? &&
      TextSearch.SearchAnswer(
        query, engine.matches(doc, query, matchCase), result.response.hits, result.response.truncated)
    case _ => false
  }

  /** Without faults, and unless the session is stranded, a reading request shows what the engine says. */
  lemma FaultFreeQuery(world: World, state: State, request: Request)
    requires Good(world, state) && Held(state).Some? && !Stranded(state.worker, Held(state))
    requires Reads(request) && !request.RenderPage? && Workable(world, Held(state), request)
    ensures world.engine.Some?
    ensures var luck := NoFaults(world, state.worker, Held(state), request);
            Shows(world.engine.value, Held(state).value, request, Queried(world, state, request, luck).1)
  {
    hide Exchanged, Workable, NoFaults, CacheFits, TextSearch.LayoutAnswer, TextSearch.SearchAnswer,
      TextSearch.LayoutOf, TextSearch.SearchOf, Outline.OutlineOf;
    FaultFreeExchange(world, state.worker, Held(state), request);
  }

  /** Without faults, what comes of opening a file, stranded or not: the engine's own verdict. */
  lemma FaultFreeOpen(world: World, state: State, data: seq<Byte>, name: string, password: Option<string>)
    requires Good(world, state) && Workable(world, Held(state), OpenDocument(data, password))
    ensures var luck := NoFaults(world, state.worker, Held(state), OpenDocument(data, password));
            OpenedFile(world, state, data, name, password, luck).1 ==
            if world.engine.None? then Rejected(Refused)
            else
              match world.engine.value.open(Doc(data, password))
              case Opened(pageCount) => FileOpened(DocumentInfo(name, pageCount, password.Some?))
              case PasswordRequired => Rejected(NeedsPassword)
              case OpenFailed(_) => Rejected(Refused)
  {
    hide Exchanged, Workable, NoFaults, CacheFits;
    FaultFreeExchange(world, state.worker, Held(state), OpenDocument(data, password));
  }

  /** Without faults a new worker says what it is: its version, whether it is confined, whether it has an engine. */
  lemma FaultFreeHandshake(world: World)
    requires world.codec.Lawful() && Deliverable(world, None, Handshake)
    ensures Requested(world, FreshLink, Handshake, Prompt(world, None, Handshake)) ==
            (FreshLink, Ok(Ready(world.workerVersion, world.sandboxed, world.engine.Some?)))
  {
    hide Requested, Prompt, TooLong;
    PromptlyAnswered(world, FreshLink, Handshake);
  }

  /** The picture is the bitmap, with red and blue in each other's place. */
  ghost predicate InRgba(bitmap: Tile, picture: Tile) {
    && picture.width == bitmap.width && picture.height == bitmap.height
    && |picture.pixels| == |bitmap.pixels| == 4 * bitmap.width * bitmap.height
    && forall p: nat :: 4 * p + 4 <= |bitmap.pixels| ==> PixelInRgba(bitmap.pixels, picture.pixels, p)
  }

  ghost predicate PixelInRgba(bgra: seq<Byte>, rgba: seq<Byte>, p: nat)
    requires |bgra| == |rgba| && 4 * p + 4 <= |bgra|
  {
    && rgba[4 * p] == bgra[4 * p + 2] && rgba[4 * p + 1] == bgra[4 * p + 1]
    && rgba[4 * p + 2] == bgra[4 * p] && rgba[4 * p + 3] == bgra[4 * p + 3]
  }

  /**
   Whatever happened, a page that is shown is the bitmap the engine makes of the open document's page, at the zoom's
   bucket and the rotation asked for, cached or not, in the canvas's order of colours.
   */
  lemma ShownPagesAreInRgba(world: World, ops: seq<Op>, k: nat)
    requires Serialises(world.codec) && (forall op | op in ops :: Allowed(op)) && k < |ops|
    requires ops[k].Render? && SessionRuns.Result(world, ops, k).PageReady?
    ensures var op, document := ops[k], LastOpened(world, ops[..k]);
            && world.engine.Some? && document.Some?
            && var key := TileKey(op.page, FromZoom(op.zoom), op.rotation);
               var bitmap := Rendered(world.engine.value, document.value, key);
               bitmap.Ok? && InRgba(bitmap.value, SessionRuns.Result(world, ops, k).tile)
  {
    hide LastOpened, Performed, Rendered, FromZoom, Swapped, Serialises, Allowed;
    SessionRefinesLastOpened(world, ops, k);
    var op, document := ops[k], LastOpened(world, ops[..k]);
    var bitmap := Rendered(world.engine.value, document.value, TileKey(op.page, FromZoom(op.zoom), op.rotation)).value;
    FourBytesAPixel(bitmap.width, bitmap.height);
    forall p: nat | 4 * p + 4 <= |bitmap.pixels|
      ensures PixelInRgba(bitmap.pixels, Swapped(bitmap.pixels), p)
    {
      ChannelsChangePlaces(bitmap.pixels, p, 0);
    }
  }
}
