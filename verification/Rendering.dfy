/** Which of the pages the worker can render can reach the host at all. */
module Rendering {
  import opened Bitmaps
  import opened Prelude
  import opened Tiles
  import opened Protocol
  import opened WorkerProcess
  import opened ResponseStream
  import opened WorkerChannel
  import opened Session
  import opened SessionRuns
  import Framing
  import TileCache

  /** Pixels in the largest bitmap that fits a frame. */
  const SENDABLE_PIXELS: nat := 0x400_0000

  // ------------------------------------------------------- renderable, not sendable

  /**
   The open document's page is not cached, its bitmap is of a plausible size, and the engine makes one of just
   that size, at four bytes a pixel.
   */
  ghost predicate Renderable(world: World, state: State, key: TileKey, edges: Edges) {
    && key !in state.cache.tiles && world.engine.Some? && Held(state).Some?
    && var engine, doc := world.engine.value, Held(state).value;
       var size := engine.pageSize(doc, key.page);
       var bitmap := engine.rasterise(doc, key.page, edges, RenderRotation(key.rotation));
       && size.Ok? && BitmapSize(size.value.0, size.value.1, key) == Ok(edges)
       && bitmap.Ok? && bitmap.value.width == edges.width && bitmap.value.height == edges.height
       && |bitmap.value.pixels| == 4 * edges.width * edges.height
  }

  /** The message that announces a bitmap of this size. */
  function Announcement(edges: Edges): (response: Response)
    requires 0 < edges.width <= MAX_BITMAP_EDGE && 0 < edges.height <= MAX_BITMAP_EDGE
    ensures response.PageRendered?
  {
    PageRendered(edges.width, edges.height, 4 * edges.width * edges.height, [])
  }

  lemma PlausibleEdges(pageWidth: real, pageHeight: real, key: TileKey)
    ensures var size := BitmapSize(pageWidth, pageHeight, key);
            size.Ok? ==> 0 < size.value.width <= MAX_BITMAP_EDGE && 0 < size.value.height <= MAX_BITMAP_EDGE
  {
  }

  lemma OversizedIsNotDelivered(codec: Codec, response: Response)
    requires response.PageRendered? && |response.pixels| > Framing.MAX_FRAME_BYTES
    ensures Delivered(codec, response).Ok? ==> Delivered(codec, response).value.Failed?
    ensures MessageFrame(codec, response).Fits() ==> Delivered(codec, response).Err?
  {
  }

  /** What the worker answers for a renderable page. */
  lemma RenderableAnswer(world: World, state: State, key: TileKey, edges: Edges)
    returns (response: Response)
    requires Renderable(world, state, key, edges)
    ensures 0 < edges.width <= MAX_BITMAP_EDGE && 0 < edges.height <= MAX_BITMAP_EDGE
    ensures response ==
            Reading(world.engine.value, Held(state).value, RenderPage(key.page, ZoomOf(key.zoom), key.rotation))
    ensures response.PageRendered? && response.Bare() == Announcement(edges) && response.IsSelfConsistent()
    ensures |response.pixels| == 4 * edges.width * edges.height
    ensures PageAt(world.engine.value, Held(state).value, key).Some?
  {
    hide BitmapSize, ZoomOf, FromZoom, Swapped;
    var size := world.engine.value.pageSize(Held(state).value, key.page).value;
    PlausibleEdges(size.0, size.1, key);
    BucketRoundTrip(key.zoom);
    AreaFits(edges.width, edges.height);
    response := Reading(world.engine.value, Held(state).value, RenderPage(key.page, ZoomOf(key.zoom), key.rotation));
  }

  lemma AreaFits(width: nat, height: nat)
    requires width <= MAX_BITMAP_EDGE && height <= MAX_BITMAP_EDGE
    ensures width * height <= 400_000_000 && 4 * width * height == width * height * 4
  {
    assert width * height <= width * MAX_BITMAP_EDGE;
  }

  /**
   A page whose bitmap would be over the frame limit is refused whatever happens; and unless the session is
   stranded, asking for it costs the worker and its replacement.
   */
  lemma OversizedPageIsNeverShown(
      world: World, state: State, page: nat, zoom: Zoom, rotation: int, edges: Edges, luck: Luck)
    requires Serialises(world.codec) && Good(world, state)
    requires Renderable(world, state, TileKey(page, FromZoom(zoom), rotation), edges)
    requires edges.width * edges.height > SENDABLE_PIXELS
    ensures 0 < edges.width <= MAX_BITMAP_EDGE && 0 < edges.height <= MAX_BITMAP_EDGE
    ensures var (state', result) := RenderedPage(world, state, page, zoom, rotation, luck);
            && result == Rejected(Refused)
            && (!Stranded(state.worker, Held(state)) && MessageFrame(world.codec, Announcement(edges)).Fits() ==>
                  state'.worker.None? || !state'.worker.value.running)
  {
    hide Exchanged, Idle, TileCache.Sound, Swapped, TileCache.Inserted, Delivered, FromZoom, ZoomOf, PageAt, Reading,
      Renderable;
    var key := TileKey(page, FromZoom(zoom), rotation);
    var request := RenderPage(page, ZoomOf(key.zoom), rotation);
    var answer := RenderableAnswer(world, state, key, edges);
    RenderableIsUncached(world, state, key, edges);
    var held := ExchangeIsAnswered(world, state.worker, Held(state), request, luck);
    OversizedIsNotDelivered(world.codec, answer);
    var reply := Exchanged(world, state.worker, Held(state), request, luck).1;
    if reply.Ok? {
      ReadingIsAnswered(world, held, request, reply.value);
    }
  }

  lemma RenderableIsUncached(world: World, state: State, key: TileKey, edges: Edges)
    requires Renderable(world, state, key, edges)
    ensures key !in state.cache.tiles && world.engine.Some? && Held(state).Some?
  {
  }

  /** Everything but the page's own pixels fits its frame, and host and worker are of one version. */
  ghost predicate Equipped(world: World, request: Request, edges: Edges)
    requires 0 < edges.width <= MAX_BITMAP_EDGE && 0 < edges.height <= MAX_BITMAP_EDGE
  {
    && Serialises(world.codec) && world.workerVersion == world.hostVersion
    && Deliverable(world, None, Handshake)
    && Deliverable(world, None, request)
    && MessageFrame(world.codec, Announcement(edges)).Fits()
  }

  lemma RenderableWorks(world: World, state: State, key: TileKey, edges: Edges)
    requires Renderable(world, state, key, edges) && edges.width * edges.height <= SENDABLE_PIXELS
    requires 0 < edges.width <= MAX_BITMAP_EDGE && 0 < edges.height <= MAX_BITMAP_EDGE
    requires Equipped(world, RenderPage(key.page, ZoomOf(key.zoom), key.rotation), edges)
    ensures key !in state.cache.tiles && world.engine.Some? && Held(state).Some?
    ensures PageAt(world.engine.value, Held(state).value, key).Some?
    ensures Workable(world, Held(state), RenderPage(key.page, ZoomOf(key.zoom), key.rotation))
  {
    hide Serialises, Requestable, Renderable, ZoomOf, PageAt, Reading;
    var answer := RenderableAnswer(world, state, key, edges);
    RenderableIsUncached(world, state, key, edges);
    assert Deliverable(world, Held(state), RenderPage(key.page, ZoomOf(key.zoom), key.rotation));
  }

  /**
   With no faults and the session not stranded, a renderable page is shown if and only if its size, zoom and
   rotation come to a bitmap of at most 2^26 pixels. The renderer's own limit on edges lets through nearly six
   times as many.
   */
  lemma ShownIffSendable(world: World, state: State, page: nat, zoom: Zoom, rotation: int, edges: Edges)
    requires Good(world, state) && !Stranded(state.worker, Held(state))
    requires Renderable(world, state, TileKey(page, FromZoom(zoom), rotation), edges)
    requires 0 < edges.width <= MAX_BITMAP_EDGE && 0 < edges.height <= MAX_BITMAP_EDGE
    requires Equipped(world, RenderPage(page, ZoomOf(FromZoom(zoom)), rotation), edges)
    ensures var request := RenderPage(page, ZoomOf(FromZoom(zoom)), rotation);
            var luck := NoFaults(world, state.worker, Held(state), request);
            RenderedPage(world, state, page, zoom, rotation, luck).1.PageReady? <==>
            edges.width * edges.height <= SENDABLE_PIXELS
  {
    hide Good, NoFaults, RenderedPage, Serialises, OpenReplyFits, Requestable, Renderable, FromZoom, ZoomOf, PageAt,
      Reading;
    var key := TileKey(page, FromZoom(zoom), rotation);
    var request := RenderPage(page, ZoomOf(FromZoom(zoom)), rotation);
    var luck := NoFaults(world, state.worker, Held(state), request);
    var answer := RenderableAnswer(world, state, key, edges);
    RenderableIsUncached(world, state, key, edges);
    if edges.width * edges.height > SENDABLE_PIXELS {
      OversizedPageIsNeverShown(world, state, page, zoom, rotation, edges, luck);
    } else {
      RenderableWorks(world, state, key, edges);
      FaultFreeRender(world, state, page, zoom, rotation);
    }
  }

  /** Such pages exist: about seventeen inches square, at the largest zoom the viewer allows. */
  lemma OversizedPagesExist()
    ensures BitmapSize(1250.0, 1250.0, TileKey(0, FromZoom(Finite(8.0)), 0)) == Ok(Edges(10_000, 10_000))
    ensures 10_000 * 10_000 > SENDABLE_PIXELS
  {
  }
}
