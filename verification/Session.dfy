/**
 The document session: a worker that is replaced when it fails, a tile cache, and the document to restore.

 Each public operation is one atomic call. Everything that can go wrong during a call, in the process, the
 pipes, the reader or the spawn, is its `Luck`; the claims are for every luck.
 */
module Session {
  import opened Prelude
  import opened Tiles
  import opened Protocol
  import opened WorkerProcess
  import opened ResponseStream
  import opened WorkerChannel
  import Framing
  import TileCache

  const CACHE_BUDGET_BYTES: nat := 96 * 1024 * 1024

  datatype DocumentInfo = DocumentInfo(name: string, pageCount: Usize, encrypted: bool)

  datatype HostDocument = HostDocument(info: DocumentInfo, doc: Doc)

  datatype State = State(worker: Option<Link>, cache: TileCache.Cache, document: Option<HostDocument>)

  const NewSession: State := State(None, TileCache.Empty(CACHE_BUDGET_BYTES), None)

  /** The course of one exchange: a first spawn if there is no worker, the first attempt, and the second chance. */
  datatype Luck = Luck(
    spawn: Start, idle: seq<Step>, first: seq<Step>,
    respawn: Start, reopen: seq<Step>, retry: seq<Step>)

  datatype SessionError = NeedsPassword | Refused

  datatype Op =
    | OpenFile(content: Option<seq<Byte>>, name: string, password: Option<string>, luck: Luck)
    | Render(page: nat, zoom: Zoom, rotation: int, luck: Luck)
    | Query(request: Request, luck: Luck)
    | CloseFile(luck: Luck)

  datatype OpResult =
    | FileOpened(info: DocumentInfo)
    | PageReady(tile: Tile)
    | ReadBack(response: Response)
    | FileClosed
    | Rejected(error: SessionError)

  // ------------------------------------------------------------------- exchange

  /** What a replacement worker has open once the session has tried to restore the document. */
  function Restored(world: World, spare: Link, document: Option<Doc>, steps: seq<Step>): Link {
    match document
    case None => spare
    case Some(doc) => Requested(world, spare, OpenDocument(doc.data, doc.password), steps).0
  }

  /** One request: to the worker there is or a new one, and if that fails once more to a replacement. */
  function Exchanged(world: World, worker: Option<Link>, document: Option<Doc>, request: Request, luck: Luck)
    : (Option<Link>, Result<Response, WorkerError>)
  {
    var started := match worker
                   case Some(link) => Ok(SteppedAll(world, link, luck.idle))
                   case None => Spawned(world, luck.spawn);
    match started
    case Err(error) => (None, Err(error))
    case Ok(link) =>
      var (link', reply) := Requested(world, link, request, luck.first);
      match reply
      case Ok(response) => (Some(link'), Ok(response))
      case Err(error) => Retried(world, document, request, luck, error)
  }

  function Retried(world: World, document: Option<Doc>, request: Request, luck: Luck, error: WorkerError)
    : (Option<Link>, Result<Response, WorkerError>)
  {
    match Spawned(world, luck.respawn)
    case Err(failure) => (None, Err(failure))
    case Ok(spare) =>
      var (link, reply) := Requested(world, Restored(world, spare, document, luck.reopen), request, luck.retry);
      (Some(link), match reply case Ok(response) => Ok(response) case Err(_) => Err(error))
  }

  function Held(state: State): Option<Doc> {
    match state.document
    case None => None
    case Some(document) => Some(document.doc)
  }

  // ----------------------------------------------------------------- operations

  function OpenedFile(world: World, state: State, data: seq<Byte>, name: string, password: Option<string>, luck: Luck)
    : (State, OpResult)
  {
    var (worker, reply) := Exchanged(world, state.worker, Held(state), OpenDocument(data, password), luck);
    match reply
    case Ok(DocumentOpened(pageCount, encrypted, _)) =>
      var info := DocumentInfo(name, pageCount, encrypted);
      var current := HostDocument(info, Doc(data, password));
      (State(worker, TileCache.Empty(state.cache.budget), Some(current)), FileOpened(info))
    case Ok(Failed(BadPassword)) => (state.(worker := worker), Rejected(NeedsPassword))
    case _ => (state.(worker := worker), Rejected(Refused))
  }

  function Rgba(tile: Tile): Tile {
    Tile(tile.width, tile.height, Swapped(tile.pixels))
  }

  function RenderedPage(world: World, state: State, page: nat, zoom: Zoom, rotation: int, luck: Luck)
    : (State, OpResult)
  {
    var key := TileKey(page, FromZoom(zoom), rotation);
    var (looked, tile) := TileCache.Got(state.cache, key);
    if tile.Some? then (state.(cache := looked), PageReady(tile.value))
    else
      var request := RenderPage(page, ZoomOf(key.zoom), rotation);
      var (worker, reply) := Exchanged(world, state.worker, Held(state), request, luck);
      match reply
      case Ok(PageRendered(width, height, _, pixels)) =>
        var ready := Tile(width, height, Swapped(pixels));
        (state.(worker := worker, cache := TileCache.Inserted(looked, key, ready).0), PageReady(ready))
      case _ => (state.(worker := worker, cache := looked), Rejected(Refused))
  }

  /** Whether a response is of the kind that answers the request. */
  predicate Answers(request: Request, response: Response) {
    match request
    case RenderPage(_, _, _) => response.PageRendered?
    case PageSize(_) => response.PageMeasured?
    case ExtractText(_) => response.TextExtracted?
    case TextLayout(_) => response.LayoutFound?
    case Outline => response.OutlineFound?
    case Search(_, _) => response.SearchResults?
    case _ => false
  }

  function Queried(world: World, state: State, request: Request, luck: Luck): (State, OpResult) {
    var (worker, reply) := Exchanged(world, state.worker, Held(state), request, luck);
    (state.(worker := worker),
     if reply.Ok? && Answers(request, reply.value) then ReadBack(reply.value) else Rejected(Refused))
  }

  function Shut(world: World, state: State, luck: Luck): State {
    var worker := Exchanged(world, state.worker, Held(state), CloseDocument, luck).0;
    State(worker, TileCache.Empty(state.cache.budget), None)
  }

  function Performed(world: World, state: State, op: Op): (State, OpResult) {
    match op
    case OpenFile(content, name, password, luck) =>
      if content.None? then (state, Rejected(Refused))
      else OpenedFile(world, state, content.value, name, password, luck)
    case Render(page, zoom, rotation, luck) => RenderedPage(world, state, page, zoom, rotation, luck)
    case Query(request, luck) => Queried(world, state, request, luck)
    case CloseFile(luck) => (Shut(world, state, luck), FileClosed)
  }

  /** Only requests that read can be passed through. */
  predicate Allowed(op: Op) {
    op.Query? ==> Reads(op.request) && !op.request.RenderPage?
  }

  // ------------------------------------------------------------------ the class

  class Session {
    const world: World
    const cache: TileCache.TileCache
    var worker: WorkerHandle?
    var document: Option<HostDocument>

    ghost predicate Valid()
      reads this, cache, worker
    {
      cache.Valid() && (worker != null ==> worker.world == world)
    }

    ghost function View(): State
      reads this, cache, worker
    {
      State(if worker == null then None else Some(worker.link), cache.Contents(), document)
    }

    constructor (world: World)
      ensures Valid() && fresh(cache) && View() == NewSession && this.world == world
    {
      this.world := world;
      cache := new TileCache.TileCache(CACHE_BUDGET_BYTES);
      worker := null;
      document := None;
    }

    method Send(request: Request, luck: Luck) returns (r: Result<Response, WorkerError>)
      requires Valid()
      modifies this`worker, worker
      ensures Valid() && (worker == null || worker == old(worker) || fresh(worker))
      ensures (View().worker, r) == Exchanged(world, old(View().worker), Held(old(View())), request, luck)
    {
      hide Requested, SteppedAll, Spawned, TileCache.Sound, TileCache.Total;
      if worker == null {
        var spawned := WorkerHandle.Spawn(world, luck.spawn);
        if spawned.Err? {
          return Err(spawned.error);
        }
        worker := spawned.value;
      } else {
        worker.Wait(luck.idle);
      }
      r := worker.Request(request, luck.first);
      if r.Ok? {
        return;
      }
      var error := r.error;
      worker := null;
      var spawned := WorkerHandle.Spawn(world, luck.respawn);
      if spawned.Err? {
        return Err(spawned.error);
      }
      var replacement := spawned.value;
      if document.Some? {
        var doc := document.value.doc;
        var _ := replacement.Request(OpenDocument(doc.data, doc.password), luck.reopen);
      }
      r := replacement.Request(request, luck.retry);
      worker := replacement;
      if r.Err? {
        r := Err(error);
      }
    }

    method Open(content: Option<seq<Byte>>, name: string, password: Option<string>, luck: Luck)
      returns (r: OpResult)
      requires Valid()
      modifies this, worker, cache
      ensures Valid() && (worker == null || worker == old(worker) || fresh(worker))
      ensures (View(), r) == Performed(world, old(View()), OpenFile(content, name, password, luck))
    {
      hide Exchanged, TileCache.Sound, TileCache.Total;
      if content.None? {
        return Rejected(Refused);
      }
      var reply := Send(OpenDocument(content.value, password), luck);
      match reply {
        case Ok(DocumentOpened(pageCount, encrypted, _)) =>
          var info := DocumentInfo(name, pageCount, encrypted);
          cache.Clear();
          document := Some(HostDocument(info, Doc(content.value, password)));
          r := FileOpened(info);
        case Ok(Failed(BadPassword)) =>
          r := Rejected(NeedsPassword);
        case _ =>
          r := Rejected(Refused);
      }
    }

    method RenderPage(page: nat, zoom: Zoom, rotation: int, luck: Luck) returns (r: OpResult)
      requires Valid()
      modifies this, worker, cache
      ensures Valid() && (worker == null || worker == old(worker) || fresh(worker))
      ensures (View(), r) == Performed(world, old(View()), Render(page, zoom, rotation, luck))
    {
      hide Exchanged, TileCache.Sound, TileCache.Total, TileCache.Inserted, TileCache.Got, FromZoom, ZoomOf, Swapped;
      var key := TileKey(page, FromZoom(zoom), rotation);
      var tile := cache.Get(key);
      if tile.Some? {
        return PageReady(tile.value);
      }
      var reply := Send(Request.RenderPage(page, ZoomOf(key.zoom), rotation), luck);
      match reply {
        case Ok(PageRendered(width, height, _, pixels)) =>
          var ready := Tile(width, height, Swapped(pixels));
          var _ := cache.Insert(key, ready);
          r := PageReady(ready);
        case _ =>
          r := Rejected(Refused);
      }
    }

    /** Page size, text, layout, outline and search differ only in the request and the kind of its answer. */
    method Query(request: Request, luck: Luck) returns (r: OpResult)
      requires Valid()
      modifies this`worker, worker
      ensures Valid() && (worker == null || worker == old(worker) || fresh(worker))
      ensures (View(), r) == Performed(world, old(View()), Op.Query(request, luck))
    {
      hide Exchanged, TileCache.Sound, TileCache.Total;
      var reply := Send(request, luck);
      r := if reply.Ok? && Answers(request, reply.value) then ReadBack(reply.value) else Rejected(Refused);
    }

    method CloseDocument(luck: Luck) returns (r: OpResult)
      requires Valid()
      modifies this, worker, cache
      ensures Valid() && (worker == null || worker == old(worker) || fresh(worker))
      ensures (View(), r) == Performed(world, old(View()), CloseFile(luck))
    {
      var _ := Send(Request.CloseDocument, luck);
      document := None;
      cache.Clear();
      r := FileClosed;
    }
  }
}
