/**
 What a session's answers mean, over every run and every fault: the last document that opened, and the engine.
 And the exact states in which a fault-free request is refused although a document is open.
 */
module SessionRuns {
  import opened Prelude
  import opened Tiles
  import opened Protocol
  import opened WorkerProcess
  import opened ResponseStream
  import opened WorkerChannel
  import opened Session
  import Framing
  import TileCache

  // ------------------------------------------------------------------ invariants

  /** A running worker holds nothing or exactly the host's document: the same bytes, the same password. */
  ghost predicate WorkerFits(worker: Option<Link>, document: Option<Doc>) {
    worker.Some? ==>
      && Idle(worker.value)
      && (worker.value.running ==> worker.value.document == None || worker.value.document == document)
  }

  /** What the host holds did open. */
  ghost predicate Openable(world: World, document: Option<Doc>) {
    document.Some? ==> world.engine.Some? && world.engine.value.open(document.value).Opened?
  }

  /**
   The host has a document, but the next request would be put to a worker that has none: a running one that
   dropped it, or one yet to be spawned. (A worker that has died is different: it is replaced and restored.)
   */
  ghost predicate Stranded(worker: Option<Link>, document: Option<Doc>) {
    document.Some? && (worker.None? || (worker.value.running && worker.value.document == None))
  }

  /** The page a document has at a key, ready for the canvas; none when the engine fails or contradicts itself. */
  function PageAt(engine: Engine, doc: Doc, key: TileKey): Option<Tile> {
    match Rendered(engine, doc, key)
    case Err(_) => None
    case Ok(tile) => if PixelBytes(tile.width, tile.height) == Some(|tile.pixels|) then Some(Rgba(tile)) else None
  }

  /** Every cached tile is the open document's page at its key. */
  ghost predicate CacheFits(world: World, cache: TileCache.Cache, document: Option<Doc>) {
    && TileCache.Sound(cache)
    && forall key | key in cache.tiles ::
         document.Some? && world.engine.Some? &&
         PageAt(world.engine.value, document.value, key) == Some(cache.tiles[key])
  }

  /** The host's document can be sent again, as it was sent to be opened. */
  ghost predicate Resendable(world: World, document: Option<Doc>) {
    document.Some? ==> Requestable(world.codec, OpenDocument(document.value.data, document.value.password))
  }

  ghost predicate Good(world: World, state: State) {
    && WorkerFits(state.worker, Held(state))
    && Openable(world, Held(state)) && Resendable(world, Held(state))
    && CacheFits(world, state.cache, Held(state))
  }

  // -------------------------------------------------------------------- exchange

  lemma RestoredHolds(world: World, start: Start, document: Option<Doc>, steps: seq<Step>)
    requires world.codec.Lawful() && Openable(world, document) && Spawned(world, start).Ok?
    ensures var link := Restored(world, Spawned(world, start).value, document, steps);
            Idle(link) && (link.running ==> link.document == document)
  {
    hide Requested, Spawned, Delivered, Idle;
    var spare := Spawned(world, start).value;
    SpawnedIsIdle(world, start);
    if document.Some? {
      var request := OpenDocument(document.value.data, document.value.password);
      RequestIsAnswered(world, spare, request, steps);
      KilledDoesNotRun(Requested(world, spare, request, steps).0);
      IdleUnfolds(spare);
    }
  }

  lemma KilledDoesNotRun(link: Link)
    requires Idle(link)
    ensures link.killed ==> !link.running
  {
  }

  lemma IdleUnfolds(link: Link)
    requires Idle(link)
    ensures link.running ==> Quiet(link)
  {
  }

  /**
   One exchange: an answer is the one that `held` determines, and `held` is nothing or the host's document;
   it is the host's document unless the session was stranded.
   */
  lemma ExchangeIsAnswered(world: World, worker: Option<Link>, document: Option<Doc>, request: Request, luck: Luck)
    returns (held: Option<Doc>)
    requires world.codec.Lawful() && WorkerFits(worker, document) && Openable(world, document)
    ensures held == None || held == document
    ensures !Stranded(worker, document) ==> held == document
    ensures var (worker', reply) := Exchanged(world, worker, document, request, luck);
            && (worker'.Some? ==> Idle(worker'.value))
            && (reply.Err? ==> worker'.None? || !worker'.value.running)
            && (reply.Ok? ==>
                  && worker'.Some? && Requestable(world.codec, request)
                  && WorkerChannel.Outcome(world, held, request) == Ok(reply.value)
                  && reply.value.IsSelfConsistent()
                  && (worker'.value.running ==> worker'.value.document == Handle(world, held, request).1))
  {
    hide Requested, Spawned, Idle, WorkerChannel.Outcome, Handle, SteppedAll, Restored, Response.IsSelfConsistent;
    var started := match worker
                   case Some(link) => Ok(SteppedAll(world, link, luck.idle))
                   case None => Spawned(world, luck.spawn);
    held := document;
    if worker.Some? {
      IdleStaysIdle(world, worker.value, luck.idle);
    } else if started.Ok? {
      SpawnedIsIdle(world, luck.spawn);
    }
    if started.Ok? {
      var link := started.value;
      RequestIsAnswered(world, link, request, luck.first);
      var (link', reply) := Requested(world, link, request, luck.first);
      KilledDoesNotRun(link');
      if reply.Ok? {
        held := link.document;
      } else if Spawned(world, luck.respawn).Ok? {
        RestoredHolds(world, luck.respawn, document, luck.reopen);
        var restored := Restored(world, Spawned(world, luck.respawn).value, document, luck.reopen);
        RequestIsAnswered(world, restored, request, luck.retry);
        KilledDoesNotRun(Requested(world, restored, request, luck.retry).0);
      }
    }
  }

  /** A reading request keeps the worker's document, and only a worker that has one answers it in kind. */
  lemma ReadingIsAnswered(world: World, held: Option<Doc>, request: Request, response: Response)
    requires Reads(request) && WorkerChannel.Outcome(world, held, request) == Ok(response)
    ensures Handle(world, held, request).1 == held
    ensures Answers(request, response) ==>
              held.Some? && world.engine.Some? && response == Reading(world.engine.value, held.value, request)
  {
  }

  lemma DeliveredIsAnswerOrRefusal(codec: Codec, answer: Response, response: Response)
    requires Delivered(codec, answer) == Ok(response)
    ensures response == answer || (response.Failed? && response.error.MalformedDocument?)
  {
  }

  /**
   Recovery: unless the session is stranded, a reading request that is answered at all is answered from the
   host's document, whether or not the first attempt died, and the worker then holds that document.
   */
  lemma ReadsRecover(world: World, worker: Option<Link>, document: Option<Doc>, request: Request, luck: Luck)
    requires world.codec.Lawful() && WorkerFits(worker, document) && Openable(world, document)
    requires Reads(request) && !Stranded(worker, document)
    ensures var (worker', reply) := Exchanged(world, worker, document, request, luck);
            reply.Ok? ==>
              && WorkerChannel.Outcome(world, document, request) == Ok(reply.value)
              && worker'.Some?
              && (worker'.value.running ==> worker'.value.document == document)
              && !Stranded(worker', document)
  {
    hide Exchanged, WorkerChannel.Outcome, Handle, Idle, Response.IsSelfConsistent, Quiet;
    var held := ExchangeIsAnswered(world, worker, document, request, luck);
    var (worker', reply) := Exchanged(world, worker, document, request, luck);
    if reply.Ok? {
      ReadingIsAnswered(world, held, request, reply.value);
    }
  }

  // ------------------------------------------------------------------- refinement

  /** The reply to an open is not a quarter of a gigabyte. */
  ghost predicate OpenReplyFits(codec: Codec) {
    forall pageCount: Usize, encrypted, signed ::
      |codec.encodeResponse(DocumentOpened(pageCount, encrypted, signed))| <= Framing.MAX_FRAME_BYTES
  }

  ghost predicate Serialises(codec: Codec) {
    codec.Lawful() && OpenReplyFits(codec)
  }

  /** The answer to an operation, judged by the last document that opened. */
  ghost predicate Faithful(world: World, document: Option<Doc>, op: Op, result: OpResult) {
    match result
    case FileOpened(info) =>
      && op.OpenFile? && op.content.Some? && world.engine.Some?
      && world.engine.value.open(Doc(op.content.value, op.password)) == OpenOutcome.Opened(info.pageCount)
      && info.name == op.name && info.encrypted == op.password.Some?
    case PageReady(tile) =>
      && op.Render? && document.Some? && world.engine.Some?
      && PageAt(world.engine.value, document.value, TileKey(op.page, FromZoom(op.zoom), op.rotation)) == Some(tile)
    case ReadBack(response) =>
      && op.Query? && Reads(op.request) && document.Some? && world.engine.Some?
      && response == Reading(world.engine.value, document.value, op.request)
    case FileClosed => op.CloseFile?
    case Rejected(NeedsPassword) =>
      && op.OpenFile? && op.content.Some? && world.engine.Some?
      && world.engine.value.open(Doc(op.content.value, op.password)) == PasswordRequired
    case Rejected(Refused) => !op.CloseFile?
  }

  /** The document an operation leaves open: a function of the operation and whether it succeeded. */
  function Leaves(document: Option<Doc>, op: Op, result: OpResult): Option<Doc> {
    if op.OpenFile? && op.content.Some? && result.FileOpened? then Some(Doc(op.content.value, op.password))
    else if op.CloseFile? then None
    else document
  }

  lemma OpenStep(world: World, state: State, data: seq<Byte>, name: string, password: Option<string>, luck: Luck)
    requires Serialises(world.codec) && Good(world, state)
    ensures var op := OpenFile(Some(data), name, password, luck);
            var (state', result) := Performed(world, state, op);
            Good(world, state') && Faithful(world, Held(state), op, result) &&
            Held(state') == Leaves(Held(state), op, result)
  {
    hide Exchanged, Delivered, Idle, Response.IsSelfConsistent, TileCache.Sound, PageAt;
    var request := OpenDocument(data, password);
    var held := ExchangeIsAnswered(world, state.worker, Held(state), request, luck);
    var (worker', reply) := Exchanged(world, state.worker, Held(state), request, luck);
    if reply.Ok? {
      DeliveredIsAnswerOrRefusal(world.codec, Handle(world, held, request).0, reply.value);
    }
    TileCache.EmptyIsSound(state.cache.budget);
    if Handle(world, held, request).0.DocumentOpened? {
      OpenReplyIsDelivered(world.codec, Handle(world, held, request).0);
    }
  }

  lemma OpenReplyIsDelivered(codec: Codec, response: Response)
    requires OpenReplyFits(codec) && response.DocumentOpened?
    ensures Delivered(codec, response) == Ok(response)
  {
  }

  lemma RenderStep(world: World, state: State, page: nat, zoom: Zoom, rotation: int, luck: Luck)
    requires Serialises(world.codec) && Good(world, state)
    ensures var op := Render(page, zoom, rotation, luck);
            var (state', result) := Performed(world, state, op);
            Good(world, state') && Faithful(world, Held(state), op, result) &&
            Held(state') == Leaves(Held(state), op, result)
  {
    hide Exchanged, WorkerChannel.Outcome, Idle, Handle, TileCache.Sound, Swapped, TileCache.Inserted;
    var key := TileKey(page, FromZoom(zoom), rotation);
    TileCache.GotIsSound(state.cache, key);
    if key !in state.cache.tiles {
      var request := RenderPage(page, ZoomOf(key.zoom), rotation);
      BucketRoundTrip(key.zoom);
      var held := ExchangeIsAnswered(world, state.worker, Held(state), request, luck);
      var reply := Exchanged(world, state.worker, Held(state), request, luck).1;
      if reply.Ok? {
        ReadingIsAnswered(world, held, request, reply.value);
        if reply.value.PageRendered? {
          var ready := Tile(reply.value.width, reply.value.height, Swapped(reply.value.pixels));
          RenderedPageIsPageAt(world.engine.value, held.value, key, reply.value);
          InsertedFits(world, state.cache, Held(state), key, ready);
        }
      }
    }
  }

  lemma RenderedPageIsPageAt(engine: Engine, doc: Doc, key: TileKey, response: Response)
    requires FromZoom(Finite(ZoomOf(key.zoom))) == key.zoom
    requires response == Reading(engine, doc, RenderPage(key.page, ZoomOf(key.zoom), key.rotation))
    requires response.PageRendered? && response.IsSelfConsistent()
    ensures PageAt(engine, doc, key) == Some(Tile(response.width, response.height, Swapped(response.pixels)))
  {
  }

  lemma InsertedFits(world: World, cache: TileCache.Cache, document: Option<Doc>, key: TileKey, tile: Tile)
    requires CacheFits(world, cache, document)
    requires document.Some? && world.engine.Some? && PageAt(world.engine.value, document.value, key) == Some(tile)
    ensures CacheFits(world, TileCache.Inserted(cache, key, tile).0, document)
  {
    hide TileCache.Sound, PageAt, TileCache.Fit, TileCache.Without, TileCache.Sizes;
    TileCache.InsertedIsSound(cache, key, tile);
  }

  lemma QueryStep(world: World, state: State, request: Request, luck: Luck)
    requires Serialises(world.codec) && Good(world, state) && Reads(request)
    ensures var op := Op.Query(request, luck);
            var (state', result) := Performed(world, state, op);
            Good(world, state') && Faithful(world, Held(state), op, result) &&
            Held(state') == Leaves(Held(state), op, result)
  {
    hide Exchanged, WorkerChannel.Outcome, Idle, Handle, TileCache.Sound, CacheFits, Reading;
    var held := ExchangeIsAnswered(world, state.worker, Held(state), request, luck);
    var reply := Exchanged(world, state.worker, Held(state), request, luck).1;
    if reply.Ok? {
      ReadingIsAnswered(world, held, request, reply.value);
    }
  }

  lemma CloseStep(world: World, state: State, luck: Luck)
    requires Serialises(world.codec) && Good(world, state)
    ensures var op := CloseFile(luck);
            var (state', result) := Performed(world, state, op);
            Good(world, state') && Faithful(world, Held(state), op, result) &&
            Held(state') == Leaves(Held(state), op, result)
  {
    hide Exchanged, WorkerChannel.Outcome, Idle, TileCache.Sound;
    var held := ExchangeIsAnswered(world, state.worker, Held(state), CloseDocument, luck);
    TileCache.EmptyIsSound(state.cache.budget);
  }

  lemma EveryStep(world: World, state: State, op: Op)
    requires Serialises(world.codec) && Good(world, state) && Allowed(op)
    ensures var (state', result) := Performed(world, state, op);
            Good(world, state') && Faithful(world, Held(state), op, result) &&
            Held(state') == Leaves(Held(state), op, result)
  {
    hide Good, OpenedFile, RenderedPage, Queried, Shut;
    match op
    case OpenFile(content, name, password, luck) =>
      if content.Some? {
        OpenStep(world, state, content.value, name, password, luck);
      }
    case Render(page, zoom, rotation, luck) => RenderStep(world, state, page, zoom, rotation, luck);
    case Query(request, luck) => QueryStep(world, state, request, luck);
    case CloseFile(luck) => CloseStep(world, state, luck);
  }

  // ------------------------------------------------------------------------ runs

  function After(world: World, ops: seq<Op>): State {
    if ops == [] then NewSession else Performed(world, After(world, ops[..|ops| - 1]), ops[|ops| - 1]).0
  }

  function Result(world: World, ops: seq<Op>, k: nat): OpResult
    requires k < |ops|
  {
    Performed(world, After(world, ops[..k]), ops[k]).1
  }

  /** The last document that opened and has not been closed, read off the results alone. */
  function LastOpened(world: World, ops: seq<Op>): Option<Doc> {
    if ops == [] then None
    else
      var last := |ops| - 1;
      Leaves(LastOpened(world, ops[..last]), ops[last], Result(world, ops, last))
  }

  lemma {:induction false} RunsStayGood(world: World, ops: seq<Op>)
    requires Serialises(world.codec) && forall op | op in ops :: Allowed(op)
    ensures Good(world, After(world, ops)) && Held(After(world, ops)) == LastOpened(world, ops)
  {
    hide Performed, Good, Allowed, Leaves, Held, Faithful;
    if ops == [] {
      NewSessionIsGood(world);
    } else {
      var before := ops[..|ops| - 1];
      RunsStayGood(world, before);
      assert ops[|ops| - 1] in ops;
      EveryStep(world, After(world, before), ops[|ops| - 1]);
    }
  }

  lemma NewSessionIsGood(world: World)
    ensures Good(world, NewSession) && Held(NewSession) == None
  {
  }

  /**
   The refinement: over every run, whatever dies, times out or fails to spawn, each answer is right for the
   last document that opened, cached or not, and with none open nothing is cached.
   */
  lemma SessionRefinesLastOpened(world: World, ops: seq<Op>, k: nat)
    requires Serialises(world.codec) && (forall op | op in ops :: Allowed(op)) && k < |ops|
    ensures Faithful(world, LastOpened(world, ops[..k]), ops[k], Result(world, ops, k))
    ensures LastOpened(world, ops[..k]).None? ==> After(world, ops[..k]).cache.tiles == map[]
  {
    hide Performed, Good, Leaves, Allowed, Faithful;
    assert forall op | op in ops[..k] :: op in ops;
    RunsStayGood(world, ops[..k]);
    assert ops[k] in ops;
    EveryStep(world, After(world, ops[..k]), ops[k]);
    NothingCachedForNothing(world, After(world, ops[..k]));
  }

  lemma NothingCachedForNothing(world: World, state: State)
    requires Good(world, state)
    ensures Held(state).None? ==> state.cache.tiles == map[]
  {
  }

  // --------------------------------------------------------------- without faults

  /** A course of events in which every process starts, answers promptly, and nothing dies. */
  function NoFaults(world: World, worker: Option<Link>, document: Option<Doc>, request: Request): Luck {
    var start := Start(true, Prompt(world, None, Handshake));
    var holding := if worker.Some? && worker.value.running then worker.value.document else None;
    var reopen := match document
                  case None => []
                  case Some(doc) => Prompt(world, None, OpenDocument(doc.data, doc.password));
    Luck(start, [], Prompt(world, holding, request), start, reopen, Prompt(world, document, request))
  }

  /** The request fits its frame and so does its answer, which does not contradict itself. */
  ghost predicate Deliverable(world: World, document: Option<Doc>, request: Request) {
    var response := Handle(world, document, request).0;
    && Requestable(world.codec, request) && !request.Shutdown?
    && TooLong(world.codec, response).None? && response.IsSelfConsistent()
  }

  /** The installation works, and messages fit: a handshake, the request and its answers. */
  ghost predicate Workable(world: World, document: Option<Doc>, request: Request) {
    && Serialises(world.codec) && world.workerVersion == world.hostVersion
    && Deliverable(world, None, Handshake)
    && Deliverable(world, None, request) && Deliverable(world, document, request)
  }

  /** The general fact about prompt requests, for answers sent whole. */
  lemma PromptlyAnswered(world: World, link: Link, request: Request)
    requires world.codec.Lawful() && link.running && Quiet(link)
    requires Deliverable(world, link.document, request)
    ensures var (response, document) := Handle(world, link.document, request);
            Requested(world, link, request, Prompt(world, link.document, request)) ==
            (link.(document := document), Ok(response))
  {
    hide Requested, TooLong, Prompt, Handle, Response.IsSelfConsistent, Quiet;
    PromptRequestSucceeds(world, link, request);
  }

  lemma PromptSpawn(world: World)
    requires world.codec.Lawful() && world.workerVersion == world.hostVersion
    requires Deliverable(world, None, Handshake)
    ensures Spawned(world, Start(true, Prompt(world, None, Handshake))) == Ok(FreshLink)
  {
    hide Requested, TooLong, Prompt;
    PromptlyAnswered(world, FreshLink, Handshake);
  }

  lemma PromptRestore(world: World, doc: Doc)
    requires Serialises(world.codec) && Openable(world, Some(doc))
    requires Requestable(world.codec, OpenDocument(doc.data, doc.password))
    ensures Restored(world, FreshLink, Some(doc), Prompt(world, None, OpenDocument(doc.data, doc.password))) ==
            FreshLink.(document := Some(doc))
  {
    hide Requested, Prompt;
    var request := OpenDocument(doc.data, doc.password);
    OpenReplyIsSentWhole(world.codec, Handle(world, None, request).0);
    PromptlyAnswered(world, FreshLink, request);
  }

  lemma OpenReplyIsSentWhole(codec: Codec, response: Response)
    requires OpenReplyFits(codec) && response.DocumentOpened?
    ensures TooLong(codec, response).None?
  {
  }

  /** There is a worker, and the request put to it comes to nothing. */
  ghost predicate FirstAttemptFails(world: World, worker: Option<Link>, request: Request, luck: Luck) {
    match worker
    case Some(link) => Requested(world, SteppedAll(world, link, luck.idle), request, luck.first).1.Err?
    case None =>
      match Spawned(world, luck.spawn)
      case Err(_) => false
      case Ok(link) => Requested(world, link, request, luck.first).1.Err?
  }

  /**
   The second chance: however the first attempt failed, if the replacement starts and answers promptly, the reply
   is the one the host's document determines, and the replacement is left with what that request leaves open.
   */
  lemma SecondChanceSucceeds(
      world: World, worker: Option<Link>, document: Option<Doc>, request: Request, luck: Luck)
    requires Openable(world, document) && Resendable(world, document) && Workable(world, document, request)
    requires FirstAttemptFails(world, worker, request, luck)
    requires var prompt := NoFaults(world, worker, document, request);
             luck.respawn == prompt.respawn && luck.reopen == prompt.reopen && luck.retry == prompt.retry
    ensures var (response, document') := Handle(world, document, request);
            Exchanged(world, worker, document, request, luck) ==
            (Some(FreshLink.(document := document')), Ok(response))
    ensures Reads(request) ==> Handle(world, document, request).1 == document
  {
    hide Requested, Prompt, Handle, Spawned, Restored, TooLong, Response.IsSelfConsistent, Requestable,
      Serialises, OpenReplyFits, SteppedAll;
    SerialisesIsLawful(world.codec);
    PromptSpawn(world);
    if document.Some? {
      PromptRestore(world, document.value);
    } else {
      RestoresNothing(world, FreshLink, []);
    }
    PromptlyAnswered(world, FreshLink.(document := document), request);
    ReadsKeepDocument(world, document, request);
  }

  lemma ReadsKeepDocument(world: World, document: Option<Doc>, request: Request)
    ensures Reads(request) ==> Handle(world, document, request).1 == document
    ensures Reads(request) && document.None? ==> Handle(world, document, request).0 == NoDocument
  {
  }

  /** With no faults a request is answered, from the host's document or, if the session is stranded, from nothing. */
  lemma FaultFreeExchange(world: World, worker: Option<Link>, document: Option<Doc>, request: Request)
    requires WorkerFits(worker, document) && Openable(world, document) && Resendable(world, document)
    requires Workable(world, document, request)
    ensures var held := if Stranded(worker, document) then None else document;
            var luck := NoFaults(world, worker, document, request);
            var (worker', reply) := Exchanged(world, worker, document, request, luck);
            var (response, document') := Handle(world, held, request);
            && reply == Ok(response)
            && worker'.Some? && worker'.value.running && Quiet(worker'.value)
            && worker'.value.document == document'
  {
    hide Requested, Prompt, Handle, Spawned, Restored, TooLong, Response.IsSelfConsistent, Requestable,
      Serialises, OpenReplyFits;
    SerialisesIsLawful(world.codec);
    PromptSpawn(world);
    if worker.None? {
      PromptlyAnswered(world, FreshLink, request);
    } else if worker.value.running {
      PromptlyAnswered(world, worker.value, request);
    } else {
      DeadLinkFails(world, worker.value, request, Prompt(world, None, request));
      SecondChanceSucceeds(world, worker, document, request, NoFaults(world, worker, document, request));
    }
  }

  lemma SerialisesIsLawful(codec: Codec)
    requires Serialises(codec)
    ensures codec.Lawful() && OpenReplyFits(codec)
  {
  }

  lemma RestoresNothing(world: World, link: Link, steps: seq<Step>)
    ensures Restored(world, link, None, steps) == link
  {
  }

  lemma {:induction false} DeadStaysDead(world: World, link: Link, steps: seq<Step>)
    requires !link.running
    ensures !SteppedAll(world, link, steps).running
    decreases |steps|
  {
    if steps != [] {
      DeadStaysDead(world, Stepped(world, link, steps[0]), steps[1..]);
    }
  }

  lemma DeadLinkFails(world: World, link: Link, request: Request, steps: seq<Step>)
    requires !link.running
    ensures Requested(world, link, request, steps).1.Err?
  {
  }

  /**
   The exact condition for an uncached page: with no faults, and a page the engine can render, the session
   shows it if and only if it is not stranded.
   */
  lemma FaultFreeRender(world: World, state: State, page: nat, zoom: Zoom, rotation: int)
    requires Good(world, state) && Held(state).Some?
    requires var key := TileKey(page, FromZoom(zoom), rotation);
             var request := RenderPage(page, ZoomOf(FromZoom(zoom)), rotation);
             && key !in state.cache.tiles
             && PageAt(world.engine.value, Held(state).value, key).Some?
             && Workable(world, Held(state), request)
    ensures var request := RenderPage(page, ZoomOf(FromZoom(zoom)), rotation);
            var luck := NoFaults(world, state.worker, Held(state), request);
            var result := RenderedPage(world, state, page, zoom, rotation, luck).1;
            && (result.PageReady? <==> !Stranded(state.worker, Held(state)))
            && (result.PageReady? || result == Rejected(Refused))
  {
    hide Exchanged, Workable, TileCache.Inserted, Swapped, TileCache.Sound, NoFaults;
    var key := TileKey(page, FromZoom(zoom), rotation);
    BucketRoundTrip(key.zoom);
    FaultFreeExchange(world, state.worker, Held(state), RenderPage(page, ZoomOf(FromZoom(zoom)), rotation));
  }

  /**
   How a session comes to be stranded without any fault: open a file that does not open. The session still
   reports the old document, and the worker has dropped it.
   */
  lemma FailedOpenStrands(world: World, state: State, data: seq<Byte>, name: string, password: Option<string>)
    requires Good(world, state) && Held(state).Some?
    requires !world.engine.value.open(Doc(data, password)).Opened?
    requires Workable(world, Held(state), OpenDocument(data, password))
    ensures var luck := NoFaults(world, state.worker, Held(state), OpenDocument(data, password));
            var (state', result) := OpenedFile(world, state, data, name, password, luck);
            && result.Rejected? && state'.document == state.document && state'.cache == state.cache
            && Stranded(state'.worker, Held(state'))
  {
    hide Exchanged, Workable, NoFaults, CacheFits;
    FaultFreeExchange(world, state.worker, Held(state), OpenDocument(data, password));
  }

  /**
   And with two faults in a row: the worker dies and its replacement does not start. The next worker starts and
   answers without fault, but it is never sent the document, and a read gets the answer for none.
   */
  lemma LostReplacementStrands(
      world: World, link: Link, document: Doc, request: Request, luck: Luck, next: Request)
    requires !link.running && !luck.respawn.starts
    requires Openable(world, Some(document)) && Resendable(world, Some(document))
    requires Workable(world, Some(document), next)
    ensures var (worker', reply) := Exchanged(world, Some(link), Some(document), request, luck);
            reply.Err? && worker' == None && Stranded(worker', Some(document))
    ensures var (worker', reply) :=
              Exchanged(world, None, Some(document), next, NoFaults(world, None, Some(document), next));
            && reply == Ok(Handle(world, None, next).0)
            && worker'.Some? && worker'.value.running && worker'.value.document == Handle(world, None, next).1
            && (Reads(next) ==> reply == Ok(NoDocument) && Stranded(worker', Some(document)))
  {
    hide Requested, SteppedAll, Workable, NoFaults, Handle, NoDocument;
    DeadStaysDead(world, link, luck.idle);
    DeadLinkFails(world, SteppedAll(world, link, luck.idle), request, luck.first);
    FaultFreeExchange(world, None, Some(document), next);
    ReadsKeepDocument(world, None, next);
  }

  // ----------------------------------------------------- files that cannot be sent

  lemma UnsendableIsRefused(world: World, worker: Option<Link>, document: Option<Doc>, request: Request, luck: Luck)
    requires world.codec.Lawful() && WorkerFits(worker, document) && Openable(world, document)
    requires !Requestable(world.codec, request)
    ensures var (worker', reply) := Exchanged(world, worker, document, request, luck);
            reply.Err? && (worker'.None? || !worker'.value.running)
  {
    hide Exchanged, Idle, WorkerChannel.Outcome, Handle, Requestable, Openable, WorkerFits;
    var held := ExchangeIsAnswered(world, worker, document, request, luck);
    var reply := Exchanged(world, worker, document, request, luck).1;
    assert reply.Err? || reply.Ok?;
  }

  /** A file whose request does not fit a frame is refused whatever happens, at the cost of worker and replacement. */
  lemma OversizedFileIsNeverOpened(
      world: World, state: State, data: seq<Byte>, name: string, password: Option<string>, luck: Luck)
    requires Serialises(world.codec) && Good(world, state)
    requires !Requestable(world.codec, OpenDocument(data, password))
    ensures var (state', result) := OpenedFile(world, state, data, name, password, luck);
            && result == Rejected(Refused)
            && state'.document == state.document && state'.cache == state.cache
            && (state'.worker.None? || !state'.worker.value.running)
  {
    hide Exchanged, Requestable, OpenReplyFits, CacheFits;
    UnsendableIsRefused(world, state.worker, Held(state), OpenDocument(data, password), luck);
  }

  /** Without faults, a file the engine opens is opened if and only if its request fits a frame. */
  lemma OpenedIffSendable(world: World, state: State, data: seq<Byte>, name: string, password: Option<string>)
    requires Serialises(world.codec) && Good(world, state)
    requires world.workerVersion == world.hostVersion && Deliverable(world, None, Handshake)
    requires world.engine.Some? && world.engine.value.open(Doc(data, password)).Opened?
    ensures var luck := NoFaults(world, state.worker, Held(state), OpenDocument(data, password));
            OpenedFile(world, state, data, name, password, luck).1.FileOpened? <==>
            Requestable(world.codec, OpenDocument(data, password))
  {
    hide Exchanged, Requestable, OpenReplyFits, CacheFits, NoFaults, TooLong, WorkerFits, Resendable, Codec.Lawful;
    var request := OpenDocument(data, password);
    var luck := NoFaults(world, state.worker, Held(state), request);
    if Requestable(world.codec, request) {
      OpenReplyIsSentWhole(world.codec, Handle(world, None, request).0);
      FaultFreeExchange(world, state.worker, Held(state), request);
    } else {
      OversizedFileIsNeverOpened(world, state, data, name, password, luck);
    }
  }

  // ------------------------------------------------------------- the cache's traffic

  /** The one tile each key has while a document is open. */
  function PagesOf(engine: Engine, doc: Doc): TileKey -> Tile {
    (key: TileKey) => match PageAt(engine, doc, key) case Some(tile) => tile case None => Tile(0, 0, [])
  }

  /** A page shown is one demand access to the cache, so a larger budget can only save requests. */
  lemma ShownPageIsOneAccess(world: World, state: State, page: nat, zoom: Zoom, rotation: int, luck: Luck)
    requires Serialises(world.codec) && Good(world, state)
    requires RenderedPage(world, state, page, zoom, rotation, luck).1.PageReady?
    ensures world.engine.Some? && Held(state).Some?
    ensures RenderedPage(world, state, page, zoom, rotation, luck).0.cache ==
            TileCache.Access(state.cache, PagesOf(world.engine.value, Held(state).value),
                             TileKey(page, FromZoom(zoom), rotation))
  {
    hide Exchanged, PageAt, TileCache.Sound, TileCache.Without, TileCache.Fit, Swapped;
    RenderStep(world, state, page, zoom, rotation, luck);
  }
}
