/**
 One worker process and the host's handle on it: two pipes, a reader thread, a deadline, and a kill.

 The process, the reader and the operating system act in any order between the host's write and its wait;
 a list of `Step`s is one such order, and every claim is for all of them. A wait that finds nothing queued
 after its steps is a timeout.
 */
module WorkerChannel {
  import opened Prelude
  import opened Framing
  import opened Protocol
  import opened WorkerProcess
  import opened ResponseStream

  datatype ReaderState = AwaitingMessage | AwaitingPixels(page: Response) | Stopped

  datatype Link = Link(
    killed: bool,             // by the host
    running: bool,            // the process
    exiting: bool,            // its loop has ended; it stops once its output is written
    document: Option<Doc>,    // what it has open
    stdin: seq<Byte>,         // written by the host, not yet read
    outbox: seq<Byte>,        // produced by the process, not yet written
    stdout: seq<Byte>,        // written by the process, not yet read
    reader: ReaderState,
    queue: seq<Item>)

  const FreshLink: Link := Link(false, true, false, None, [], [], [], AwaitingMessage, [])

  datatype Step =
    | Receive          // the process reads a request and computes its answer
    | Write(n: nat)    // it writes up to `n` more bytes of it
    | Exit             // it ends after its loop has
    | Crash            // it dies, whatever it was doing
    | Read             // the reader thread takes a frame, or the end of the stream

  /** Whether a frame read would return without waiting for more bytes. */
  predicate Complete(bytes: seq<Byte>) {
    HEADER_BYTES <= |bytes| &&
    var declared := FromBigEndian(bytes[1..5]);
    MAX_FRAME_BYTES < declared || HEADER_BYTES + declared <= |bytes|
  }

  function Received(world: World, link: Link): Link {
    if !link.running || link.exiting || link.outbox != [] || !Complete(link.stdin) then link
    else
      var (request, rest) := TakeMessage(Input(link.stdin, Closed), world.codec.decodeRequest);
      if request.Err? || request.value.Shutdown? then
        link.(stdin := rest.bytes, exiting := true)
      else
        var (response, document) := Handle(world, link.document, request.value);
        var emission := Emitted(world.codec, response);
        link.(stdin := rest.bytes, document := document, outbox := emission.bytes, exiting := emission.exits)
  }

  function Queued(link: Link, item: Item): Link {
    link.(queue := link.queue + [item], reader := if item.Err? then Stopped else AwaitingMessage)
  }

  function Reader(world: World, link: Link): Link {
    if link.running && !Complete(link.stdout) then link
    else
      match link.reader
      case Stopped => link
      case AwaitingMessage =>
        var (message, rest) := TakeMessage(Input(link.stdout, Closed), world.codec.decodeResponse);
        var taken := link.(stdout := rest.bytes);
        if message.Ok? && message.value.PageRendered? then taken.(reader := AwaitingPixels(message.value))
        else Queued(taken, message)
      case AwaitingPixels(page) =>
        if !page.PageRendered? then link
        else
          var (blob, rest) := TakeFrame(Input(link.stdout, Closed), Blob);
          Queued(link.(stdout := rest.bytes), Paired(page, blob))
  }

  function Stepped(world: World, link: Link, step: Step): Link {
    match step
    case Receive => Received(world, link)
    case Write(n) =>
      if !link.running then link
      else
        var m := Min(n, |link.outbox|);
        link.(outbox := link.outbox[m..], stdout := link.stdout + link.outbox[..m])
    case Exit => if link.exiting && link.outbox == [] then link.(running := false) else link
    case Crash => link.(running := false, outbox := [])
    case Read => Reader(world, link)
  }

  function SteppedAll(world: World, link: Link, steps: seq<Step>): Link
    decreases |steps|
  {
    if steps == [] then link else SteppedAll(world, Stepped(world, link, steps[0]), steps[1..])
  }

  // ------------------------------------------------------------- the host's side

  function Killed(link: Link): Link {
    link.(killed := true, running := false, outbox := [])
  }

  function Fault(error: FrameError): WorkerError {
    match error
    case Closed => WorkerDied
    case _ => WorkerError.Channel("the channel failed")
  }

  /** Writing to a process that is gone fails. */
  function Sent(world: World, link: Link, request: Request): Result<Link, FrameError> {
    var frame := Frame(KIND_MESSAGE, world.codec.encodeRequest(request));
    if !frame.Fits() then Err(TooLarge(|frame.payload|))
    else if !link.running then Err(Io)
    else Ok(link.(stdin := link.stdin + Encoded(frame)))
  }

  /** Taking what the wait ended with. Anything but a consistent response ends the process. */
  function Collected(link: Link): (Link, Result<Response, WorkerError>) {
    if link.queue == [] then
      (Killed(link), Err(if link.reader.Stopped? then WorkerDied else Timeout))
    else
      var taken := link.(queue := link.queue[1..]);
      match link.queue[0]
      case Err(error) => (Killed(taken), Err(Fault(error)))
      case Ok(response) =>
        if response.IsSelfConsistent() then (taken, Ok(response))
        else (Killed(taken), Err(WorkerError.Channel("worker returned a self-inconsistent response")))
  }

  function Requested(world: World, link: Link, request: Request, steps: seq<Step>)
    : (Link, Result<Response, WorkerError>)
  {
    match Sent(world, link, request)
    case Err(error) => (Killed(link), Err(Fault(error)))
    case Ok(sent) => Collected(SteppedAll(world, sent, steps))
  }

  /** What can go wrong while a process starts: it may not start at all, and the handshake takes its own steps. */
  datatype Start = Start(starts: bool, steps: seq<Step>)

  function Spawned(world: World, start: Start): Result<Link, WorkerError> {
    if !start.starts then Err(WorkerError.Channel("could not spawn worker"))
    else
      var (link, reply) := Requested(world, FreshLink, Handshake, start.steps);
      match reply
      case Err(error) => Err(error)
      case Ok(Ready(version, _, _)) =>
        if version == world.hostVersion then Ok(link)
        else Err(WorkerError.Channel("worker version does not match host"))
      case Ok(_) => Err(WorkerError.Channel("expected Ready handshake"))
  }

  class WorkerHandle {
    const world: World
    var link: Link

    constructor (world: World)
      ensures this.world == world && link == FreshLink
    {
      this.world, link := world, FreshLink;
    }

    static method Spawn(world: World, start: Start) returns (worker: Result<WorkerHandle, WorkerError>)
      ensures worker.Ok? ==> fresh(worker.value) && worker.value.world == world
      ensures match worker
              case Ok(handle) => Spawned(world, start) == Ok(handle.link)
              case Err(error) => Spawned(world, start) == Err(error)
    {
      if !start.starts {
        return Err(WorkerError.Channel("could not spawn worker"));
      }
      var handle := new WorkerHandle(world);
      var reply := handle.Request(Handshake, start.steps);
      match reply {
        case Err(error) =>
          worker := Err(error);
        case Ok(Ready(version, _, _)) =>
          if version != world.hostVersion {
            handle.Kill();
            return Err(WorkerError.Channel("worker version does not match host"));
          }
          worker := Ok(handle);
        case Ok(_) =>
          handle.Kill();
          worker := Err(WorkerError.Channel("expected Ready handshake"));
      }
    }

    method Kill()
      modifies this
      ensures link == Killed(old(link))
    {
      link := link.(running := false, outbox := []);
      link := link.(killed := true);
    }

    /** The deadline passes after `steps`. */
    method Request(request: Request, steps: seq<Step>) returns (r: Result<Response, WorkerError>)
      modifies this
      ensures (link, r) == Requested(world, old(link), request, steps)
    {
      var sent := Sent(world, link, request);
      if sent.Err? {
        Kill();
        return Err(Fault(sent.error));
      }
      link := sent.value;
      Wait(steps);
      if link.queue == [] {
        var error := if link.reader.Stopped? then WorkerDied else Timeout;
        Kill();
        return Err(error);
      }
      var item := link.queue[0];
      link := link.(queue := link.queue[1..]);
      if item.Err? {
        Kill();
        return Err(Fault(item.error));
      }
      if !item.value.IsSelfConsistent() {
        Kill();
        return Err(WorkerError.Channel("worker returned a self-inconsistent response"));
      }
      r := Ok(item.value);
    }

    method Wait(steps: seq<Step>)
      modifies this
      ensures link == SteppedAll(world, old(link), steps)
    {
      for n := 0 to |steps|
        invariant SteppedAll(world, old(link), steps) == SteppedAll(world, link, steps[n..])
      {
        link := Stepped(world, link, steps[n]);
        assert steps[n..][1..] == steps[n + 1..];
      }
    }
  }

  // ---------------------------------------------------------- the answer, in frames

  /** The frames of one answer. */
  function AnswerFrames(codec: Codec, response: Response): (frames: seq<Frame>)
    ensures AllFit(frames) && |frames| <= 2
  {
    var message := MessageFrame(codec, response);
    var refusal := match TooLong(codec, response)
                   case None => []
                   case Some(length) =>
                     if MessageFrame(codec, Refusal(length)).Fits() then [MessageFrame(codec, Refusal(length))] else [];
    (if message.Fits() then [message] else []) +
    (if message.Fits() && response.PageRendered? && PixelFrame(response).Fits() then [PixelFrame(response)] else []) +
    refusal
  }

  lemma EncodedFrames(frames: seq<Frame>)
    requires AllFit(frames) && |frames| <= 2
    ensures frames == [] ==> EncodedAll(frames) == []
    ensures frames != [] ==> EncodedAll(frames) == Encoded(frames[0]) + EncodedAll(frames[1..])
    ensures |frames| == 1 ==> EncodedAll(frames) == Encoded(frames[0])
    ensures |frames| == 2 ==> EncodedAll(frames) == Encoded(frames[0]) + Encoded(frames[1])
  {
    hide Encoded;
    if |frames| == 2 {
      assert EncodedAll(frames[1..]) == Encoded(frames[1]) + EncodedAll(frames[1..][1..]);
    }
  }

  lemma EmittedInFrames(codec: Codec, response: Response)
    ensures Emitted(codec, response).bytes == EncodedAll(AnswerFrames(codec, response))
  {
    hide Encoded, Describe;
    EncodedFrames(AnswerFrames(codec, response));
  }

  // ------------------------------------------------------------ between requests

  /** Nothing is under way: the process waits for a request and nothing is in the pipes. */
  ghost predicate Quiet(link: Link) {
    && !link.killed && !link.exiting
    && link.stdin == [] && link.outbox == [] && link.stdout == [] && link.queue == []
    && link.reader == AwaitingMessage
  }

  /** Between requests a running process has nothing under way, and a killed one does not run. */
  ghost predicate Idle(link: Link) {
    (link.running ==> Quiet(link)) && (link.killed ==> !link.running)
  }

  lemma {:induction false} IdleStaysIdle(world: World, link: Link, steps: seq<Step>)
    requires Idle(link)
    ensures var link' := SteppedAll(world, link, steps);
            Idle(link') && (link'.running ==> link' == link) && (!link.running ==> !link'.running)
    decreases |steps|
  {
    if steps != [] {
      IdleStaysIdle(world, Stepped(world, link, steps[0]), steps[1..]);
    }
  }

  // -------------------------------------------------------------- during a request

  /** What the answer to a request amounts to: what the reader queues when nothing fails. */
  function Outcome(world: World, document: Option<Doc>, request: Request): Item {
    if request.Shutdown? then Err(Closed) else Delivered(world.codec, Handle(world, document, request).0)
  }

  function OutcomeFrames(world: World, document: Option<Doc>, request: Request): (frames: seq<Frame>)
    ensures AllFit(frames) && |frames| <= 2
  {
    if request.Shutdown? then [] else AnswerFrames(world.codec, Handle(world, document, request).0)
  }

  function EndsLoop(world: World, document: Option<Doc>, request: Request): bool {
    request.Shutdown? || Emitted(world.codec, Handle(world, document, request).0).exits
  }

  /** The request is written; the process has not read it. */
  ghost predicate Waiting(world: World, document: Option<Doc>, request: Request, link: Link) {
    && link.running && Quiet(link.(stdin := [])) && link.document == document
    && Requestable(world.codec, request)
    && link.stdin == Encoded(Frame(KIND_MESSAGE, world.codec.encodeRequest(request)))
  }

  /** These frames are still to be read: all of them from a running process, a beginning from one that died. */
  ghost predicate Pending(link: Link, frames: seq<Frame>)
    requires AllFit(frames)
  {
    && link.stdout <= EncodedAll(frames)
    && (link.running ==> link.stdout + link.outbox == EncodedAll(frames))
  }

  /** Nothing can be queued but the outcome or an error, and a running process queues only the outcome. */
  ghost predicate Answered(world: World, document: Option<Doc>, request: Request, link: Link) {
    var outcome := Outcome(world, document, request);
    && link.queue != []
    && (link.queue[0] == outcome || link.queue[0].Err?)
    && (link.running ==>
          && link.queue == [outcome] && link.stdout == [] && link.outbox == []
          && (outcome.Ok? ==> link.reader == AwaitingMessage && !link.exiting))
  }

  ghost predicate HalfRead(world: World, document: Option<Doc>, request: Request, link: Link) {
    var frames := OutcomeFrames(world, document, request);
    && link.queue == []
    && match link.reader
       case AwaitingMessage => Pending(link, frames)
       case AwaitingPixels(page) =>
         && !request.Shutdown? && frames != []
         && page.PageRendered? && page == Handle(world, document, request).0.Bare()
         && frames[0] == MessageFrame(world.codec, Handle(world, document, request).0)
         && Pending(link, frames[1..])
       case Stopped => false
  }

  ghost predicate Answering(world: World, document: Option<Doc>, request: Request, link: Link) {
    && (link.running ==>
          && !link.killed && link.stdin == []
          && link.document == Handle(world, document, request).1
          && link.exiting == EndsLoop(world, document, request))
    && (Answered(world, document, request, link) || HalfRead(world, document, request, link))
  }

  ghost predicate Busy(world: World, document: Option<Doc>, request: Request, link: Link) {
    Waiting(world, document, request, link) || Answering(world, document, request, link)
  }

  /** How much of a frame has to be there before a read returns. */
  lemma NextFrame(frame: Frame, rest: seq<Byte>, bytes: seq<Byte>)
    requires frame.Fits() && bytes <= Encoded(frame) + rest
    ensures Complete(bytes) <==> |Encoded(frame)| <= |bytes|
    ensures |Encoded(frame)| <= |bytes| ==>
              && bytes == Encoded(frame) + bytes[|Encoded(frame)|..]
              && bytes[|Encoded(frame)|..] <= rest
    ensures |bytes| < |Encoded(frame)| ==> bytes == Encoded(frame)[..|bytes|]
  {
    var whole := Encoded(frame) + rest;
    assert bytes == whole[..|bytes|];
    if HEADER_BYTES <= |bytes| {
      assert bytes[1..5] == whole[1..5] == BigEndian(|frame.payload|);
      LengthRoundTrip(|frame.payload|);
    }
  }

  lemma ReceivedStaysBusy(world: World, document: Option<Doc>, request: Request, link: Link)
    requires world.codec.Lawful() && Waiting(world, document, request, link)
    ensures Answering(world, document, request, Received(world, link))
  {
    hide Encoded, TakeMessage, Emitted, AnswerFrames;
    var frame := Frame(KIND_MESSAGE, world.codec.encodeRequest(request));
    assert link.stdin == Encoded(frame) + [];
    NextFrame(frame, [], link.stdin);
    TakesRequest(world.codec, request, [], Closed);
    assert TakeMessage(Input(link.stdin, Closed), world.codec.decodeRequest) == (Ok(request), Input([], Closed));
    assert [] + Received(world, link).outbox == Received(world, link).outbox;
    EmittedInFrames(world.codec, Handle(world, document, request).0);
  }

  /** How the frames of an answer relate to what is delivered. */
  lemma AnswerShape(codec: Codec, response: Response)
    requires DeclaresItsLength(response)
    ensures var frames := AnswerFrames(codec, response);
            var delivered := Delivered(codec, response);
            var message := MessageFrame(codec, response);
            && (frames == [] ==> delivered == Err(Closed))
            && (frames != [] ==> frames[0].kind == KIND_MESSAGE)
            && (frames != [] && message.Fits() ==>
                  && frames[0] == message
                  && (!response.PageRendered? ==> |frames| == 1 && delivered == Ok(response))
                  && (response.PageRendered? && |frames| == 2 ==>
                        && delivered == (match Expected(frames[1], Blob)
                                         case Ok(bytes) => Ok(response)
                                         case Err(error) => Err(error))
                        && (frames[1].kind == KIND_BLOB ==> frames[1] == PixelFrame(response))))
            && (frames != [] && !message.Fits() ==>
                  exists refusal: Response :: frames == [MessageFrame(codec, refusal)] && delivered == Ok(refusal) &&
                                              refusal.Failed?)
            && (message.Fits() ==> frames != [])
            && (delivered.Ok? ==> !Emitted(codec, response).exits)
  {
  }

  // What one round of the reader does when it is in front of a frame.

  lemma ReaderTakesMessage(world: World, link: Link, message: Response, rest: seq<Byte>)
    requires world.codec.Lawful() && link.reader == AwaitingMessage
    requires MessageFrame(world.codec, message).Fits()
    requires link.stdout == Encoded(MessageFrame(world.codec, message)) + rest
    ensures Reader(world, link) ==
            if message.PageRendered? then link.(stdout := rest, reader := AwaitingPixels(message.Bare()))
            else Queued(link.(stdout := rest), Ok(message))
    ensures message.Bare().PageRendered? <==> message.PageRendered?
  {
    hide Encoded, TakeMessage, MessageFrame;
    NextFrame(MessageFrame(world.codec, message), rest, link.stdout);
    TakesMessage(world.codec, message, rest, Closed);
  }

  lemma ReaderTakesBlob(world: World, link: Link, frame: Frame, rest: seq<Byte>)
    requires link.reader.AwaitingPixels? && link.reader.page.PageRendered?
    requires frame.Fits() && link.stdout == Encoded(frame) + rest
    ensures Reader(world, link) == Queued(link.(stdout := rest), Paired(link.reader.page, Expected(frame, Blob)))
  {
    hide Encoded, TakeFrame, KindError;
    NextFrame(frame, rest, link.stdout);
    TakesWholeFrame(frame, rest, Blob, Closed);
  }

  /** In front of part of a frame, or of nothing, it waits; once the process is gone it gives up. */
  lemma ReaderGivesUp(world: World, link: Link, frame: Frame, n: nat)
    requires frame.Fits() && n < |Encoded(frame)| && link.stdout == Encoded(frame)[..n]
    requires link.reader.AwaitingMessage? ==> frame.kind == KIND_MESSAGE
    requires link.reader.AwaitingPixels? ==> link.reader.page.PageRendered?
    requires !link.reader.Stopped?
    ensures link.running ==> Reader(world, link) == link
    ensures !link.running ==>
              exists error :: Reader(world, link) == Queued(link.(stdout := []), Err(error))
  {
    hide Encoded, TakeFrame, KindError;
    assert Encoded(frame) + [] == Encoded(frame);
    NextFrame(frame, [], link.stdout);
    TakesCutFrame(frame, n, if link.reader.AwaitingMessage? then Message else Blob, Closed);
    if !link.running {
      var error := if n < HEADER_BYTES || link.reader.AwaitingMessage? || frame.kind == KIND_BLOB then Closed
                   else KindError(Blob, frame.kind);
      assert Reader(world, link) == Queued(link.(stdout := []), Err(error));
    }
  }

  lemma ReaderAtEnd(world: World, link: Link)
    requires link.stdout == [] && !link.reader.Stopped?
    requires link.reader.AwaitingPixels? ==> link.reader.page.PageRendered?
    ensures Reader(world, link) == if link.running then link else Queued(link, Err(Closed))
  {
  }

  // The reader's rounds keep `Answering`.

  lemma QueuedIsAnswering(
      world: World, document: Option<Doc>, request: Request, link: Link, item: Item, rest: seq<Byte>)
    requires Answering(world, document, request, link) && link.queue == []
    requires item == Outcome(world, document, request) || item.Err?
    requires link.running ==> item == Outcome(world, document, request) && rest == [] && link.outbox == []
    ensures Answering(world, document, request, Queued(link.(stdout := rest), item))
  {
  }

  lemma OutcomeKeepsLoop(world: World, document: Option<Doc>, request: Request)
    ensures Outcome(world, document, request).Ok? ==> !EndsLoop(world, document, request)
  {
  }

  lemma AnnouncedIsAnswering(world: World, document: Option<Doc>, request: Request, link: Link, rest: seq<Byte>)
    requires Answering(world, document, request, link) && link.queue == [] && !request.Shutdown?
    requires var response := Handle(world, document, request).0;
             var frames := OutcomeFrames(world, document, request);
             && response.PageRendered? && frames != []
             && frames[0] == MessageFrame(world.codec, response)
             && Pending(link.(stdout := rest), frames[1..])
    ensures var page := Handle(world, document, request).0.Bare();
            Answering(world, document, request, link.(stdout := rest, reader := AwaitingPixels(page)))
  {
  }

  lemma FirstFrameTaken(link: Link, frames: seq<Frame>, rest: seq<Byte>)
    requires AllFit(frames) && 1 <= |frames| <= 2 && Pending(link, frames)
    requires link.stdout == Encoded(frames[0]) + rest
    ensures Pending(link.(stdout := rest), frames[1..])
    ensures |frames| == 1 ==> rest == [] && (link.running ==> link.outbox == [])
  {
    hide Encoded;
    EncodedFrames(frames);
    EncodedFrames(frames[1..]);
    var first, later := Encoded(frames[0]), EncodedAll(frames[1..]);
    assert rest == (first + rest)[|first|..] && later == (first + later)[|first|..];
    if link.running {
      assert (first + rest) + link.outbox == first + (rest + link.outbox);
      assert rest + link.outbox == (first + (rest + link.outbox))[|first|..];
    }
  }

  /** Where the reader stands when a frame of the answer is next. */
  lemma FrameAhead(link: Link, frames: seq<Frame>)
    requires AllFit(frames) && 1 <= |frames| <= 2 && Pending(link, frames)
    ensures var size := |Encoded(frames[0])|;
            if |link.stdout| < size then link.stdout == Encoded(frames[0])[..|link.stdout|]
            else link.stdout == Encoded(frames[0]) + link.stdout[size..]
  {
  }

  lemma GivingUpIsAnswering(world: World, document: Option<Doc>, request: Request, link: Link, frame: Frame)
    requires Answering(world, document, request, link) && link.queue == [] && frame.Fits()
    requires |link.stdout| < |Encoded(frame)| && link.stdout == Encoded(frame)[..|link.stdout|]
    requires link.reader.AwaitingMessage? ==> frame.kind == KIND_MESSAGE
    ensures Answering(world, document, request, Reader(world, link))
  {
    hide Encoded, Handle, Outcome, OutcomeFrames, MessageFrame, EncodedAll, EndsLoop, Reader, Pending;
    ReaderGivesUp(world, link, frame, |link.stdout|);
    if !link.running {
      var error :| Reader(world, link) == Queued(link.(stdout := []), Err(error));
      QueuedIsAnswering(world, document, request, link, Err(error), []);
    }
  }

  lemma EndIsAnswering(world: World, document: Option<Doc>, request: Request, link: Link)
    requires Answering(world, document, request, link) && link.queue == [] && link.stdout == []
    ensures Answering(world, document, request, Reader(world, link))
  {
    hide Encoded, Handle, Outcome, OutcomeFrames, MessageFrame, EncodedAll, EndsLoop, Reader, Pending;
    ReaderAtEnd(world, link);
    if !link.running {
      QueuedIsAnswering(world, document, request, link, Err(Closed), []);
      assert link.(stdout := []) == link;
    }
  }

  /** The reader waiting for a message takes the first frame of the answer, or finds the process gone. */
  lemma MessageReadStaysBusy(world: World, document: Option<Doc>, request: Request, link: Link)
    requires world.codec.Lawful() && Answering(world, document, request, link)
    requires link.queue == [] && link.reader == AwaitingMessage
    ensures Answering(world, document, request, Reader(world, link))
  {
    hide Encoded, Handle, Emitted, Delivered, AnswerFrames, MessageFrame, Reader, EncodedAll, EndsLoop,
      Pending, Codec.Lawful, Response.Bare;
    var frames := OutcomeFrames(world, document, request);
    var response := Handle(world, document, request).0;
    assert Pending(link, frames);
    AnswersDeclareTheirLength(world, document, request);
    AnswerShape(world.codec, response);
    if frames == [] {
      NothingPending(link);
      EndIsAnswering(world, document, request, link);
    } else {
      FrameAhead(link, frames);
      var rest := if |link.stdout| < |Encoded(frames[0])| then [] else link.stdout[|Encoded(frames[0])|..];
      if |link.stdout| < |Encoded(frames[0])| {
        GivingUpIsAnswering(world, document, request, link, frames[0]);
      } else if MessageFrame(world.codec, response).Fits() {
        FirstFrameTaken(link, frames, rest);
        ReaderTakesMessage(world, link, response, rest);
        if response.PageRendered? {
          AnnouncedIsAnswering(world, document, request, link, rest);
        } else {
          QueuedIsAnswering(world, document, request, link, Ok(response), rest);
        }
      } else {
        var refusal: Response :| frames == [MessageFrame(world.codec, refusal)] && refusal.Failed? &&
                                 Delivered(world.codec, response) == Ok(refusal);
        FirstFrameTaken(link, frames, rest);
        ReaderTakesMessage(world, link, refusal, rest);
        QueuedIsAnswering(world, document, request, link, Ok(refusal), rest);
      }
    }
  }

  lemma NothingPending(link: Link)
    requires Pending(link, [])
    ensures link.stdout == []
  {
  }

  lemma PairingDelivers(codec: Codec, response: Response)
    requires response.PageRendered? && DeclaresItsLength(response) && |AnswerFrames(codec, response)| == 2
    requires AnswerFrames(codec, response)[0] == MessageFrame(codec, response)
    ensures Paired(response.Bare(), Expected(AnswerFrames(codec, response)[1], Blob)) == Delivered(codec, response)
  {
  }

  /** The reader waiting for pixels takes the frame after the announcement, whatever it is. */
  lemma PixelReadStaysBusy(world: World, document: Option<Doc>, request: Request, link: Link)
    requires world.codec.Lawful() && Answering(world, document, request, link)
    requires link.queue == [] && link.reader.AwaitingPixels?
    ensures Answering(world, document, request, Reader(world, link))
  {
    hide Encoded, Handle, Emitted, Delivered, AnswerFrames, MessageFrame, Reader, EncodedAll, EndsLoop,
      Pending, Codec.Lawful, Response.Bare, Paired, Expected;
    var frames := OutcomeFrames(world, document, request);
    var response := Handle(world, document, request).0;
    assert Pending(link, frames[1..]);
    AnswersDeclareTheirLength(world, document, request);
    if |frames| == 1 {
      assert frames[1..] == [];
      NothingPending(link);
      EndIsAnswering(world, document, request, link);
    } else {
      FrameAhead(link, frames[1..]);
      var rest := if |link.stdout| < |Encoded(frames[1])| then [] else link.stdout[|Encoded(frames[1])|..];
      if |link.stdout| < |Encoded(frames[1])| {
        GivingUpIsAnswering(world, document, request, link, frames[1]);
      } else {
        FirstFrameTaken(link, frames[1..], rest);
        ReaderTakesBlob(world, link, frames[1], rest);
        BareKeepsKind(response);
        PairingDelivers(world.codec, response);
        QueuedIsAnswering(world, document, request, link, Delivered(world.codec, response), rest);
      }
    }
  }

  lemma BareKeepsKind(response: Response)
    ensures response.Bare().PageRendered? <==> response.PageRendered?
  {
  }

  lemma WrittenIsPending(link: Link, frames: seq<Frame>, m: nat)
    requires AllFit(frames) && Pending(link, frames) && link.running && m <= |link.outbox|
    ensures Pending(link.(outbox := link.outbox[m..], stdout := link.stdout + link.outbox[..m]), frames)
  {
    hide AllFit, EncodedAll;
    assert link.stdout + link.outbox == (link.stdout + link.outbox[..m]) + link.outbox[m..];
  }

  lemma NothingToWrite(world: World, link: Link, n: nat)
    requires !link.running || link.outbox == []
    ensures Stepped(world, link, Write(n)) == link
  {
    hide Received, Reader;
  }

  lemma WriteStaysBusy(world: World, document: Option<Doc>, request: Request, link: Link, n: nat)
    requires Busy(world, document, request, link)
    ensures Busy(world, document, request, Stepped(world, link, Write(n)))
  {
    hide Encoded, Handle, EndsLoop, Outcome, OutcomeFrames, MessageFrame, EncodedAll, Pending, AllFit, Received, Reader;
    if !link.running || link.outbox == [] {
      NothingToWrite(world, link, n);
    } else {
      var frames := OutcomeFrames(world, document, request);
      var m := Min(n, |link.outbox|);
      if link.reader.AwaitingMessage? {
        WrittenIsPending(link, frames, m);
      } else {
        RestFits(frames);
        WrittenIsPending(link, frames[1..], m);
      }
    }
  }

  lemma RestFits(frames: seq<Frame>)
    requires AllFit(frames)
    ensures frames != [] ==> AllFit(frames[1..])
  {
  }

  lemma ReadStaysBusy(world: World, document: Option<Doc>, request: Request, link: Link)
    requires world.codec.Lawful() && Busy(world, document, request, link)
    ensures Busy(world, document, request, Reader(world, link))
    ensures Reader(world, link).running == link.running
  {
    hide Encoded, Handle, EndsLoop, Outcome, OutcomeFrames, MessageFrame, TakeMessage, TakeFrame, EncodedAll;
    if Answering(world, document, request, link) && link.queue == [] {
      if link.reader.AwaitingMessage? {
        MessageReadStaysBusy(world, document, request, link);
      } else {
        PixelReadStaysBusy(world, document, request, link);
      }
    }
  }

  lemma ReceiveStaysBusy(world: World, document: Option<Doc>, request: Request, link: Link)
    requires world.codec.Lawful() && Busy(world, document, request, link)
    ensures Busy(world, document, request, Received(world, link))
  {
    hide Encoded, Handle, EndsLoop, Outcome, OutcomeFrames, MessageFrame, TakeMessage, EncodedAll, Pending,
      Codec.Lawful;
    if Waiting(world, document, request, link) {
      ReceivedStaysBusy(world, document, request, link);
    }
  }

  lemma EndStaysBusy(world: World, document: Option<Doc>, request: Request, link: Link)
    requires Busy(world, document, request, link)
    ensures Busy(world, document, request, Stepped(world, link, Exit))
    ensures Busy(world, document, request, Stepped(world, link, Crash))
  {
    hide Encoded, Handle, EndsLoop, Outcome, OutcomeFrames, MessageFrame, EncodedAll, Received, Reader;
  }

  lemma StepStaysBusy(world: World, document: Option<Doc>, request: Request, link: Link, step: Step)
    requires world.codec.Lawful() && Busy(world, document, request, link)
    ensures Busy(world, document, request, Stepped(world, link, step))
  {
    hide Busy, Received, Reader, Codec.Lawful;
    match step
    case Receive => ReceiveStaysBusy(world, document, request, link);
    case Write(n) => WriteStaysBusy(world, document, request, link, n);
    case Exit => EndStaysBusy(world, document, request, link);
    case Crash => EndStaysBusy(world, document, request, link);
    case Read => ReadStaysBusy(world, document, request, link);
  }

  lemma {:induction false} StepsStayBusy(
    world: World, document: Option<Doc>, request: Request, link: Link, steps: seq<Step>)
    requires world.codec.Lawful() && Busy(world, document, request, link)
    ensures Busy(world, document, request, SteppedAll(world, link, steps))
    decreases |steps|
  {
    hide Busy, Stepped;
    if steps != [] {
      StepStaysBusy(world, document, request, link, steps[0]);
      StepsStayBusy(world, document, request, Stepped(world, link, steps[0]), steps[1..]);
    }
  }

  // ------------------------------------------------------------------ one request

  /**
   Whatever happens during a request: a response handed to the caller is the worker's own answer to that
   request, the worker then has open what that request leaves open, and the handle is idle again;
   an error leaves a killed handle.
   */
  lemma RequestIsAnswered(world: World, link: Link, request: Request, steps: seq<Step>)
    requires world.codec.Lawful() && Idle(link)
    ensures var (link', reply) := Requested(world, link, request, steps);
            && Idle(link')
            && (reply.Err? ==> link'.killed)
            && (reply.Ok? ==>
                  && link.running && !link.killed && Requestable(world.codec, request)
                  && Outcome(world, link.document, request) == Ok(reply.value)
                  && reply.value.IsSelfConsistent()
                  && (link'.running ==> link'.document == Handle(world, link.document, request).1))
  {
    hide Busy, Handle, Outcome, Stepped, SteppedAll, Collected, Idle, Response.IsSelfConsistent;
    var sent := Sent(world, link, request);
    if sent.Ok? {
      SentIsBusy(world, link, request);
      StepsStayBusy(world, link.document, request, sent.value, steps);
      CollectedIsAnswered(world, link.document, request, SteppedAll(world, sent.value, steps));
    } else {
      KilledIsIdle(link);
    }
  }

  lemma SentIsBusy(world: World, link: Link, request: Request)
    requires Idle(link) && Sent(world, link, request).Ok?
    ensures Busy(world, link.document, request, Sent(world, link, request).value)
    ensures link.running && !link.killed && Requestable(world.codec, request)
  {
  }

  lemma KilledIsIdle(link: Link)
    ensures Idle(Killed(link)) && Killed(link).killed
  {
  }

  lemma CollectedIsAnswered(world: World, document: Option<Doc>, request: Request, link: Link)
    requires Busy(world, document, request, link)
    ensures var (link', reply) := Collected(link);
            && Idle(link')
            && (reply.Err? ==> link'.killed)
            && (reply.Ok? ==>
                  && Outcome(world, document, request) == Ok(reply.value)
                  && reply.value.IsSelfConsistent()
                  && (link'.running ==> link'.document == Handle(world, document, request).1))
  {
    hide Encoded, Handle, EndsLoop, Outcome, OutcomeFrames, EncodedAll, MessageFrame, HalfRead,
      Response.IsSelfConsistent;
    if link.queue == [] {
      KilledIsIdle(link);
    } else {
      HalfReadHasNothingQueued(world, document, request, link);
      KilledIsIdle(link.(queue := link.queue[1..]));
      OutcomeKeepsLoop(world, document, request);
    }
  }

  lemma HalfReadHasNothingQueued(world: World, document: Option<Doc>, request: Request, link: Link)
    ensures HalfRead(world, document, request, link) ==> link.queue == []
  {
  }

  /** A page whose pixels are over the frame limit ends in an error and a killed worker, never in a page. */
  lemma OverlongPageIsRefused(world: World, link: Link, request: Request, steps: seq<Step>)
    requires world.codec.Lawful() && Idle(link) && !request.Shutdown?
    requires var response := Handle(world, link.document, request).0;
             response.PageRendered? && |response.pixels| > MAX_FRAME_BYTES &&
             MessageFrame(world.codec, response).Fits()
    ensures var (link', reply) := Requested(world, link, request, steps);
            reply.Err? && link'.killed && !link'.running
  {
    hide Requested, Encoded, Delivered;
    RequestIsAnswered(world, link, request, steps);
    assert Idle(Requested(world, link, request, steps).0);
    OverlongIsUndeliverable(world.codec, Handle(world, link.document, request).0);
  }

  lemma OverlongIsUndeliverable(codec: Codec, response: Response)
    requires response.PageRendered? && MessageFrame(codec, response).Fits() && |response.pixels| > MAX_FRAME_BYTES
    ensures Delivered(codec, response).Err?
  {
  }

  /** A spawned worker is idle, speaks the host's version, and has nothing open. */
  lemma SpawnedIsIdle(world: World, start: Start)
    requires world.codec.Lawful()
    ensures match Spawned(world, start)
            case Err(_) => true
            case Ok(link) =>
              Idle(link) && (link.running ==> link.document == None) && world.workerVersion == world.hostVersion
  {
    hide Requested, TooLong;
    RequestIsAnswered(world, FreshLink, Handshake, start.steps);
  }

  // ------------------------------------------------------------ a handle's whole life

  /** A request, after whatever the process did on its own since the last one. */
  datatype Call = Call(idle: seq<Step>, request: Request, steps: seq<Step>)

  function Replies(world: World, link: Link, calls: seq<Call>): (replies: seq<Result<Response, WorkerError>>)
    ensures |replies| == |calls|
    decreases |calls|
  {
    if calls == [] then []
    else
      var (link', reply) := Requested(world, SteppedAll(world, link, calls[0].idle), calls[0].request, calls[0].steps);
      [reply] + Replies(world, link', calls[1..])
  }

  /** What the worker has open after these requests: a matter of the requests alone. */
  function DocumentAfter(world: World, document: Option<Doc>, calls: seq<Call>): Option<Doc>
    decreases |calls|
  {
    if calls == [] then document
    else DocumentAfter(world, Handle(world, document, calls[0].request).1, calls[1..])
  }

  /**
   Over the whole life of a handle, with any interleaving and any deadline: a reply is either an error or the
   one answer that the requests so far determine, and after the first error there are only errors.
   */
  lemma {:induction false} RepliesAreAnswers(world: World, link: Link, document: Option<Doc>, calls: seq<Call>, k: nat)
    requires world.codec.Lawful() && Idle(link) && (link.running ==> link.document == document)
    requires k < |calls| && Replies(world, link, calls)[k].Ok?
    ensures link.running
    ensures forall j | 0 <= j <= k :: Replies(world, link, calls)[j].Ok?
    ensures var response := Replies(world, link, calls)[k].value;
            && Outcome(world, DocumentAfter(world, document, calls[..k]), calls[k].request) == Ok(response)
            && response.IsSelfConsistent()
    decreases k
  {
    hide Requested, Outcome, Handle, Response.IsSelfConsistent, SteppedAll;
    var waited := SteppedAll(world, link, calls[0].idle);
    IdleStaysIdle(world, link, calls[0].idle);
    RequestIsAnswered(world, waited, calls[0].request, calls[0].steps);
    var (link', reply) := Requested(world, waited, calls[0].request, calls[0].steps);
    if k == 0 {
      assert calls[..0] == [];
    } else {
      var document' := Handle(world, document, calls[0].request).1;
      RepliesAreAnswers(world, link', document', calls[1..], k - 1);
      assert calls[..k][1..] == calls[1..][..k - 1];
      forall j | 0 <= j <= k
        ensures Replies(world, link, calls)[j].Ok?
      {
        if j > 0 {
          assert Replies(world, link, calls)[j] == Replies(world, link', calls[1..])[j - 1];
        }
      }
    }
  }

  // ------------------------------------------------------------- when nothing fails

  /** The process reads, answers and writes in full, and the reader keeps up. */
  function Prompt(world: World, document: Option<Doc>, request: Request): seq<Step> {
    [Receive, Write(|Emitted(world.codec, Handle(world, document, request).0).bytes|), Read, Read]
  }

  lemma SteppedFour(world: World, link: Link, a: Step, b: Step, c: Step, d: Step)
    ensures SteppedAll(world, link, [a, b, c, d]) ==
            Stepped(world, Stepped(world, Stepped(world, Stepped(world, link, a), b), c), d)
  {
    hide Stepped;
    var first := Stepped(world, link, a);
    var second := Stepped(world, first, b);
    var third := Stepped(world, second, c);
    assert [a, b, c, d][1..] == [b, c, d] && [b, c, d][1..] == [c, d] && [c, d][1..] == [d] && [d][1..] == [];
    assert SteppedAll(world, third, [d]) == SteppedAll(world, Stepped(world, third, d), []);
    assert SteppedAll(world, second, [c, d]) == SteppedAll(world, third, [d]);
    assert SteppedAll(world, first, [b, c, d]) == SteppedAll(world, second, [c, d]);
  }

  lemma AnsweredAndWritten(world: World, link: Link, request: Request)
    requires world.codec.Lawful() && link.running && Quiet(link) && !request.Shutdown?
    requires Requestable(world.codec, request)
    ensures var (response, document) := Handle(world, link.document, request);
            var emission := Emitted(world.codec, response);
            && Sent(world, link, request).Ok?
            && Stepped(world, Stepped(world, Sent(world, link, request).value, Receive), Write(|emission.bytes|)) ==
               link.(document := document, stdout := emission.bytes, exiting := emission.exits)
  {
    hide Encoded, TakeMessage, Emitted, Handle;
    var frame := Frame(KIND_MESSAGE, world.codec.encodeRequest(request));
    assert [] + Encoded(frame) == Encoded(frame) == Encoded(frame) + [];
    NextFrame(frame, [], Encoded(frame));
    TakesRequest(world.codec, request, [], Closed);
    var bytes := Emitted(world.codec, Handle(world, link.document, request).0).bytes;
    assert [] + bytes[..|bytes|] == bytes && bytes[|bytes|..] == [];
  }

  /** One answer, wholly written, is read in two rounds. */
  lemma ReadInTwo(world: World, link: Link, response: Response, answer: Response)
    requires world.codec.Lawful() && link.running && DeclaresItsLength(response)
    requires link.reader == AwaitingMessage && link.queue == []
    requires Delivered(world.codec, response) == Ok(answer)
    requires link.stdout == Emitted(world.codec, response).bytes
    ensures Reader(world, Reader(world, link)) == link.(stdout := [], queue := [Ok(answer)])
  {
    hide Encoded, AnswerFrames, Delivered, MessageFrame, EncodedAll, Emitted, Reader, Codec.Lawful, KindError;
    var codec := world.codec;
    EmittedInFrames(codec, response);
    AnswerShape(codec, response);
    var frames := AnswerFrames(codec, response);
    EncodedFrames(frames);
    EncodedFrames(frames[1..]);
    assert frames != [] by { NothingDelivered(codec, response); }
    if MessageFrame(codec, response).Fits() {
      var rest := EncodedAll(frames[1..]);
      ReaderTakesMessage(world, link, response, rest);
      if response.PageRendered? {
        OnePageFrameIsNotDelivered(codec, response);
        PairingDelivers(codec, response);
        var announced := link.(stdout := rest, reader := AwaitingPixels(response.Bare()));
        assert rest == Encoded(frames[1]) + [];
        ReaderTakesBlob(world, announced, frames[1], []);
      } else {
        assert frames[1..] == [] && link.queue + [Ok(response)] == [Ok(response)];
        ReaderAtEnd(world, link.(stdout := [], queue := [Ok(response)]));
      }
    } else {
      var refusal: Response :| frames == [MessageFrame(codec, refusal)] && refusal.Failed? &&
                               Delivered(codec, response) == Ok(refusal);
      assert link.stdout == Encoded(MessageFrame(codec, refusal)) + [];
      ReaderTakesMessage(world, link, refusal, []);
      assert link.queue + [Ok(refusal)] == [Ok(refusal)];
      ReaderAtEnd(world, link.(stdout := [], queue := [Ok(refusal)]));
    }
  }

  lemma NothingDelivered(codec: Codec, response: Response)
    requires DeclaresItsLength(response) && Delivered(codec, response).Ok?
    ensures AnswerFrames(codec, response) != []
  {
  }

  lemma OnePageFrameIsNotDelivered(codec: Codec, response: Response)
    requires response.PageRendered? && Delivered(codec, response).Ok? && MessageFrame(codec, response).Fits()
    ensures |AnswerFrames(codec, response)| == 2
  {
  }

  /** With nothing failing, a request that has a deliverable, consistent answer gets it. */
  lemma PromptRequestSucceeds(world: World, link: Link, request: Request)
    requires world.codec.Lawful() && link.running && Quiet(link)
    requires Requestable(world.codec, request)
    requires var outcome := Outcome(world, link.document, request);
             outcome.Ok? && outcome.value.IsSelfConsistent()
    ensures Requested(world, link, request, Prompt(world, link.document, request)) ==
            (link.(document := Handle(world, link.document, request).1),
             Ok(Outcome(world, link.document, request).value))
  {
    hide Encoded, Handle, Emitted, Delivered, Sent, Response.IsSelfConsistent, Stepped, Codec.Lawful;
    var (response, document) := Handle(world, link.document, request);
    AnswersDeclareTheirLength(world, link.document, request);
    AnsweredAndWritten(world, link, request);
    var sent := Sent(world, link, request).value;
    var size := |Emitted(world.codec, response).bytes|;
    SteppedFour(world, sent, Receive, Write(size), Read, Read);
    var written := Stepped(world, Stepped(world, sent, Receive), Write(size));
    NotExiting(world.codec, response);
    ReadInTwo(world, written, response, Outcome(world, link.document, request).value);
    ReadIsReader(world, written);
    ReadIsReader(world, Reader(world, written));
    assert [Outcome(world, link.document, request)][1..] == [];
  }

  lemma NotExiting(codec: Codec, response: Response)
    requires Delivered(codec, response).Ok?
    ensures !Emitted(codec, response).exits
  {
  }

  lemma ReadIsReader(world: World, link: Link)
    ensures Stepped(world, link, Read) == Reader(world, link)
  {
  }

  // --------------------------------------------------------------- two simple ends

  /** A worker that does nothing before the deadline is reported as timed out, and killed. */
  lemma SilenceTimesOut(world: World, link: Link, request: Request)
    requires link.running && Quiet(link) && Requestable(world.codec, request)
    ensures var (link', reply) := Requested(world, link, request, []);
            reply == Err(Timeout) && link'.killed && !link'.running
  {
  }

  /** A worker that dies at once is reported as dead. */
  lemma DeathIsNoticed(world: World, link: Link, request: Request)
    requires link.running && Quiet(link) && Requestable(world.codec, request)
    ensures var (link', reply) := Requested(world, link, request, [Crash, Read]);
            reply == Err(WorkerDied) && link'.killed && !link'.running
  {
    hide Encoded;
    var sent := Sent(world, link, request).value;
    var crashed := Stepped(world, sent, Crash);
    assert crashed == sent.(running := false, outbox := []);
    var read := Stepped(world, crashed, Read);
    assert read.queue == [Err(Closed)];
    assert SteppedAll(world, crashed, [Read]) == read by {
      assert [Read][1..] == [];
    }
    assert SteppedAll(world, sent, [Crash, Read]) == read by {
      assert [Crash, Read][1..] == [Read];
    }
  }

  /** A request that cannot be written, for its length or because nobody reads, is reported as a channel failure. */
  lemma UnwrittenIsChannelFailure(world: World, link: Link, request: Request, steps: seq<Step>)
    requires !link.running || !Requestable(world.codec, request)
    ensures var (link', reply) := Requested(world, link, request, steps);
            reply.Err? && reply.error.Channel? && link'.killed && !link'.running
  {
  }
}
