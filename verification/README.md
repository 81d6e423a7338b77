# EasyPDF, modelled and proved

EasyPDF parses untrusted PDF files in a separate worker process. The host keeps the open document, a tile cache
and a handle on the worker; when the worker dies or misbehaves it is replaced, the document is sent again, and the
request is retried once. This project models that machinery and the smaller cores around it, and proves what a
caller may rely on.

| file | what it models |
|---|---|
| `Prelude.dfy`, `Decimals.dfy` | options, results, machine numbers and checked arithmetic; numbers as decimal text |
| `Framing.dfy` | frames of bytes on a pipe: kind, length, payload |
| `Protocol.dfy` | requests, responses, the consistency check, the serialisation as an abstract lawful pair |
| `WorkerProcess.dfy` | the worker: answering a request, sending the answer, refusing what cannot be sent |
| `ResponseStream.dfy` | the reader thread: announcements and pixel blobs rebuilt into responses |
| `WorkerChannel.dfy` | host, pipes, reader and worker as one interleaved state machine, with deadlines and kills |
| `TileCache.dfy` | the LRU tile cache with a byte budget, and its behaviour over whole histories |
| `Session.dfy`, `SessionRuns.dfy`, `FaultFreeRuns.dfy` | the session, what its answers mean over every run, and when it is stranded |
| `Bitmaps.dfy`, `Rendering.dfy` | bitmap sizes, and which renderable pages reach the host |
| `PlainCodec.dfy`, `Example.dfy` | a serialisation and an installation that meet every assumption, and runs of it that show the failings |
| `History.dfy` | page commands, undo and redo against a list of snapshots |
| `Viewer.dfy`, `RenderQueue.dfy`, `PageViewer.dfy`, `Screen.dfy` | the viewer's render queue: generations, stale answers, draining, the program itself, and what it means on the screen |
| `Outline.dfy`, `TextSearch.dfy` | the budgeted outline walk; capped search and text layout |
| `Tiles.dfy` | zoom buckets, BGRA and RGBA, the page wire format |
| `Rc4.dfy`, `CorpusPdf.dfy`, `EncryptedPdf.dfy`, `PdfReader.dfy` | the corpus generator: cipher, keys, cross-reference table, and what a reader makes of its texts |

Each program part that works by changing state is a class or a method with the source's own loops, proved equal to
a specification function; the lemmas are about those functions, over all inputs, runs and interleavings.
Faults are parameters. A request's course is a list of steps (the process receives, writes some bytes, exits or
crashes; the reader reads), of any length and in any order; the deadline is the end of the list. A session
operation's `Luck` holds such lists for its first attempt and its second chance, and whether each spawn starts.

## What the proofs found

* **A failed open strands the session.** The worker drops its document before parsing the next
  (`crates/easypdf-worker/src/main.rs:198`); when that fails, the host still has the old one
  (`crates/easypdf-session/src/lib.rs:195-197`) but a healthy worker is never sent it again. Cached pages keep
  appearing, and every other page is refused although nothing is faulty (`FailedOpenStrands`; a run that does it is
  `FailedOpenStrandsHere`, and `StrandedPageIsRefused` shows one page before and after). A worker lost together with
  its replacement has the same effect: the next worker is spawned with nothing to restore (`LostReplacementStrands`).
  The comment on `send` (`lib.rs:295-299`) says the reopened document is re-sent; that holds for a request that fails
  (`SecondChanceSucceeds`), not for the spawn at the start. `FaultFreeRender` gives the exact condition, and
  `StrandedIffLastOpenRejected` what a caller sees of it: over runs without faults the session is stranded exactly when
  a document is open and the last readable file was rejected.
* **Some pages render and can never be shown.** A bitmap edge may have 20,000 pixels
  (`crates/easypdf-render/src/pdfium.rs:146`) but a frame 2^28 bytes
  (`crates/easypdf-ffi/src/framing.rs:25`). A page of more than 2^26 pixels is announced, refused, and read as a broken
  pairing, which kills the worker and then its replacement (`OversizedPageIsNeverShown`). Page size, zoom and rotation
  decide (`ShownIffSendable`); a page of 1250 points either way at a zoom of 8 is one (`LargePageIsRefused`).
* **Some files can never be opened.** A file is sent in one frame; one whose request is longer is refused before it is
  sent, and costs the worker and its replacement (`OversizedFileIsNeverOpened`, `OpenedIffSendable`,
  `LargeFileIsRefused`).
* **Search can report a cut that left nothing out.** The cap is checked before a match is seen to have nothing
  drawable (`crates/easypdf-render/src/pdfium.rs:398-456`); `FlagOvercautious` says exactly when, and
  `FlagSetForNothing` gives a document. A page whose text cannot be read is skipped without the flag
  (`UnreadablePageIsSkipped`); `AnswerIsCompleteIff` says when an answer covers the whole document.
* **A bigger cache can lose a hit**, when a tile fits only the bigger budget (`BiggerBudgetCanLoseAHit`); otherwise it
  never does (`BiggerBudgetKeepsHits`). `HitIsLostIff` says exactly which hits are lost.
* **A render under way keeps its page's pixels** after its page has been scrolled away: the viewer releases the pages
  out of range first and the answer then paints one of them again (`PixelsKeptExactly`; `StrayPixelsExist` is a run that ends so).
* **A wrong-kind frame cut short** reports the kind rather than the end of the stream, because the kind is looked at
  before the payload's error reaches the caller (`TakesCutFrame`).
* **The cross-reference table** can be read by place if and only if the last object starts before 10^10
  (`LookupFindsObjects`): an entry has twenty bytes exactly until then (`EntryLength`). A text of 10^10 characters
  anywhere but on the last page breaks it (`LongTextBreaksTable`).

## Assumptions

* A `Session` operation is one atomic call. The source releases the cache lock between lookup and insert.
* Messages serialise lawfully: what is decoded is what was encoded, pixels apart (`Codec.Lawful`). For sessions also:
  the reply to an open, a count and two flags, fits in a frame (`OpenReplyFits`). Both can be had: `PlainIsLawful` and
  `PlainSerialises` exhibit a serialisation, and `Example.dfy` an installation for which the conditions of the
  session theorems hold.
* The PDF engine is a deterministic function of the document's bytes and password.
* Writing to a process that has ended fails, a closed pipe reads as end of stream after what was already written, and
  a killed process writes nothing more.
* `usize` has 64 bits.

## Model

| member | source | states |
|---|---|---|
| Framing.TakesWholeFrame | crates/easypdf-ffi/src/framing.rs:144-171 | a read of either kind consumes a complete frame exactly, and gives its payload or the kind error; what follows is untouched |
| Framing.TakesCutFrame | crates/easypdf-ffi/src/framing.rs:86-171 | a frame cut at any byte gives the end-of-stream error and leaves nothing, except that a readable header of another kind is reported as that |
| Framing.StreamRoundTrip | crates/easypdf-ffi/src/framing.rs:74-171 | concatenated frames are read back as the same list, every byte accounted for; a wrong-kind read anywhere leaves later frames as they were |
| Framing.CutStream | crates/easypdf-ffi/src/framing.rs:86-171 | a stream cut at any byte yields its whole frames in order and then the end-of-stream error |
| Framing.AnyBytesAreBounded | crates/easypdf-ffi/src/framing.rs:86-171 | from arbitrary bytes a read never returns more than the limit, and what it returns is exactly the frame at the front of the stream |
| Framing.LengthRoundTrip | crates/easypdf-ffi/src/framing.rs:74-104 | the big-endian length field reads back as the length written, for every 32-bit value |
| Framing.FrameLayout | crates/easypdf-ffi/src/framing.rs:74-83 | the first byte is the kind, the next four the payload's length with the high byte first, the rest the payload |
| Framing.WrongKinds | crates/easypdf-ffi/src/framing.rs:148-168 | which error a frame of another kind gives to each read; only a message read tells an unknown kind apart |
| Framing.ByteReader.ReadExact | crates/easypdf-ffi/src/framing.rs:106-116 | gives exactly the next bytes and advances past them, or fails and leaves nothing |
| Framing.ByteReader.ReadHeader | crates/easypdf-ffi/src/framing.rs:86-104 | gives kind and length and refuses an over-limit length before any payload |
| Framing.ByteReader.ReadFrame | crates/easypdf-ffi/src/framing.rs:144-161 | the stream function of a message read, payload consumed even when the kind is wrong |
| Framing.ByteReader.ReadBlob | crates/easypdf-ffi/src/framing.rs:164-171 | the stream function of a blob read |
| Framing.ByteWriter.WriteHeader | crates/easypdf-ffi/src/framing.rs:74-83 | an over-limit length is refused with nothing written; otherwise five bytes go out or the write fails |
| Framing.ByteWriter.WriteFrame | crates/easypdf-ffi/src/framing.rs:119-130 | adds exactly the encoded message frame, or nothing when it is over the limit |
| Framing.ByteWriter.WriteBlob | crates/easypdf-ffi/src/framing.rs:136-142 | adds exactly the encoded blob frame, or nothing when it is over the limit |
| WorkerProcess.Worker.HandleRequest | crates/easypdf-worker/src/main.rs:180-311 | the answer and the document left open for every request, including that a failed open leaves none |
| WorkerProcess.Worker.Send | crates/easypdf-worker/src/main.rs:167-178 | which frames go out before one turns out too long, and which error that is |
| WorkerProcess.Worker.Reply | crates/easypdf-worker/src/main.rs:145-163 | an answer that cannot be sent is followed by a refusal, and the loop ends only when that fails too |
| WorkerProcess.Worker.Run | crates/easypdf-worker/src/main.rs:130-164 | everything written is a prefix of the answers to the requests read, and all of them if the stream takes it |
| ResponseStream.ReadResponses | crates/easypdf-ffi/src/worker.rs:85-111 | queues the responses of the stream up to and including the first error |
| ResponseStream.TakesAnswer | crates/easypdf-ffi/src/worker.rs:87-110 | the reader takes exactly one answer's bytes and makes of them what `Delivered` says: the answer, a refusal, or a broken pairing |
| ResponseStream.ResponsesRoundTrip | crates/easypdf-worker/src/main.rs:167-178 | responses within the limit are rebuilt by the host's reader exactly, pixels included, and then the end of the stream is reported |
| ResponseStream.QueuedPagesAreWhole | crates/easypdf-ffi/src/worker.rs:93-104 | on arbitrary bytes every queued page has the pixels it declared, at most 256 MiB |
| ResponseStream.AcceptedPagesAreWhole | crates/easypdf-ffi/src/protocol.rs:305-317 | a page that passes the consistency check has pixel length = declared length = 4 * width * height, at most 256 MiB |
| ResponseStream.WorkerAnswersHost | crates/easypdf-worker/src/main.rs:130-164 | host requests through the worker's loop and the host's reader: the items read are the answers to the requests, in order, end to end on bytes |
| WorkerChannel.WorkerHandle.Spawn | crates/easypdf-ffi/src/worker.rs:64-147 | a handle that speaks the host's version after a handshake, or the error |
| WorkerChannel.WorkerHandle.Request | crates/easypdf-ffi/src/worker.rs:173-214 | writes the request, waits out the steps, takes one item, and kills the worker on every kind of failure |
| WorkerChannel.WorkerHandle.Kill | crates/easypdf-ffi/src/worker.rs:229-232 | the process is gone and writes no more |
| WorkerChannel.RequestIsAnswered | crates/easypdf-ffi/src/worker.rs:173-214 | in every interleaving a response is the worker's answer to this very request and consistent, the worker's document is what that request leaves, and an error leaves a killed handle |
| WorkerChannel.RepliesAreAnswers | crates/easypdf-ffi/src/worker.rs:173-232 | over a handle's whole life each reply is the answer determined by the requests so far, and after the first error there are only errors |
| WorkerChannel.OverlongPageIsRefused | crates/easypdf-worker/src/main.rs:147-178 | an over-limit pixel blob ends in an error and a killed worker, never in a page built from two answers |
| WorkerChannel.SpawnedIsIdle | crates/easypdf-ffi/src/worker.rs:127-146 | a spawned worker owes no answer, has nothing open, and has the host's version |
| WorkerChannel.StepsStayBusy | crates/easypdf-ffi/src/worker.rs:85-111 | the pairing invariant between pipes, reader and queue is kept by every step of every schedule |
| WorkerChannel.PromptRequestSucceeds | crates/easypdf-ffi/src/worker.rs:182-213 | with nothing failing, a deliverable consistent answer arrives, and the link is quiet again |
| WorkerChannel.SilenceTimesOut | crates/easypdf-ffi/src/worker.rs:193-198 | a worker that does nothing before the deadline is reported as timed out and killed |
| WorkerChannel.DeathIsNoticed | crates/easypdf-ffi/src/worker.rs:184-187 | a worker that dies during the request is reported as dead |
| WorkerChannel.UnwrittenIsChannelFailure | crates/easypdf-ffi/src/worker.rs:174-180 | a request that cannot be written is reported as a channel failure, and the worker killed |
| TileCache.TileCache.Get | crates/easypdf-render/src/cache.rs:86-93 | a hit moves the key to the end of the order and changes nothing else; a miss changes nothing |
| TileCache.TileCache.Insert | crates/easypdf-render/src/cache.rs:99-117 | the whole new cache: rejection, replacement, eviction and accounting |
| TileCache.TileCache.MakeRoom | crates/easypdf-render/src/cache.rs:108-112 | the eviction loop ends with room made and never runs out of entries first, so its `break` is dead |
| TileCache.TileCache.EvictOne | crates/easypdf-render/src/cache.rs:151-160 | removes exactly the oldest entry and its bytes |
| TileCache.TileCache.Touch | crates/easypdf-render/src/cache.rs:144-149 | moves the key to the end and keeps the others in order |
| TileCache.TileCache.Clear | crates/easypdf-render/src/cache.rs:138-142 | an empty cache of the same budget |
| TileCache.GotIsSound | crates/easypdf-render/src/cache.rs:86-93 | lookups keep the order a duplicate-free listing of the map within the budget |
| TileCache.InsertedIsSound | crates/easypdf-render/src/cache.rs:99-117 | insert keeps the cache sound, is refused exactly when the tile exceeds the budget, and then changes nothing; otherwise the new key is last and other entries are untouched |
| TileCache.InsertKeepsEnd | crates/easypdf-render/src/cache.rs:108-112 | insert evicts the shortest run of oldest keys that makes room: keeping one more would not have fitted |
| TileCache.PixelsFitBudget | crates/easypdf-render/src/cache.rs:60-66 | after any history the pixels of all cached tiles together are within the budget |
| TileCache.ByLastUseIsSorted | crates/easypdf-render/src/cache.rs:144-149 | the recency list of a log holds each used key once, sorted by last use |
| TileCache.CachedKeysAreMostRecent | crates/easypdf-render/src/cache.rs:86-161 | after any history the cached keys in order are a suffix of all keys used since the last clear, sorted by last use |
| TileCache.DemandCacheIsLongestFit | crates/easypdf-session/src/lib.rs:220-250 | under lookup-then-insert traffic the cache is at every moment the longest run of most recently used keys that fits |
| TileCache.OversizedLeaveNoTrace | crates/easypdf-render/src/cache.rs:99-103 | keys whose tile exceeds the budget can be struck from the traffic without changing the cache |
| TileCache.HitIffRecentUseFits | crates/easypdf-session/src/lib.rs:220-250 | after any traffic a page is cached if and only if the distinct pages used since its last use, itself included, fit in the budget together |
| TileCache.BiggerBudgetKeepsHits | crates/easypdf-session/src/lib.rs:220-250 | a bigger budget caches a superset, as long as no tile fits only the bigger budget |
| TileCache.BiggerBudgetCanLoseAHit | crates/easypdf-render/src/cache.rs:99-117 | that condition is needed: a concrete traffic on which the bigger cache misses what the smaller hits |
| TileCache.HitIsLostIff | crates/easypdf-session/src/lib.rs:220-250 | the exact condition for one page to be cached with the smaller budget and missing with the larger |
| Session.Session.Send | crates/easypdf-session/src/lib.rs:300-338 | spawn if absent, one attempt, then replacement, restore and one retry, with the error and the handle each course leaves |
| Session.Session.Open | crates/easypdf-session/src/lib.rs:164-199 | the new session state and result; only a successful open replaces the document and clears the cache |
| Session.Session.RenderPage | crates/easypdf-session/src/lib.rs:220-250 | a hit without a request, or a request and an insert of the converted tile |
| Session.Session.Query | crates/easypdf-session/src/lib.rs:202-217 | reading requests pass through and are refused unless the answer is of their own kind |
| Session.Session.CloseDocument | crates/easypdf-session/src/lib.rs:283-288 | document and cache are gone whatever the worker said |
| SessionRuns.ExchangeIsAnswered | crates/easypdf-session/src/lib.rs:300-338 | whatever fails, an answer is the one determined by a worker holding the host's document or, only when stranded, possibly none |
| SessionRuns.ReadsRecover | crates/easypdf-session/src/lib.rs:300-338 | unless stranded, a read that is answered is answered from the host's document whether or not the first attempt died, and the worker then holds it |
| SessionRuns.EveryStep | crates/easypdf-session/src/lib.rs:164-288 | every operation with any luck keeps the invariant (a running worker holds nothing or the host's document; cached tiles are the document's pages) and gives a faithful result |
| SessionRuns.SessionRefinesLastOpened | crates/easypdf-session/src/lib.rs:164-338 | over every run with any faults each result is right for the last document that opened, read off the results alone; with none open nothing is cached |
| FaultFreeRuns.ShownPagesAreInRgba | crates/easypdf-session/src/lib.rs:220-250 | over every run with any faults, a page shown is the engine's bitmap of the open document's page at that bucket and rotation, pixel by pixel with red and blue in each other's place |
| SessionRuns.FaultFreeRender | crates/easypdf-session/src/lib.rs:300-338 | without faults an uncached renderable page is shown if and only if the session is not stranded |
| FaultFreeRuns.FaultFreeQuery | crates/easypdf-session/src/lib.rs:202-280 | without faults and unless stranded, page size, text, layout, outline and search show what the engine says of the open document, each in its own kind, and are refused exactly when the engine fails |
| FaultFreeRuns.FaultFreeOpen | crates/easypdf-session/src/lib.rs:175-198 | without faults an open gives the engine's verdict: opened with its page count, a password asked for, or refused |
| FaultFreeRuns.FaultFreeHandshake | crates/easypdf-worker/src/main.rs:182-189 | a new worker reports its version, whether it is confined and whether it has an engine |
| SessionRuns.OversizedFileIsNeverOpened | crates/easypdf-session/src/lib.rs:164-199 | a file whose request does not fit a frame is refused under every luck, changes neither document nor cache, and costs the worker and its replacement |
| SessionRuns.OpenedIffSendable | crates/easypdf-session/src/lib.rs:164-199 | without faults a file the engine opens is opened if and only if its request fits a frame |
| FaultFreeRuns.StrandedIffLastOpenRejected | crates/easypdf-session/src/lib.rs:164-338 | over runs without faults the session is stranded if and only if a document is open and the last readable file was rejected |
| FaultFreeRuns.PageIsShownIff | crates/easypdf-session/src/lib.rs:220-250 | at the end of such a run a renderable uncached page is shown if and only if the last readable file was opened |
| SessionRuns.FailedOpenStrands | crates/easypdf-worker/src/main.rs:196-221 | a fault-free failed open leaves the host's document and the worker with none |
| SessionRuns.LostReplacementStrands | crates/easypdf-session/src/lib.rs:304-320 | a dead worker whose replacement does not start empties the slot; the next worker starts and answers without fault but is never sent the document, and a read gets the answer for none |
| SessionRuns.SecondChanceSucceeds | crates/easypdf-session/src/lib.rs:313-336 | however the first attempt failed, a replacement that starts and answers promptly gives the answer the host's document determines and is left holding what the request leaves open |
| SessionRuns.ShownPageIsOneAccess | crates/easypdf-session/src/lib.rs:220-250 | each page shown is one demand access, so the cache theorems apply to sessions |
| Bitmaps.QuarterTurnTransposes | crates/easypdf-render/src/pdfium.rs:269-289 | turning by any number of quarters transposes the bitmap, or its refusal, exactly when the number is odd |
| Bitmaps.BitmapIsPageSized | crates/easypdf-render/src/pdfium.rs:269-289 | upright or half turned, the bitmap is as wide and high as the page at that zoom to half a pixel; at a quarter turn as wide as the page is high |
| Bitmaps.RotationIsCongruent | crates/easypdf-render/src/pdfium.rs:464-471 | a right angle is rendered as its remainder, anything else upright |
| Bitmaps.RefusedIffImplausible | crates/easypdf-render/src/pdfium.rs:284-289 | a page is refused exactly when an edge comes to less than half a pixel or rounds to over 20,000 |
| Rendering.OversizedPageIsNeverShown | crates/easypdf-render/src/pdfium.rs:284-302 | a page whose size, zoom and rotation come to over 2^26 pixels is refused under every luck, and unless stranded costs the worker and its replacement |
| Rendering.ShownIffSendable | crates/easypdf-render/src/pdfium.rs:260-303 | without faults a renderable page is shown if and only if its size, zoom and rotation come to at most 2^26 pixels |
| Rendering.OversizedPagesExist | crates/easypdf-render/src/pdfium.rs:284-289 | a page size and zoom within the renderer's limits that come to more |
| Example.FailedOpenStrandsHere | crates/easypdf-worker/src/main.rs:196-221 | a run of two fault-free opens, the second of a broken file, that ends stranded with the first document still reported |
| Example.StrandedPageIsRefused | crates/easypdf-session/src/lib.rs:300-338 | in that run one page is shown before the failed open and refused after it, both without faults |
| Example.LargePageIsRefused | crates/easypdf-render/src/pdfium.rs:284-302 | in the same installation a page at a zoom of 8 is refused under every luck |
| Example.LargeFileIsRefused | crates/easypdf-ffi/src/framing.rs:74-83 | a good file of over 2^28 bytes is refused under every luck |
| Example.FaultsPlayNoPart | crates/easypdf-worker/src/main.rs:196-221 | the run that ends stranded is one without faults |
| History.DegreesRoundTrip | crates/easypdf-core/src/document.rs:52-73 | any right angle, negative or beyond a turn, is accepted as its remainder, and anything else is refused |
| History.MovedPages | crates/easypdf-core/src/document.rs:135-146 | where every page of a move comes from: the moved one lands at its target, the others keep their order |
| History.RotatingTurnsThePage | crates/easypdf-core/src/command.rs:35-39 | the named page turns by the angle given, no size and no other page changes; refused exactly out of range |
| History.MovingPutsThePage | crates/easypdf-core/src/document.rs:135-146 | the page at the first index lands at the second, those between close up, the rest stay; refused for the first index out of range |
| History.LabelsCountFromOne | crates/easypdf-core/src/command.rs:50-75 | labels number pages from one, source before target |
| History.InverseRestores | crates/easypdf-core/src/command.rs:34-71 | a command that applied inverts without error and gives the document back exactly |
| History.Document.Turn | crates/easypdf-core/src/command.rs:35-39 | turns one page or reports both numbers and changes nothing |
| History.Document.MovePage | crates/easypdf-core/src/document.rs:135-146 | moves a page in place or reports the first bad index and changes nothing |
| History.Document.Apply | crates/easypdf-core/src/command.rs:35-67 | a command's effect on the document in place; a refused command changes nothing |
| History.Document.Invert | crates/easypdf-core/src/command.rs:41-71 | a command's inverse in place |
| History.CommandStack.Apply | crates/easypdf-core/src/command.rs:96-102 | records an applied command and forgets what was undone; a refused one changes neither document nor stacks |
| History.CommandStack.Undo | crates/easypdf-core/src/command.rs:105-113 | the new document and both stacks |
| History.CommandStack.Redo | crates/easypdf-core/src/command.rs:116-124 | the new document and both stacks |
| History.ActionsAgree | crates/easypdf-core/src/command.rs:96-124 | each action keeps the stacks in step with a list of snapshots and a cursor; undo and redo never fail and give the label of the command passed over, or none at the ends; a refused command changes nothing |
| History.RunsAgree | crates/easypdf-core/src/command.rs:96-124 | any run from an empty stack shows what the snapshot list shows |
| History.UndoingEverythingRestores | crates/easypdf-core/src/command.rs:105-113 | undoing all that is done gives the starting document back |
| Viewer.VisiblePageRange | apps/desktop/src/viewer/viewer.ts:317-349 | first and last page on screen and the first of those covering most, zero when none is |
| Viewer.CurrentPageCoversMost | apps/desktop/src/viewer/viewer.ts:317-349 | the reported page is on screen and no page on screen covers more |
| Screen.OnScreenMeansShared | apps/desktop/src/viewer/viewer.ts:330-332 | a page is on screen exactly when it has a line in common with the viewport |
| Screen.CoverageIsOverlap | apps/desktop/src/viewer/viewer.ts:340-341 | coverage is the height of the longest stretch page and viewport have in common |
| Screen.RangeIsEnds | apps/desktop/src/viewer/viewer.ts:320-348 | first and last are the first and last pages on screen, and the current one covers more than every page on screen before it; all zero when none is on screen |
| Screen.WantedIffNearScreen | apps/desktop/src/viewer/viewer.ts:233-237 | in page mode the current page, in scroll mode the pages within two of pages on screen on both sides |
| Screen.ScrollingFollowsTheScreen | apps/desktop/src/viewer/viewer.ts:302-305 | after a scroll the current page is on screen and none covers more |
| Screen.ZoomIsTheNearestAllowed | apps/desktop/src/features/navigation.ts:29-34 | the zoom asked for, or the nearest between 0.1 and 8 |
| Screen.RotationAdvances | apps/desktop/src/features/navigation.ts:83-88 | the rotation advances by quarters and stays within a turn |
| Screen.PageIsTheNearestThereIs | apps/desktop/src/features/navigation.ts:16 | the page asked for, or the nearest there is |
| Viewer.ActedIsHonest | apps/desktop/src/viewer/viewer.ts:213-306 | every action and every step of a render keeps the invariant of generations, slots and keys |
| Viewer.NoStalePaint | apps/desktop/src/viewer/viewer.ts:213-281 | in every interleaving a live slot with a key holds the full render of its own page at the zoom and rotation of this moment |
| RenderQueue.DrainingPaintsWantedPages | apps/desktop/src/viewer/viewer.ts:221-281 | after an update, draining ends and every wanted page whose own requests succeed is painted in full at the zoom and rotation of that moment, whatever other or earlier renders were rejected |
| Screen.DrainingPaintsTheScreen | apps/desktop/src/viewer/viewer.ts:221-306 | so is every page on screen, or in page mode the current page |
| Screen.NoDowngrade | apps/desktop/src/viewer/viewer.ts:257-268 | in any run a page on display with a picture is never set back to a preview |
| Screen.EmptyPageGetsPreviewFirst | apps/desktop/src/viewer/viewer.ts:257-274 | an empty page is shown as a preview and then in full |
| Screen.WorthlessTasksAreDropped | apps/desktop/src/viewer/viewer.ts:225-244 | a queued render that is stale, no longer wanted or already painted starts nothing |
| Screen.WantedTasksStart | apps/desktop/src/viewer/viewer.ts:225-246 | any other of a page on display starts, for the zoom and rotation of that moment |
| RenderQueue.PixelsKeptExactly | apps/desktop/src/viewer/viewer.ts:284-306 | after update and drain the pages holding pixels are exactly the wanted ones and the one whose render was under way |
| RenderQueue.StrayPixelsExist | apps/desktop/src/viewer/viewer.ts:248-306 | a run of seven actions that ends with pixels in a page scrolled away while its render was under way |
| PageViewer.PageViewer.IsPageWanted | apps/desktop/src/viewer/viewer.ts:233-237 | the current page in page mode, the pages within two of the visible range in scroll mode |
| PageViewer.PageViewer.UpdateVisiblePages | apps/desktop/src/viewer/viewer.ts:284-306 | schedules the near pages, frees the others, follows the page covering most |
| PageViewer.PageViewer.BuildSlots | apps/desktop/src/viewer/viewer.ts:160-180 | one blank slot for each page the mode shows, the old ones let go |
| PageViewer.PageViewer.Invalidate | apps/desktop/src/viewer/viewer.ts:413-431 | a new generation with the slots rebuilt or their keys cleared, and the update after it |
| PageViewer.PageViewer.StartNext | apps/desktop/src/viewer/viewer.ts:225-246 | a task of another generation, not wanted, without a slot or already painted is dropped; otherwise its render is under way |
| PageViewer.PageViewer.Resume | apps/desktop/src/viewer/viewer.ts:248-281 | each wait of a render: rejection or a new generation ends it, the preview only for an empty slot, each picture asked for at the rotation of that moment, the key only after the full paint |
| PageViewer.PageViewer.GoToPage | apps/desktop/src/features/navigation.ts:12-27 | clamps the page, rebuilds only in page mode, does nothing on the same page there |
| Outline.Collector.Collect | crates/easypdf-render/src/pdfium.rs:474-499 | the recursive walk with a shared budget, on any links, cycles included, appends exactly what the walk's definition emits |
| Outline.ReadOutline | crates/easypdf-render/src/pdfium.rs:309-321 | the outline of the root with the full budget |
| Outline.WalkSpendsOnePerEntry | crates/easypdf-render/src/pdfium.rs:480-484 | entries emitted and budget left add up to the budget, cycles or not |
| Outline.WalkIndents | crates/easypdf-render/src/pdfium.rs:486-497 | depth starts at the given one and never rises by more than one |
| Outline.SmallerBudgetIsPrefix | crates/easypdf-render/src/pdfium.rs:474-499 | a smaller budget emits a prefix of what a larger one does, on any graph |
| Outline.WalkIsPreorder | crates/easypdf-render/src/pdfium.rs:474-499 | on an acyclic outline exactly the first `budget` entries of the preorder |
| Outline.EntriesAreTheBookmarks | crates/easypdf-render/src/pdfium.rs:486-497 | titles and pages are the bookmarks' own; a first child follows its parent one level deeper, the next sibling follows everything below on the same level |
| Outline.LeftoverMeansFinite | crates/easypdf-render/src/pdfium.rs:474-499 | budget left over proves the links finite and all of them emitted |
| Outline.OutlineIsHonest | crates/easypdf-render/src/pdfium.rs:309-321 | fewer than 5,000 entries if and only if the links are a finite outline of fewer than 5,000 |
| TextSearch.Search | crates/easypdf-render/src/pdfium.rs:398-456 | exactly the first 500 drawable matches in page order, and the flag set exactly when a match was reached with the cap full |
| TextSearch.TextLayout | crates/easypdf-render/src/pdfium.rs:345-391 | exactly the first 20,000 characters that have text and bounds, and the flag likewise |
| TextSearch.FlagIsHonest | crates/easypdf-render/src/pdfium.rs:120-132 | an unset flag means nothing was left out, a set flag that the cap was reached, and anything left out sets it |
| TextSearch.FlagOvercautious | crates/easypdf-render/src/pdfium.rs:398-456 | the flag is set for nothing if and only if the cap was exactly reached and the last item was not worth keeping |
| TextSearch.FlagSetForNothing | crates/easypdf-render/src/pdfium.rs:398-456 | a document of 500 drawable matches and one that is not, whose search says it was cut short with nothing left out |
| TextSearch.UnreadablePageIsSkipped | crates/easypdf-render/src/pdfium.rs:398-456 | an unreadable page changes neither hits nor flag |
| TextSearch.AnswerIsCompleteIff | crates/easypdf-render/src/pdfium.rs:398-456 | the answer holds every drawable match, whatever unreadable pages may hold, if and only if every page could be read and nothing found was left out |
| TextSearch.SearchIsHonest | crates/easypdf-render/src/pdfium.rs:398-456 | what a caller may conclude: at most 500 hits in page order, none degenerate, all of them when the flag is unset |
| TextSearch.HitsAreMatches | crates/easypdf-render/src/pdfium.rs:398-456 | every hit is a match on the page it names, reduced to its drawable boxes |
| TextSearch.CandidatesAreMatches | crates/easypdf-render/src/pdfium.rs:398-456 | before the cap, the candidates are the matches of readable pages, all of them, each under its own page |
| TextSearch.DrawableHasInside | crates/easypdf-render/src/pdfium.rs:398-456 | a box is drawable exactly when it has a point inside |
| TextSearch.LayoutIsHonest | crates/easypdf-render/src/pdfium.rs:345-391 | every box is a character with its own text and place, and below the cap none that has both is missing |
| Tiles.BucketRoundTrip | crates/easypdf-render/src/cache.rs:23-35 | bucket to zoom to bucket is exact, so host and worker use the same key |
| Tiles.NearestBucket | crates/easypdf-render/src/cache.rs:23-35 | no other bucket is nearer, and within 1/16 to 8191.875 the error is at most 1/16 |
| Tiles.DegenerateZooms | crates/easypdf-render/src/cache.rs:24-26 | what is not a positive number takes the smallest bucket |
| Tiles.BgraToRgba | crates/easypdf-render/src/wire.rs:17-22 | the in-place loop swaps the outer bytes of every whole pixel and leaves a ragged tail alone |
| Tiles.SwapTwice | crates/easypdf-render/src/wire.rs:17-22 | the conversion is its own inverse at every length |
| Tiles.ChannelsChangePlaces | crates/easypdf-render/src/wire.rs:17-22 | in every whole pixel the first and third bytes change places, the others and a ragged tail stay |
| Tiles.PageRoundTrip | crates/easypdf-render/src/wire.rs:30-59 | decoding gives back the encoded page if its length is 4 * width * height without overflow, and nothing otherwise |
| Tiles.DecodedPageIsEncoded | crates/easypdf-render/src/wire.rs:44-59 | whatever decodes is the encoding of what it decodes to |
| Tiles.PageLayout | crates/easypdf-render/src/wire.rs:30-36 | width, then height, each with the low byte first, then the pixels |
| Rc4.KeySetup | scripts/make-corpus.py:86-90 | the state array after the in-place swaps |
| Rc4.Encipher | scripts/make-corpus.py:85-99 | the output, byte by byte the input against the key stream |
| Rc4.OutputPermutes | scripts/make-corpus.py:86-97 | the state is a permutation of 0 to 255 through key setup and any length of output |
| Rc4.CipherTwice | scripts/make-corpus.py:85-99 | enciphering twice under one non-empty key is the identity |
| Rc4.XorIsBitwise | scripts/make-corpus.py:98 | each bit is set exactly when the two bytes differ in it |
| Rc4.CipherChangesIff | scripts/make-corpus.py:94-98 | a byte is left as it is exactly where the key stream is zero |
| Rc4.ScheduleRound | scripts/make-corpus.py:86-90 | from the identity, each round advances by the state's and the key's byte and exchanges two places |
| Rc4.ScheduleTellsKey | scripts/make-corpus.py:88-90 | keys of one length, at most 256, that are scheduled alike are the same key |
| Rc4.OutputRound | scripts/make-corpus.py:93-98 | each output round advances both places, exchanges their contents, and picks the byte by their sum |
| Rc4.KeysAreDigests | scripts/make-corpus.py:117-132 | what the document's key and an object's key are digests of, byte by byte (ISO 32000-1, section 7.6.2, Algorithm 1, and section 7.6.3, Algorithm 2) |
| Rc4.ReaderDecrypts | scripts/make-corpus.py:102-135 | a reader with the password recovers the padded password from the owner entry, meets the padding in the user entry, and decrypts object 5 under its own key (ISO 32000-1, section 7.6) |
| CorpusPdf.Assemble | scripts/make-corpus.py:50-65 | for every list of bodies, each recorded offset is the length of all that comes before the object, and there the object stands; the table follows |
| CorpusPdf.LookupFindsObjects | scripts/make-corpus.py:51-60 | every object stands at its recorded offset, and reading each object's own 20-byte place in the table gives that offset if and only if the last object starts before 10^10 (ISO 32000-1, section 7.5.4) |
| CorpusPdf.LongTextBreaksTable | scripts/make-corpus.py:36-60 | a text of 10^10 characters anywhere but on the last page puts the last object beyond that |
| CorpusPdf.LongTextsExist | scripts/make-corpus.py:36-37 | such texts exist and can be encoded |
| CorpusPdf.EntryLength | scripts/make-corpus.py:59-60 | an entry has 20 bytes if and only if its offset is below 10^10 |
| CorpusPdf.StartxrefFindsTable | scripts/make-corpus.py:56-64 | the number at the end of the file reads as the place where the table starts |
| CorpusPdf.BuildMultipage | scripts/make-corpus.py:20-65 | the file with a page object and a content stream per text, or nothing when a text is not ASCII |
| CorpusPdf.PageTreeListsPages | scripts/make-corpus.py:28-32 | a reader of the page tree's list finds exactly the page objects, all of them, in order |
| CorpusPdf.EveryPageIsReachable | scripts/make-corpus.py:20-65 | from `startxref` and the trailer's root through table, catalog and page tree, whose list names exactly the page objects, to each page and its own text |
| PdfReader.PageTellsContents | scripts/make-corpus.py:38-44 | a reader of a page object finds the number of its content stream |
| PdfReader.PageTellsSize | scripts/make-corpus.py:41 | and its box, width before height |
| PdfReader.StreamGivesContent | scripts/make-corpus.py:45-48 | reading as many characters as the length says gives back the content, whatever characters it has |
| PdfReader.ContentShowsText | scripts/make-corpus.py:37 | the content shows the text |
| PdfReader.ObjectTellsNumber | scripts/make-corpus.py:54 | an object says its number and its body follows |
| PdfReader.TableTellsCount | scripts/make-corpus.py:57 | the table covers one entry more than there are objects, from zero |
| PdfReader.TrailerTellsCount | scripts/make-corpus.py:61-62 | the trailer gives the same size |
| PdfReader.TrailerTellsRoot | scripts/make-corpus.py:62 | the trailer's root is object 1 |
| EncryptedPdf.BuildEncrypted | scripts/make-corpus.py:107-172 | the trailer names the encryption dictionary and carries the identifier; the table leads to the entries that authenticate the password and to a stream that a reader with password and identifier deciphers into the page's content |
| EncryptedPdf.OnlyPageIsListed | scripts/make-corpus.py:137-143 | the page tree's list names object 3 and nothing else |
| PdfReader.OnlyPageTellsContents | scripts/make-corpus.py:140-143 | the one page's contents are object 5 |
| PdfReader.TrailerTellsEntry | scripts/make-corpus.py:166-171 | a reader finds the encryption entry and the identifier in the trailer just as they stand in the extra entry |
| PdfReader.EntryTellsDictionary | scripts/make-corpus.py:168 | the encryption dictionary is object 6 |
| PdfReader.EntryTellsIdentifier | scripts/make-corpus.py:166-169 | the identifier reads back from its hexadecimal text |
| PdfReader.DictionaryTellsOwner | scripts/make-corpus.py:147-151 | the owner entry reads back from the dictionary |
| PdfReader.DictionaryTellsUser | scripts/make-corpus.py:147-151 | and the user entry under its own name |

## Left out

- Interleaving of two `Session` operations, and poisoned locks: see the assumptions.
- `Worker::restart` and `Worker::shutdown`: the session does not use them; dropping the handle kills the process.
- Operating system behaviour: processes, pipes and clocks are as assumed above. Requests reach the pipe whole or the write fails; other I/O errors are one error.
- The serialisation format, and error texts beyond the refusal of an answer that is too long.
- Floating-point rounding and range: zooms, sizes and coordinates are reals, in messages multiples of 2^-149, as every finite single-precision number is. Page sizes that are not numbers are not modelled. Bucket zooms are exact in both.
- Overflow of the cache's byte counter: sums are unbounded integers.
- The engine itself, text extraction and matching: functions of the document. It may give a bitmap of another size than asked; the page is then judged by the consistency check alone. Sibling links are followed from the bookmark itself.
- MD5: any function with 16-byte values. Passwords are taken as their Latin-1 bytes, and one that has none is not modelled.
- EveryPageIsReachable: for files whose last object starts before 10^10; `LookupFindsObjects` shows that the table fails beyond.
- BuildEncrypted: what the table leads to is stated under the same condition.
- Viewer: canvas, DOM, overlays, thumbnails, fit modes and error messages. A slot is a value in a store under its identity. A missing 2D context, a changing pixel ratio and the rounding of keys to three digits are not modelled.
- Viewer: which document the host has open. A render asked for between the host's opening a document and the viewer's hearing of it is of the new document in an old slot, until the rebuild that follows.
- Scroll events that follow from scrolling to a page are scroll actions of their own.
- Sandbox, resource limits, permissions, library lookup, dialogs and commands: nothing to prove, or easy members.
