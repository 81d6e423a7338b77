/**
 An installation that meets every assumption made of one, and runs of it that show the session's failings:
 a session stranded without any fault, and a page that renders but is never shown.
 */
module Example {
  import opened Bitmaps
  import opened Decimals
  import opened FaultFreeRuns
  import opened PlainCodec
  import opened Prelude
  import opened Protocol
  import opened Rendering
  import opened Session
  import opened SessionRuns
  import opened Tiles
  import opened WorkerChannel
  import opened WorkerProcess
  import opened ResponseStream
  import Framing
  import Outline
  import TileCache

  // ------------------------------------------------------------ lengths of messages

  /** A tree whose text is at most this long. */
  ghost predicate Within(value: Value, length: nat) {
    |Printed(value)| <= length
  }

  lemma PowersOfTen()
    ensures PowerOfTen(20) == 100_000_000_000_000_000_000
    ensures PowerOfTen(50) == 100_000_000_000_000_000_000_000_000_000_000_000_000_000_000_000_000
  {
    assert PowerOfTen(5) == 100_000;
    assert PowerOfTen(10) == 10_000_000_000;
    assert PowerOfTen(15) == 1_000_000_000_000_000;
    assert PowerOfTen(25) == 10_000_000_000_000_000_000_000_000;
    assert PowerOfTen(30) == 1_000_000_000_000_000_000_000_000_000_000;
    assert PowerOfTen(35) == 100_000_000_000_000_000_000_000_000_000_000_000;
    assert PowerOfTen(40) == 10_000_000_000_000_000_000_000_000_000_000_000_000_000;
    assert PowerOfTen(45) == 1_000_000_000_000_000_000_000_000_000_000_000_000_000_000_000;
  }

  lemma NumbersAreShort(n: nat)
    requires n < PowerOfTen(50)
    ensures Within(Number(n), 60)
  {
    hide PowerOfTen;
    DecimalLength(n, 49);
  }

  lemma {:induction false} ShortItems(value: Value, i: nat, length: nat)
    requires value.Items? && i <= |value.items|
    requires forall j | i <= j < |value.items| :: Within(value.items[j], length)
    ensures |PrintedFrom(value, i)| <= 1 + length * (|value.items| - i)
    decreases |value.items| - i
  {
    hide Printed;
    if i < |value.items| {
      assert Within(value.items[i], length);
      ShortItems(value, i + 1, length);
      assert length + length * (|value.items| - (i + 1)) == length * (|value.items| - i);
    }
  }

  lemma ShortLists(value: Value, length: nat)
    requires value.Items? && forall j | 0 <= j < |value.items| :: Within(value.items[j], length)
    ensures Within(value, 2 + length * |value.items|)
  {
    hide PrintedFrom;
    ShortItems(value, 0, length);
  }

  lemma ShortTexts(text: string)
    ensures Within(TextValue(text), 2 + 60 * |text|)
  {
    hide Printed, PowerOfTen, Within;
    PowersOfTen();
    var value := TextValue(text);
    forall j | 0 <= j < |text|
      ensures Within(value.items[j], 60)
    {
      NumbersAreShort(text[j] as int);
    }
    ShortLists(value, 60);
  }

  /** Up to a handful of fields, each within ten thousand bytes. */
  lemma ShortMessages(value: Value)
    requires value.Items? && |value.items| <= 4
    requires forall j | 0 <= j < |value.items| :: Within(value.items[j], 10_000)
    ensures |Printed(value)| <= 40_002
  {
    hide Printed;
    ShortLists(value, 10_000);
  }

  lemma FieldsAreShort(value: Value)
    requires value.Number? && 0 <= value.n < PowerOfTen(50)
    ensures Within(value, 10_000)
  {
    hide Printed, PowerOfTen;
    NumbersAreShort(value.n);
  }

  /** The assumption made of the serialisation for sessions can be met. */
  lemma PlainSerialises()
    ensures Serialises(Plain)
  {
    hide Printed, PowerOfTen, Codec.Lawful;
    PlainIsLawful();
    PowersOfTen();
    forall pageCount: Usize, encrypted, signed
      ensures |Plain.encodeResponse(DocumentOpened(pageCount, encrypted, signed))| <= Framing.MAX_FRAME_BYTES
    {
      var value := ResponseValue(DocumentOpened(pageCount, encrypted, signed));
      forall j | 0 <= j < 4
        ensures Within(value.items[j], 10_000)
      {
        FieldsAreShort(value.items[j]);
      }
      ShortMessages(value);
    }
  }

  // -------------------------------------------------------------- an installation

  /** A white bitmap of the size asked for. */
  function Blank(edges: Edges): Result<Tile, string> {
    if 0 < edges.width <= MAX_BITMAP_EDGE && 0 < edges.height <= MAX_BITMAP_EDGE then
      Ok(Tile(edges.width, edges.height, seq(4 * edges.width * edges.height, _ => 0xFF)))
    else Err("no such bitmap")
  }

  /** Opens anything that is not empty; each document is one page of 1250 points either way. */
  const Engine: Engine := WorkerProcess.Engine(
    (doc: Doc) => if doc.data == [] then OpenFailed("empty") else OpenOutcome.Opened(1),
    (doc: Doc, page: nat) => Ok((1250.0, 1250.0)),
    (doc: Doc, page: nat, edges: Edges, turn: int) => Blank(edges),
    (doc: Doc, page: nat) => Ok(""),
    (doc: Doc, page: nat) => Ok([]),
    (doc: Doc) => Outline.Bookmarks(None, (n: nat) => None, (n: nat) => None, (n: nat) => "", (n: nat) => None),
    (doc: Doc, query: string, matchCase: bool) => [])

  ghost const Here: World := World(Plain, Some(Engine), "1", "1", true)

  const Paper: Doc := Doc([7], None)

  lemma RequestsFit(request: Request)
    requires request in {Handshake, OpenDocument([7], None), OpenDocument([], None)}
    ensures Requestable(Plain, request)
  {
    hide Printed, PowerOfTen;
    PowersOfTen();
    var value := RequestValue(request);
    FieldsAreShort(value.items[0]);
    if request.OpenDocument? {
      var data, password := value.items[1], value.items[2];
      assert forall j | 0 <= j < |data.items| :: data.items[j] == Number(7);
      FieldsAreShort(Number(7));
      ShortLists(password, 60);
      if data.items != [] {
        NumbersAreShort(7);
      }
      ShortLists(data, 60);
    }
    ShortMessages(value);
  }

  lemma RenderRequestFits(zoom: Single)
    requires 0.0 <= zoom <= 8.0
    ensures Requestable(Plain, RenderPage(0, zoom, 0))
  {
    hide Printed, PowerOfTen;
    PowersOfTen();
    var value := RequestValue(RenderPage(0, zoom, 0));
    assert 0 <= value.items[2].n < 100_000_000_000_000_000_000_000_000_000_000_000_000_000_000_000_000 by {
      assert 0.0 <= zoom * STEPS_IN_ONE <= 8.0 * STEPS_IN_ONE;
    }
    FieldsAreShort(value.items[0]);
    FieldsAreShort(value.items[1]);
    FieldsAreShort(value.items[2]);
    FieldsAreShort(value.items[3]);
    ShortMessages(value);
  }

  lemma AnswersFit(response: Response)
    requires response in {Ready("1", true, true), Failed(MalformedDocument("empty")), NoDocument}
    ensures TooLong(Plain, response).None? && response.IsSelfConsistent()
  {
    hide Printed, PowerOfTen, ErrorValue;
    PowersOfTen();
    var value := ResponseValue(response);
    FieldsAreShort(value.items[0]);
    if response.Ready? {
      ShortTexts("1");
      FieldsAreShort(value.items[2]);
      FieldsAreShort(value.items[3]);
    } else {
      ReasonsAreShort(response.error);
    }
    ShortMessages(value);
  }

  lemma ReasonsAreShort(error: WorkerError)
    requires error.MalformedDocument? && |error.reason| <= 20
    ensures Within(ErrorValue(error), 10_000)
  {
    hide Printed, PowerOfTen;
    PowersOfTen();
    NumbersAreShort(0);
    ShortTexts(error.reason);
    var value := ErrorValue(error);
    assert Within(value.items[0], 1_202) && Within(value.items[1], 1_202);
    ShortLists(value, 1_202);
  }

  lemma AnnouncementFits(edges: Edges)
    requires 0 < edges.width <= MAX_BITMAP_EDGE && 0 < edges.height <= MAX_BITMAP_EDGE
    ensures MessageFrame(Plain, Announcement(edges)).Fits()
  {
    hide Printed, PowerOfTen;
    PowersOfTen();
    AreaFits(edges.width, edges.height);
    var value := ResponseValue(Announcement(edges).Bare());
    forall j | 0 <= j < 4
      ensures Within(value.items[j], 10_000)
    {
      FieldsAreShort(value.items[j]);
    }
    ShortMessages(value);
  }

  /** The installation works for opening either file, whatever is open. */
  lemma OpensWork(request: Request, document: Option<Doc>)
    requires request in {OpenDocument([7], None), OpenDocument([], None)}
    requires document == None || document == Some(Paper)
    ensures Workable(Here, document, request)
  {
    hide Serialises, Requestable, TooLong;
    PlainSerialises();
    RequestsFit(Handshake);
    RequestsFit(OpenDocument([7], None));
    RequestsFit(request);
    AnswersFit(Ready("1", true, true));
    AnswersFit(Failed(MalformedDocument("empty")));
    SerialisesIsLawful(Plain);
    OpenReplyIsSentWhole(Plain, DocumentOpened(1, false, false));
  }

  // ------------------------------------------------------------------------- runs

  /** The course without faults from a state. */
  ghost function Fine(state: State, request: Request): Luck {
    NoFaults(Here, state.worker, Held(state), request)
  }

  ghost const Opening: Op := OpenFile(Some([7]), "a.pdf", None, Fine(NewSession, OpenDocument([7], None)))

  ghost const Opened: State := After(Here, [Opening])

  ghost const Failing: Op := OpenFile(Some([]), "b.pdf", None, Fine(Opened, OpenDocument([], None)))

  ghost const Left: State := After(Here, [Opening, Failing])

  lemma AfterOne(op: Op)
    ensures After(Here, [op]) == Performed(Here, NewSession, op).0
  {
    hide Performed;
    assert [op][..0] == [];
  }

  lemma AfterTwo(first: Op, second: Op)
    ensures After(Here, [first, second]) == Performed(Here, After(Here, [first]), second).0
  {
    hide Performed;
    assert [first, second][..1] == [first];
  }

  lemma NothingFits()
    ensures WorkerFits(None, None)
  {
  }

  lemma OpeningWorks()
    ensures Good(Here, Opened) && Held(Opened) == Some(Paper) && !Stranded(Opened.worker, Held(Opened))
    ensures Opened.cache == NewSession.cache
  {
    hide Good, Exchanged, Workable, NoFaults, WorkerFits;
    AfterOne(Opening);
    PlainSerialises();
    assert forall op | op in [Opening] :: Allowed(op);
    RunsStayGood(Here, [Opening]);
    OpensWork(OpenDocument([7], None), None);
    NothingFits();
    FaultFreeExchange(Here, None, None, OpenDocument([7], None));
  }

  /**
   Two files are opened without any fault, and the second does not open: the session has the first one still, and
   is stranded.
   */
  lemma FailedOpenStrandsHere()
    ensures Held(Left) == Some(Paper) && Stranded(Left.worker, Held(Left)) && Good(Here, Left)
    ensures Left.cache == NewSession.cache
  {
    hide Good, OpenedFile, Workable, Stranded, NoFaults;
    OpeningWorks();
    AfterTwo(Opening, Failing);
    PlainSerialises();
    assert forall op | op in [Opening, Failing] :: Allowed(op);
    RunsStayGood(Here, [Opening, Failing]);
    OpensWork(OpenDocument([], None), Some(Paper));
    FailedOpenStrands(Here, Opened, [], "b.pdf", None);
  }

  /** That run is one in which nothing goes wrong but the second file itself. */
  lemma FaultsPlayNoPart()
    ensures FaultFree(Here, [Opening, Failing]) && LastOpenRejected(Here, [Opening, Failing])
  {
    hide Workable, NoFaults, Performed, Good, Stranded, LastOpenRejected, After, Serialises;
    OpeningWorks();
    FailedOpenStrandsHere();
    OpensWork(OpenDocument([7], None), None);
    OpensWork(OpenDocument([], None), Some(Paper));
    assert After(Here, []) == NewSession by {
      AfterNone();
    }
    assert [Opening, Failing][..1] == [Opening] && [Opening][..0] == [];
    assert FaultFree(Here, []) && FaultFree(Here, [Opening]) && FaultFree(Here, [Opening, Failing]);
    PlainSerialises();
    assert forall op | op in [Opening, Failing] :: Allowed(op);
    StrandedIffLastOpenRejected(Here, [Opening, Failing]);
  }

  lemma AfterNone()
    ensures After(Here, []) == NewSession
  {
  }

  lemma BitmapsHere(edges: Edges)
    requires edges in {Edges(1250, 1250), Edges(10_000, 10_000)}
    ensures var tile := Engine.rasterise(Paper, 0, edges, 0);
            tile.Ok? && tile.value.width == edges.width && tile.value.height == edges.height &&
            |tile.value.pixels| == 4 * edges.width * edges.height
  {
  }

  lemma SmallZooms()
    ensures ZoomOf(FromZoom(Finite(1.0))) == 1.0 && ZoomOf(FromZoom(Finite(8.0))) == 8.0
  {
  }

  lemma SmallSize()
    ensures BitmapSize(1250.0, 1250.0, TileKey(0, FromZoom(Finite(1.0)), 0)) == Ok(Edges(1250, 1250))
  {
  }

  /** The page at a zoom of one or eight. */
  lemma PageIsRenderable(state: State, zoom: real)
    requires Held(state) == Some(Paper) && state.cache == NewSession.cache && zoom in {1.0, 8.0}
    ensures var edges := if zoom == 1.0 then Edges(1250, 1250) else Edges(10_000, 10_000);
            && Renderable(Here, state, TileKey(0, FromZoom(Finite(zoom)), 0), edges)
            && Equipped(Here, RenderPage(0, ZoomOf(FromZoom(Finite(zoom))), 0), edges)
  {
    hide Serialises, Requestable, TooLong, MessageFrame, STEPS_IN_ONE, BitmapSize, FromZoom, ZoomOf, Blank;
    SmallSize();
    OversizedPagesExist();
    SmallZooms();
    var edges := if zoom == 1.0 then Edges(1250, 1250) else Edges(10_000, 10_000);
    PlainSerialises();
    RequestsFit(Handshake);
    RequestsFit(OpenDocument([7], None));
    BitmapsHere(edges);
    RenderRequestFits(ZoomOf(FromZoom(Finite(zoom))));
    AnswersFit(Ready("1", true, true));
    AnswersFit(NoDocument);
    AnnouncementFits(edges);
  }

  /** At the same zoom and without faults, the page is shown before the failed open and refused after it. */
  lemma StrandedPageIsRefused()
    ensures var request := RenderPage(0, ZoomOf(FromZoom(Finite(1.0))), 0);
            && RenderedPage(Here, Opened, 0, Finite(1.0), 0, Fine(Opened, request)).1.PageReady?
            && RenderedPage(Here, Left, 0, Finite(1.0), 0, Fine(Left, request)).1 == Rejected(Refused)
  {
    hide Good, RenderedPage, NoFaults, Renderable, Stranded, Requestable, Serialises;
    var request := RenderPage(0, ZoomOf(FromZoom(Finite(1.0))), 0);
    var key, edges := TileKey(0, FromZoom(Finite(1.0)), 0), Edges(1250, 1250);
    OpeningWorks();
    PageIsRenderable(Opened, 1.0);
    ShownIffSendable(Here, Opened, 0, Finite(1.0), 0, edges);
    FailedOpenStrandsHere();
    PageIsRenderable(Left, 1.0);
    RenderableWorks(Here, Left, key, edges);
    FaultFreeRender(Here, Left, 0, Finite(1.0), 0);
  }

  /** At eight times its size the page has a bitmap the renderer accepts, and no luck brings it to the host. */
  lemma LargePageIsRefused(luck: Luck)
    ensures RenderedPage(Here, Opened, 0, Finite(8.0), 0, luck).1 == Rejected(Refused)
  {
    hide Good, RenderedPage, Renderable, Serialises;
    OpeningWorks();
    PlainSerialises();
    PageIsRenderable(Opened, 8.0);
    OversizedPageIsNeverShown(Here, Opened, 0, Finite(8.0), 0, Edges(10_000, 10_000), luck);
  }

  // ------------------------------------------------------------------ a large file

  lemma {:induction false} ItemsTakeRoom(value: Value, i: nat)
    requires value.Items? && i <= |value.items|
    ensures |PrintedFrom(value, i)| > |value.items| - i
    decreases |value.items| - i
  {
    hide Printed;
    if i < |value.items| {
      ItemsTakeRoom(value, i + 1);
    }
  }

  /** A file of over 2^28 bytes is never opened, good as it may be. */
  lemma LargeFileIsRefused(data: seq<Byte>, luck: Luck)
    requires |data| > Framing.MAX_FRAME_BYTES
    ensures Engine.open(Doc(data, None)).Opened?
    ensures OpenedFile(Here, NewSession, data, "large.pdf", None, luck).1 == Rejected(Refused)
  {
    hide OpenedFile, Serialises;
    PlainSerialises();
    NewSessionIsGood(Here);
    LargeRequest(data);
    OversizedFileIsNeverOpened(Here, NewSession, data, "large.pdf", None, luck);
  }

  lemma LargeRequest(data: seq<Byte>)
    ensures |EncodeRequest(OpenDocument(data, None))| > |data|
  {
    var value := RequestValue(OpenDocument(data, None));
    ItemsTakeRoom(BytesValue(data), 0);
    assert |Printed(BytesValue(data))| > |data|;
    ItemTakesRoom(value, 1);
  }

  lemma ItemTakesRoom(value: Value, j: nat)
    requires value.Items? && j < |value.items|
    ensures |Printed(value)| > |Printed(value.items[j])|
  {
    hide Printed;
    RestTakesRoom(value, 0, j);
    assert |Printed(value)| == 1 + |PrintedFrom(value, 0)| by {
      PrintedLength(value);
    }
  }

  lemma PrintedLength(value: Value)
    requires value.Items?
    ensures |Printed(value)| == 1 + |PrintedFrom(value, 0)|
  {
    hide PrintedFrom;
  }

  lemma {:induction false} RestTakesRoom(value: Value, i: nat, j: nat)
    requires value.Items? && i <= j < |value.items|
    ensures |PrintedFrom(value, i)| >= |Printed(value.items[j])|
    decreases j - i
  {
    hide Printed;
    if i < j {
      RestTakesRoom(value, i + 1, j);
    }
  }
}
