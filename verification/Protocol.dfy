/** The messages between host and worker, and the host's check of what it is told. */
module Protocol {
  import opened Prelude
  import opened Tiles
  import opened Outline
  import opened TextSearch

  /** `zoom` is finite: the only sender takes it from a bucket. */
  datatype Request =
    | OpenDocument(data: seq<Byte>, password: Option<string>)
    | RenderPage(page: nat, zoom: Single, rotation: int)
    | PageSize(page: nat)
    | ExtractText(page: nat)
    | TextLayout(page: nat)
    | Outline
    | Search(query: string, matchCase: bool)
    | CloseDocument
    | Handshake
    | Shutdown

  datatype WorkerError =
    | MalformedDocument(reason: string)
    | BadPassword
    | Unsupported(feature: string)
    | WorkerDied
    | Timeout
    | Channel(reason: string)

  datatype Response =
    | DocumentOpened(pageCount: Usize, encrypted: bool, signed: bool)
    | PageRendered(width: U32, height: U32, byteLen: nat, pixels: seq<Byte>)
    | PageMeasured(w: Single, h: Single)
    | TextExtracted(text: string)
    | LayoutFound(chars: seq<CharBox>, layoutTruncated: bool)
    | OutlineFound(entries: seq<OutlineEntry>)
    | SearchResults(hits: seq<SearchHit>, truncated: bool)
    | Ready(version: string, sandboxed: bool, engineAvailable: bool)
    | Done
    | Failed(error: WorkerError)
  {
    /** The response as its message carries it: pixels are left out and travel separately. */
    function Bare(): Response {
      if PageRendered? then this.(pixels := []) else this
    }

    /** Declared length, attached pixels and dimensions all agree. */
    predicate IsSelfConsistent() {
      PageRendered? ==>
        PixelBytes(width, height) == Some(byteLen) && PixelBytes(width, height) == Some(|pixels|)
    }
  }

  /**
   The serialisation of messages. Its text is not modelled, only that a message comes back as it was sent,
   pixels excepted.
   */
  datatype Codec = Codec(
    encodeRequest: Request -> seq<Byte>,
    decodeRequest: seq<Byte> -> Result<Request, string>,
    encodeResponse: Response -> seq<Byte>,
    decodeResponse: seq<Byte> -> Result<Response, string>)
  {
    ghost predicate Lawful() {
      && (forall request: Request :: decodeRequest(encodeRequest(request)) == Ok(request))
      && (forall response: Response :: decodeResponse(encodeResponse(response)) == Ok(response.Bare()))
    }
  }
}
