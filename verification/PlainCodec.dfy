/**
 A serialisation of the messages that has the properties assumed of one: a message becomes a tree of numbers and
 lists, and the tree a byte string that can be read back only as that tree.
 */
module PlainCodec {
  import opened Decimals
  import opened Prelude
  import opened Protocol
  import Outline
  import TextSearch

  // ------------------------------------------------------------------------ trees

  datatype Value = Number(n: int) | Items(items: seq<Value>)

  const PLUS: Byte := 43
  const COMMA: Byte := 44
  const MINUS: Byte := 45
  const OPENING: Byte := 91
  const CLOSING: Byte := 93

  function DecimalBytes(n: nat): (bytes: seq<Byte>)
    ensures |bytes| == |Decimal(n)|
    ensures forall i | 0 <= i < |bytes| :: 48 <= bytes[i] <= 57 && bytes[i] == Decimal(n)[i] as int
  {
    ParseDecimal(n);
    seq(|Decimal(n)|, i requires 0 <= i < |Decimal(n)| => Decimal(n)[i] as int)
  }

  function Magnitude(n: int): nat {
    if n < 0 then -n else n
  }

  function Numeral(n: int): seq<Byte> {
    [if n < 0 then MINUS else PLUS] + (DecimalBytes(Magnitude(n)) + [COMMA])
  }

  function Printed(value: Value): (bytes: seq<Byte>)
    ensures bytes != [] && bytes[0] != CLOSING
    decreases value, if value.Items? then |value.items| + 1 else 0
  {
    match value
    case Number(n) => Numeral(n)
    case Items(items) => [OPENING] + PrintedFrom(value, 0)
  }

  /** The items from `i` on, and the closing bracket. */
  function PrintedFrom(value: Value, i: nat): seq<Byte>
    requires value.Items? && i <= |value.items|
    decreases value, |value.items| - i
  {
    if i == |value.items| then [CLOSING] else Printed(value.items[i]) + PrintedFrom(value, i + 1)
  }

  lemma DecimalsAreUnambiguous(n: nat, m: nat, s: seq<Byte>, t: seq<Byte>)
    requires DecimalBytes(n) + ([COMMA] + s) == DecimalBytes(m) + ([COMMA] + t)
    ensures n == m && s == t
  {
    var left, right := DecimalBytes(n) + ([COMMA] + s), DecimalBytes(m) + ([COMMA] + t);
    var a, b := |DecimalBytes(n)|, |DecimalBytes(m)|;
    assert left[a] == COMMA && right[b] == COMMA;
    assert a == b;
    assert left[..a] == DecimalBytes(n) && right[..a] == DecimalBytes(m);
    assert left[a + 1..] == s && right[a + 1..] == t;
    assert Decimal(n) == Decimal(m);
    ParseDecimal(n);
    ParseDecimal(m);
  }

  lemma NumeralsAreUnambiguous(n: int, m: int, s: seq<Byte>, t: seq<Byte>)
    requires Numeral(n) + s == Numeral(m) + t
    ensures n == m && s == t
  {
    hide DecimalBytes;
    var a, b := DecimalBytes(Magnitude(n)), DecimalBytes(Magnitude(m));
    var left, right := Numeral(n) + s, Numeral(m) + t;
    assert left[0] == right[0];
    assert left[1..] == a + ([COMMA] + s) by {
      Regrouped(left[0], a, s);
    }
    assert right[1..] == b + ([COMMA] + t) by {
      Regrouped(right[0], b, t);
    }
    DecimalsAreUnambiguous(Magnitude(n), Magnitude(m), s, t);
  }

  lemma Regrouped(sign: Byte, digits: seq<Byte>, rest: seq<Byte>)
    ensures ([sign] + (digits + [COMMA]) + rest)[1..] == digits + ([COMMA] + rest)
  {
  }

  /** What follows a tree does not matter to how it is read. */
  lemma {:induction false} TreesAreUnambiguous(v: Value, w: Value, s: seq<Byte>, t: seq<Byte>)
    requires Printed(v) + s == Printed(w) + t
    ensures v == w && s == t
    decreases v, if v.Items? then |v.items| + 1 else 0
  {
    hide Numeral, PrintedFrom;
    NumeralStarts(v);
    NumeralStarts(w);
    assert (Printed(v) + s)[0] == (Printed(w) + t)[0];
    if v.Number? {
      NumeralsAreUnambiguous(v.n, w.n, s, t);
    } else {
      assert (Printed(v) + s)[1..] == PrintedFrom(v, 0) + s;
      assert (Printed(w) + t)[1..] == PrintedFrom(w, 0) + t;
      ListsAreUnambiguous(v, 0, w, 0, s, t);
      assert v.items[0..] == v.items && w.items[0..] == w.items;
    }
  }

  lemma NumeralStarts(v: Value)
    ensures Printed(v)[0] == OPENING <==> v.Items?
  {
  }

  lemma {:induction false} ListsAreUnambiguous(v: Value, i: nat, w: Value, j: nat, s: seq<Byte>, t: seq<Byte>)
    requires v.Items? && w.Items? && i <= |v.items| && j <= |w.items|
    requires PrintedFrom(v, i) + s == PrintedFrom(w, j) + t
    ensures v.items[i..] == w.items[j..] && s == t
    decreases v, |v.items| - i
  {
    hide Printed;
    assert (PrintedFrom(v, i) + s)[0] == (PrintedFrom(w, j) + t)[0];
    if i == |v.items| {
      assert j == |w.items|;
      assert (PrintedFrom(v, i) + s)[1..] == s && (PrintedFrom(w, j) + t)[1..] == t;
    } else {
      assert j < |w.items|;
      var rest, rest' := PrintedFrom(v, i + 1) + s, PrintedFrom(w, j + 1) + t;
      assert PrintedFrom(v, i) + s == Printed(v.items[i]) + rest;
      assert PrintedFrom(w, j) + t == Printed(w.items[j]) + rest';
      TreesAreUnambiguous(v.items[i], w.items[j], rest, rest');
      ListsAreUnambiguous(v, i + 1, w, j + 1, s, t);
      assert v.items[i..] == [v.items[i]] + v.items[i + 1..];
      assert w.items[j..] == [w.items[j]] + w.items[j + 1..];
    }
  }

  // --------------------------------------------------------------------- messages

  function BoolValue(b: bool): Value {
    Number(if b then 1 else 0)
  }

  function SingleValue(x: Single): Value {
    Number((x * STEPS_IN_ONE).Floor)
  }

  function ListValue<T>(list: seq<T>, item: T -> Value): Value {
    Items(seq(|list|, i requires 0 <= i < |list| => item(list[i])))
  }

  function BytesValue(bytes: seq<Byte>): Value {
    ListValue(bytes, (b: Byte) => Number(b))
  }

  function TextValue(text: string): Value {
    ListValue(text, (c: char) => Number(c as int))
  }

  function MaybeValue(text: Option<string>): Value {
    match text case None => Items([]) case Some(t) => Items([TextValue(t)])
  }

  function RectValue(rect: TextSearch.TextRect): Value {
    Items([SingleValue(rect.left), SingleValue(rect.bottom), SingleValue(rect.right), SingleValue(rect.top)])
  }

  function BoxValue(box: TextSearch.CharBox): Value {
    Items([TextValue(box.text), RectValue(box.rect)])
  }

  function HitValue(hit: TextSearch.SearchHit): Value {
    Items([Number(hit.page), ListValue(hit.rects, RectValue)])
  }

  function EntryValue(entry: Outline.OutlineEntry): Value {
    Items([TextValue(entry.title), Number(entry.depth), Number(if entry.page.None? then -1 else entry.page.value)])
  }

  function ErrorValue(error: WorkerError): Value {
    match error
    case MalformedDocument(reason) => Items([Number(0), TextValue(reason)])
    case BadPassword => Items([Number(1)])
    case Unsupported(feature) => Items([Number(2), TextValue(feature)])
    case WorkerDied => Items([Number(3)])
    case Timeout => Items([Number(4)])
    case Channel(reason) => Items([Number(5), TextValue(reason)])
  }

  function RequestValue(request: Request): Value {
    match request
    case OpenDocument(data, password) => Items([Number(0), BytesValue(data), MaybeValue(password)])
    case RenderPage(page, zoom, rotation) => Items([Number(1), Number(page), SingleValue(zoom), Number(rotation)])
    case PageSize(page) => Items([Number(2), Number(page)])
    case ExtractText(page) => Items([Number(3), Number(page)])
    case TextLayout(page) => Items([Number(4), Number(page)])
    case Outline => Items([Number(5)])
    case Search(query, matchCase) => Items([Number(6), TextValue(query), BoolValue(matchCase)])
    case CloseDocument => Items([Number(7)])
    case Handshake => Items([Number(8)])
    case Shutdown => Items([Number(9)])
  }

  /** Pixels are no part of the message. */
  function ResponseValue(response: Response): Value {
    match response
    case DocumentOpened(pageCount, encrypted, signed) =>
      Items([Number(0), Number(pageCount), BoolValue(encrypted), BoolValue(signed)])
    case PageRendered(width, height, byteLen, _) =>
      Items([Number(1), Number(width), Number(height), Number(byteLen)])
    case PageMeasured(w, h) => Items([Number(2), SingleValue(w), SingleValue(h)])
    case TextExtracted(text) => Items([Number(3), TextValue(text)])
    case LayoutFound(chars, truncated) => Items([Number(4), ListValue(chars, BoxValue), BoolValue(truncated)])
    case OutlineFound(entries) => Items([Number(5), ListValue(entries, EntryValue)])
    case SearchResults(hits, truncated) => Items([Number(6), ListValue(hits, HitValue), BoolValue(truncated)])
    case Ready(version, sandboxed, engineAvailable) =>
      Items([Number(7), TextValue(version), BoolValue(sandboxed), BoolValue(engineAvailable)])
    case Done => Items([Number(8)])
    case Failed(error) => Items([Number(9), ErrorValue(error)])
  }

  // ----------------------------------------------- different messages, different trees

  lemma ListsDiffer<T(!new)>(a: seq<T>, b: seq<T>, item: T -> Value)
    requires ListValue(a, item) == ListValue(b, item)
    requires forall x, y :: item(x) == item(y) ==> x == y
    ensures a == b
  {
    var left, right := ListValue(a, item).items, ListValue(b, item).items;
    assert |a| == |b|;
    forall i | 0 <= i < |a|
      ensures a[i] == b[i]
    {
      assert left[i] == item(a[i]) && right[i] == item(b[i]);
    }
  }

  lemma BytesDiffer(a: seq<Byte>, b: seq<Byte>)
    requires BytesValue(a) == BytesValue(b)
    ensures a == b
  {
    ListsDiffer(a, b, (x: Byte) => Number(x));
  }

  lemma TextsDiffer(a: string, b: string)
    ensures TextValue(a) == TextValue(b) ==> a == b
  {
    if TextValue(a) == TextValue(b) {
      ListsDiffer(a, b, (c: char) => Number(c as int));
    }
  }

  lemma SinglesDiffer(x: Single, y: Single)
    ensures SingleValue(x) == SingleValue(y) ==> x == y
  {
    if SingleValue(x) == SingleValue(y) {
      assert x * STEPS_IN_ONE == y * STEPS_IN_ONE;
    }
  }

  lemma RectsDiffer(a: TextSearch.TextRect, b: TextSearch.TextRect)
    ensures RectValue(a) == RectValue(b) ==> a == b
  {
    hide SingleValue;
    if RectValue(a) == RectValue(b) {
      var left, right := RectValue(a).items, RectValue(b).items;
      assert left[0] == right[0] && left[1] == right[1] && left[2] == right[2] && left[3] == right[3];
      SinglesDiffer(a.left, b.left);
      SinglesDiffer(a.bottom, b.bottom);
      SinglesDiffer(a.right, b.right);
      SinglesDiffer(a.top, b.top);
    }
  }

  lemma BoxesDiffer(a: TextSearch.CharBox, b: TextSearch.CharBox)
    ensures BoxValue(a) == BoxValue(b) ==> a == b
  {
    hide RectValue, TextValue;
    if BoxValue(a) == BoxValue(b) {
      assert BoxValue(a).items[0] == BoxValue(b).items[0] && BoxValue(a).items[1] == BoxValue(b).items[1];
      TextsDiffer(a.text, b.text);
      RectsDiffer(a.rect, b.rect);
    }
  }

  lemma HitsDiffer(a: TextSearch.SearchHit, b: TextSearch.SearchHit)
    ensures HitValue(a) == HitValue(b) ==> a == b
  {
    hide RectValue, ListValue;
    if HitValue(a) == HitValue(b) {
      assert HitValue(a).items[0] == HitValue(b).items[0] && HitValue(a).items[1] == HitValue(b).items[1];
      forall x, y
        ensures RectValue(x) == RectValue(y) ==> x == y
      {
        RectsDiffer(x, y);
      }
      ListsDiffer(a.rects, b.rects, RectValue);
    }
  }

  lemma EntriesDiffer(a: Outline.OutlineEntry, b: Outline.OutlineEntry)
    ensures EntryValue(a) == EntryValue(b) ==> a == b
  {
    hide TextValue;
    if EntryValue(a) == EntryValue(b) {
      var left, right := EntryValue(a).items, EntryValue(b).items;
      assert left[0] == right[0] && left[1] == right[1] && left[2] == right[2];
      TextsDiffer(a.title, b.title);
    }
  }

  lemma ErrorsDiffer(a: WorkerError, b: WorkerError)
    requires ErrorValue(a) == ErrorValue(b)
    ensures a == b
  {
    hide TextValue;
    var left, right := ErrorValue(a).items, ErrorValue(b).items;
    assert left[0] == right[0];
    if |left| > 1 {
      assert left[1] == right[1];
      match a
      case MalformedDocument(reason) => TextsDiffer(reason, b.reason);
      case Unsupported(feature) => TextsDiffer(feature, b.feature);
      case Channel(reason) => TextsDiffer(reason, b.reason);
    }
  }

  lemma RequestsDiffer(a: Request, b: Request)
    requires RequestValue(a) == RequestValue(b)
    ensures a == b
  {
    hide BytesValue, TextValue, SingleValue;
    var left, right := RequestValue(a).items, RequestValue(b).items;
    assert left[0] == right[0];
    assert forall i | 1 <= i < |left| :: left[i] == right[i];
    match a
    case OpenDocument(data, password) =>
      assert left[1] == right[1] && left[2] == right[2];
      BytesDiffer(data, b.data);
      if password.Some? {
        assert left[2].items[0] == right[2].items[0];
        TextsDiffer(password.value, b.password.value);
      }
    case RenderPage(_, zoom, _) =>
      assert left[1] == right[1] && left[2] == right[2] && left[3] == right[3];
      SinglesDiffer(zoom, b.zoom);
    case Search(query, _) =>
      assert left[1] == right[1] && left[2] == right[2];
      TextsDiffer(query, b.query);
    case PageSize(_) => assert left[1] == right[1];
    case ExtractText(_) => assert left[1] == right[1];
    case TextLayout(_) => assert left[1] == right[1];
    case _ =>
  }

  lemma ResponsesDiffer(a: Response, b: Response)
    requires ResponseValue(a) == ResponseValue(b)
    ensures a.Bare() == b.Bare()
  {
    hide TextValue, SingleValue, ListValue, ErrorValue, BoxValue, EntryValue, HitValue;
    var left, right := ResponseValue(a).items, ResponseValue(b).items;
    assert left[0] == right[0];
    match a
    case DocumentOpened(_, _, _) => assert left[1] == right[1] && left[2] == right[2] && left[3] == right[3];
    case PageRendered(_, _, _, _) => assert left[1] == right[1] && left[2] == right[2] && left[3] == right[3];
    case PageMeasured(w, h) =>
      assert left[1] == right[1] && left[2] == right[2];
      SinglesDiffer(w, b.w);
      SinglesDiffer(h, b.h);
    case TextExtracted(text) =>
      assert left[1] == right[1];
      TextsDiffer(text, b.text);
    case LayoutFound(chars, _) =>
      assert left[1] == right[1] && left[2] == right[2];
      forall x, y
        ensures BoxValue(x) == BoxValue(y) ==> x == y
      {
        BoxesDiffer(x, y);
      }
      ListsDiffer(chars, b.chars, BoxValue);
    case OutlineFound(entries) =>
      assert left[1] == right[1];
      forall x, y
        ensures EntryValue(x) == EntryValue(y) ==> x == y
      {
        EntriesDiffer(x, y);
      }
      ListsDiffer(entries, b.entries, EntryValue);
    case SearchResults(hits, _) =>
      assert left[1] == right[1] && left[2] == right[2];
      forall x, y
        ensures HitValue(x) == HitValue(y) ==> x == y
      {
        HitsDiffer(x, y);
      }
      ListsDiffer(hits, b.hits, HitValue);
    case Ready(version, _, _) =>
      assert left[1] == right[1] && left[2] == right[2] && left[3] == right[3];
      TextsDiffer(version, b.version);
    case Done =>
    case Failed(error) =>
      assert left[1] == right[1];
      ErrorsDiffer(error, b.error);
  }

  // --------------------------------------------------------------------- the codec

  function EncodeRequest(request: Request): seq<Byte> {
    Printed(RequestValue(request))
  }

  function EncodeResponse(response: Response): seq<Byte> {
    Printed(ResponseValue(response))
  }

  ghost function DecodeRequest(bytes: seq<Byte>): Result<Request, string> {
    if exists request :: EncodeRequest(request) == bytes then
      var request :| EncodeRequest(request) == bytes;
      Ok(request)
    else Err("not a request")
  }

  ghost function DecodeResponse(bytes: seq<Byte>): Result<Response, string> {
    if exists response :: EncodeResponse(response) == bytes then
      var response :| EncodeResponse(response) == bytes;
      Ok(response.Bare())
    else Err("not a response")
  }

  ghost const Plain: Codec := Codec(EncodeRequest, DecodeRequest, EncodeResponse, DecodeResponse)

  /** What is assumed of the serialisation can be had. */
  lemma PlainIsLawful()
    ensures Plain.Lawful()
  {
    hide Printed, RequestValue, ResponseValue;
    forall request: Request
      ensures DecodeRequest(EncodeRequest(request)) == Ok(request)
    {
      var read := DecodeRequest(EncodeRequest(request)).value;
      assert Printed(RequestValue(read)) + [] == Printed(RequestValue(request)) + [];
      TreesAreUnambiguous(RequestValue(read), RequestValue(request), [], []);
      RequestsDiffer(read, request);
    }
    forall response: Response
      ensures DecodeResponse(EncodeResponse(response)) == Ok(response.Bare())
    {
      var read: Response :|
        EncodeResponse(read) == EncodeResponse(response) && DecodeResponse(EncodeResponse(response)) == Ok(read.Bare());
      assert Printed(ResponseValue(read)) + [] == Printed(ResponseValue(response)) + [];
      TreesAreUnambiguous(ResponseValue(read), ResponseValue(response), [], []);
      ResponsesDiffer(read, response);
    }
  }
}
