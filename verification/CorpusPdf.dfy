/**
 The corpus generator's PDF writer: numbered objects, then a cross-reference table whose entries
 say where each object starts (ISO 32000-1, section 7.5.4). Characters stand for bytes.
 */
module CorpusPdf {
  import opened Decimals
  import opened Prelude

  // -------------------------------------------------------------- padded numbers

  function Zeros(n: nat): string {
    seq(n, _ => '0')
  }

  /** Ten digits or more, zeros in front. */
  function Padded(n: nat): string {
    Zeros(if |Decimal(n)| < 10 then 10 - |Decimal(n)| else 0) + Decimal(n)
  }

  lemma {:induction false} ParseZeros(n: nat, text: string)
    requires IsDigits(text)
    ensures IsDigits(Zeros(n) + text) && Parse(Zeros(n) + text) == Parse(text)
    decreases n + |text|
  {
    var all := Zeros(n) + text;
    if text != [] {
      assert all[..|all| - 1] == Zeros(n) + text[..|text| - 1];
      ParseZeros(n, text[..|text| - 1]);
    } else if n > 0 {
      assert all[..|all| - 1] == Zeros(n - 1) + [];
      ParseZeros(n - 1, []);
    }
  }

  lemma PaddedReadsBack(n: nat)
    ensures IsDigits(Padded(n)) && Parse(Padded(n)) == n
    ensures |Padded(n)| == 10 <==> n < 10_000_000_000
    ensures |Padded(n)| >= 10
  {
    ParseDecimal(n);
    ParseZeros(if |Decimal(n)| < 10 then 10 - |Decimal(n)| else 0, Decimal(n));
    DecimalLength(n, 9);
    assert PowerOfTen(5) == 100_000;
    assert PowerOfTen(10) == 10_000_000_000;
  }

  // ------------------------------------------------------------------ the writer

  const HEADER: string := "%PDF-1.7\n"

  function FreeEntry(): (entry: string)
    ensures |entry| == 20
  {
    "0000000000 65535 f \n"
  }

  function ObjectText(number: nat, body: string): string {
    Decimal(number) + " 0 obj\n" + body + "\nendobj\n"
  }

  function Entry(offset: nat): string {
    Padded(offset) + " 00000 n \n"
  }

  function TableHead(count: nat): string {
    "xref\n0 " + Decimal(count + 1) + "\n"
  }

  const TRAILER_HEAD: string := "trailer\n<< /"

  function Trailer(count: nat, extra: string, xrefAt: nat): string {
    TRAILER_HEAD + ("Size " + (Decimal(count + 1) + (" /" + TrailerFromRoot(extra, xrefAt))))
  }

  function TrailerFromRoot(extra: string, xrefAt: nat): string {
    "Root " + ("1 0 R" + TrailerFromExtra(extra, xrefAt))
  }

  function TrailerFromExtra(extra: string, xrefAt: nat): string {
    extra + (" >>\n" + Ending(xrefAt))
  }

  function Ending(xrefAt: nat): string {
    "startxref\n" + Decimal(xrefAt) + "\n%%EOF\n"
  }

  ghost predicate StandsAt(out: string, at: nat, piece: string) {
    at + |piece| <= |out| && out[at..at + |piece|] == piece
  }

  lemma StillStands(out: string, more: string, at: nat, piece: string)
    requires StandsAt(out, at, piece)
    ensures StandsAt(out + more, at, piece)
  {
  }

  /** Where the entries recorded so far stand in the table. */
  function EntriesText(offsets: seq<nat>): string {
    if offsets == [] then "" else EntriesText(offsets[..|offsets| - 1]) + Entry(offsets[|offsets| - 1])
  }

  const TEN_DIGITS: nat := 10_000_000_000

  ghost predicate InTenDigits(offsets: seq<nat>) {
    forall i | 0 <= i < |offsets| :: offsets[i] < TEN_DIGITS
  }

  lemma {:induction false} EntriesAreTwenty(offsets: seq<nat>)
    requires InTenDigits(offsets)
    ensures |EntriesText(offsets)| == 20 * |offsets|
  {
    hide Entry;
    if offsets != [] {
      EntriesAreTwenty(offsets[..|offsets| - 1]);
      EntryLength(offsets[|offsets| - 1]);
    }
  }

  /** An entry stands in its twenty-byte place if those before it keep to theirs. */
  lemma {:induction false} EntryStands(offsets: seq<nat>, i: nat)
    requires i < |offsets| && InTenDigits(offsets[..i])
    ensures StandsAt(EntriesText(offsets), 20 * i, Entry(offsets[i]))
    decreases |offsets|
  {
    hide Entry;
    var before, last := offsets[..|offsets| - 1], offsets[|offsets| - 1];
    if i < |before| {
      assert before[..i] == offsets[..i];
      EntryStands(before, i);
      StillStands(EntriesText(before), Entry(last), 20 * i, Entry(offsets[i]));
    } else {
      EntriesAreTwenty(before);
    }
  }

  /** Where object `i + 1` starts; past the last object, where the table does. */
  function StartOf(bodies: seq<string>, i: nat): nat
    requires i <= |bodies|
  {
    if i == 0 then |HEADER| else StartOf(bodies, i - 1) + |ObjectText(i, bodies[i - 1])|
  }

  lemma NextStart(bodies: seq<string>, i: nat)
    requires i <= |bodies|
    ensures StartOf(bodies, 0) == |HEADER|
    ensures i < |bodies| ==>
              StartOf(bodies, i) < StartOf(bodies, i + 1) == StartOf(bodies, i) + |ObjectText(i + 1, bodies[i])|
  {
    hide Decimal;
  }

  lemma {:induction false} StartsAscend(bodies: seq<string>, i: nat, j: nat)
    requires i <= j <= |bodies|
    ensures StartOf(bodies, i) <= StartOf(bodies, j)
    ensures i < j ==> StartOf(bodies, i) + |bodies[i]| <= StartOf(bodies, j)
  {
    hide Decimal;
    if i < j {
      StartsAscend(bodies, i, j - 1);
    }
  }

  /** The last object starts, and so they all start, at an offset of at most ten digits. */
  predicate TableFits(bodies: seq<string>) {
    bodies == [] || StartOf(bodies, |bodies| - 1) < TEN_DIGITS
  }

  lemma LastStartDecides(bodies: seq<string>, offsets: seq<nat>)
    requires |offsets| == |bodies| && forall i | 0 <= i < |offsets| :: offsets[i] == StartOf(bodies, i)
    ensures InTenDigits(offsets) <==> TableFits(bodies)
  {
    hide StartOf;
    forall i | 0 <= i < |offsets|
      ensures offsets[i] <= StartOf(bodies, |bodies| - 1)
    {
      StartsAscend(bodies, i, |bodies| - 1);
    }
  }

  /** A written file: every object at its recorded offset, the table at `xrefAt`, the trailer last. */
  ghost predicate Written(out: string, bodies: seq<string>, extra: string, offsets: seq<nat>, xrefAt: nat) {
    && |offsets| == |bodies| && xrefAt <= |out|
    && xrefAt == StartOf(bodies, |bodies|) && (forall i | 0 <= i < |offsets| :: offsets[i] == StartOf(bodies, i))
    && (forall i | 0 <= i < |bodies| ::
          offsets[i] < xrefAt && StandsAt(out[..xrefAt], offsets[i], ObjectText(i + 1, bodies[i])))
    && out[xrefAt..] ==
       TableHead(|bodies|) + FreeEntry() + EntriesText(offsets) + Trailer(|bodies|, extra, xrefAt)
  }

  /** The header and the objects; each is where `StartOf` says. */
  method WriteObjects(bodies: seq<string>) returns (out: string, offsets: seq<nat>)
    ensures HEADER <= out && |out| == StartOf(bodies, |bodies|) && |offsets| == |bodies|
    ensures forall i | 0 <= i < |offsets| ::
              offsets[i] == StartOf(bodies, i) < |out| && StandsAt(out, offsets[i], ObjectText(i + 1, bodies[i]))
  {
    hide Decimal, ObjectText, StartOf;
    NextStart(bodies, 0);
    out, offsets := HEADER, [];
    for i := 0 to |bodies|
      invariant |offsets| == i && HEADER <= out && |out| == StartOf(bodies, i)
      invariant forall k | 0 <= k < i ::
                  offsets[k] == StartOf(bodies, k) < |out| && StandsAt(out, offsets[k], ObjectText(k + 1, bodies[k]))
    {
      ghost var before := out;
      NextStart(bodies, i);
      offsets := offsets + [|out|];
      out := out + ObjectText(i + 1, bodies[i]);
      forall k | 0 <= k < i
        ensures StandsAt(out, offsets[k], ObjectText(k + 1, bodies[k]))
      {
        StillStands(before, ObjectText(i + 1, bodies[i]), offsets[k], ObjectText(k + 1, bodies[k]));
      }
    }
  }

  method Assemble(bodies: seq<string>, extra: string) returns (out: string, offsets: seq<nat>, xrefAt: nat)
    ensures Written(out, bodies, extra, offsets, xrefAt) && HEADER <= out
  {
    hide Decimal, ObjectText, StartOf, StandsAt, TableHead, FreeEntry, Trailer, Entry;
    out, offsets := WriteObjects(bodies);
    xrefAt := |out|;
    ghost var objects := out;
    var table := TableHead(|bodies|) + FreeEntry();
    for i := 0 to |offsets|
      invariant table == TableHead(|bodies|) + FreeEntry() + EntriesText(offsets[..i])
    {
      assert offsets[..i + 1][..i] == offsets[..i];
      table := table + Entry(offsets[i]);
    }
    assert offsets[..|offsets|] == offsets;
    table := table + Trailer(|bodies|, extra, xrefAt);
    out := out + table;
    assert out[..xrefAt] == objects && out[xrefAt..] == table;
  }

  // ------------------------------------------------------------- reading it back

  /** What a reader finds in the place of entry `number`: the first ten characters of a twenty-byte line. */
  ghost predicate EntrySays(out: string, xrefAt: nat, count: nat, number: nat, offset: nat) {
    var at := xrefAt + |TableHead(count)| + 20 * number;
    && at + 20 <= |out|
    && IsDigits(out[at..at + 10]) && Parse(out[at..at + 10]) == offset
    && out[at + 10..at + 20] == " 00000 n \n"
  }

  /** The place of an object's entry is filled by that entry, if those before it keep to theirs. */
  lemma PlaceHoldsEntry(
      out: string, bodies: seq<string>, extra: string, offsets: seq<nat>, xrefAt: nat, number: nat)
    requires Written(out, bodies, extra, offsets, xrefAt) && 1 <= number <= |bodies|
    requires InTenDigits(offsets[..number - 1])
    ensures StandsAt(out, xrefAt + |TableHead(|bodies|)| + 20 * number, Entry(offsets[number - 1]))
  {
    hide Decimal, ObjectText, TableHead, Trailer, EntriesText, FreeEntry, Entry, Written, StartOf;
    InParts(out, bodies, extra, offsets, xrefAt);
    EntryStands(offsets, number - 1);
    var head, tail := TableHead(|bodies|) + FreeEntry(), Trailer(|bodies|, extra, xrefAt);
    assert TableHead(|bodies|) + (FreeEntry() + EntriesText(offsets)) == head + EntriesText(offsets);
    Nested(out[..xrefAt], head, EntriesText(offsets), tail, 20 * (number - 1), Entry(offsets[number - 1]));
  }

  lemma PlaceSays(out: string, xrefAt: nat, count: nat, number: nat, offset: nat)
    requires StandsAt(out, xrefAt + |TableHead(count)| + 20 * number, Entry(offset))
    ensures EntrySays(out, xrefAt, count, number, offset) <==> offset < TEN_DIGITS
  {
    hide Padded, TableHead, Entry, Parse;
    var at := xrefAt + |TableHead(count)| + 20 * number;
    if offset < TEN_DIGITS {
      EntryReadsBack(offset);
      assert out[at..at + 10] == Entry(offset)[..10] && out[at + 10..at + 20] == Entry(offset)[10..];
    } else {
      EntryRunsOn(offset);
      assert out[at + 10] == Entry(offset)[10];
    }
  }

  /**
   The exact condition: every object stands where it is recorded to, and a reader finds each through its place in
   the table if and only if the last one starts before 10^10.
   */
  lemma LookupFindsObjects(out: string, bodies: seq<string>, extra: string, offsets: seq<nat>, xrefAt: nat)
    requires Written(out, bodies, extra, offsets, xrefAt)
    ensures forall i | 0 <= i < |offsets| :: StandsAt(out, offsets[i], ObjectText(i + 1, bodies[i]))
    ensures (forall i | 0 <= i < |offsets| :: EntrySays(out, xrefAt, |bodies|, i + 1, offsets[i])) <==>
            TableFits(bodies)
  {
    hide EntrySays, StandsAt, ObjectText, Entry, TableHead, StartOf;
    LastStartDecides(bodies, offsets);
    forall i | 0 <= i < |offsets|
      ensures StandsAt(out, offsets[i], ObjectText(i + 1, bodies[i]))
    {
      ObjectStands(out, bodies, extra, offsets, xrefAt, i + 1);
    }
    if InTenDigits(offsets) {
      forall i | 0 <= i < |offsets|
        ensures EntrySays(out, xrefAt, |bodies|, i + 1, offsets[i])
      {
        PlaceHoldsEntry(out, bodies, extra, offsets, xrefAt, i + 1);
        PlaceSays(out, xrefAt, |bodies|, i + 1, offsets[i]);
      }
    } else {
      var i := FirstTooLong(offsets);
      PlaceHoldsEntry(out, bodies, extra, offsets, xrefAt, i + 1);
      PlaceSays(out, xrefAt, |bodies|, i + 1, offsets[i]);
    }
  }

  lemma ObjectStands(
      out: string, bodies: seq<string>, extra: string, offsets: seq<nat>, xrefAt: nat, number: nat)
    requires Written(out, bodies, extra, offsets, xrefAt) && 1 <= number <= |bodies|
    ensures StandsAt(out, offsets[number - 1], ObjectText(number, bodies[number - 1]))
  {
    hide ObjectText, Decimal, TableHead, FreeEntry, EntriesText, Trailer;
    assert out == out[..xrefAt] + out[xrefAt..];
    StillStands(out[..xrefAt], out[xrefAt..], offsets[number - 1], ObjectText(number, bodies[number - 1]));
  }

  lemma {:induction false} FirstTooLong(offsets: seq<nat>) returns (i: nat)
    requires !InTenDigits(offsets)
    ensures i < |offsets| && offsets[i] >= TEN_DIGITS && InTenDigits(offsets[..i])
  {
    var before := offsets[..|offsets| - 1];
    if InTenDigits(before) {
      i := |before|;
    } else {
      i := FirstTooLong(before);
      assert before[..i] == offsets[..i];
    }
  }

  /** Past ten digits there is a digit where the space should be. */
  lemma EntryRunsOn(offset: nat)
    requires offset >= TEN_DIGITS
    ensures |Entry(offset)| > 10 && Entry(offset)[10] != ' '
  {
    hide Padded, Parse;
    PaddedReadsBack(offset);
    assert '0' <= Padded(offset)[10] <= '9';
  }

  lemma EntryReadsBack(offset: nat)
    requires offset < TEN_DIGITS
    ensures var entry := Entry(offset);
            && |entry| == 20 && IsDigits(entry[..10]) && Parse(entry[..10]) == offset
            && entry[10..] == " 00000 n \n"
  {
    hide Padded;
    PaddedReadsBack(offset);
    assert Entry(offset)[..10] == Padded(offset);
  }

  /** The table's entry for `number` leads to an object of that number with this body. */
  ghost predicate LeadsTo(out: string, xrefAt: nat, count: nat, number: nat, body: string) {
    exists offset ::
      EntrySays(out, xrefAt, count, number, offset) && StandsAt(out, offset, ObjectText(number, body))
  }

  lemma ObjectIsReachable(out: string, bodies: seq<string>, extra: string, offsets: seq<nat>, xrefAt: nat, number: nat)
    requires Written(out, bodies, extra, offsets, xrefAt) && 1 <= number <= |bodies|
    requires TableFits(bodies)
    ensures LeadsTo(out, xrefAt, |bodies|, number, bodies[number - 1])
  {
    hide EntrySays, StandsAt, ObjectText;
    LookupFindsObjects(out, bodies, extra, offsets, xrefAt);
    assert EntrySays(out, xrefAt, |bodies|, number, offsets[number - 1]);
  }

  lemma Nested(front: string, head: string, middle: string, tail: string, at: nat, piece: string)
    requires StandsAt(middle, at, piece)
    ensures StandsAt(front + (head + middle + tail), |front| + |head| + at, piece)
  {
  }

  /** An entry has twenty bytes exactly while its offset has at most ten digits; past that the lines shift. */
  lemma EntryLength(offset: nat)
    ensures |Entry(offset)| == 20 <==> offset < TEN_DIGITS
  {
    hide Padded;
    PaddedReadsBack(offset);
  }

  /** The table stands at `xrefAt`, and the file ends with the trailer, which says so last. */
  ghost predicate EndsAtTable(out: string, xrefAt: nat, count: nat, extra: string) {
    var trailer := Trailer(count, extra, xrefAt);
    && StandsAt(out, xrefAt, "xref\n0 ")
    && |trailer| <= |out| && out[|out| - |trailer|..] == trailer
    && |Ending(xrefAt)| <= |out| && out[|out| - |Ending(xrefAt)|..] == Ending(xrefAt)
  }

  /** The number at the end of the file is where the table starts. */
  lemma StartxrefFindsTable(out: string, bodies: seq<string>, extra: string, offsets: seq<nat>, xrefAt: nat)
    requires Written(out, bodies, extra, offsets, xrefAt)
    ensures EndsAtTable(out, xrefAt, |bodies|, extra)
    ensures IsDigits(Decimal(xrefAt)) && Parse(Decimal(xrefAt)) == xrefAt
  {
    hide Decimal, FreeEntry, EntriesText, TableHead, Trailer, StandsAt, Ending, Written;
    ParseDecimal(xrefAt);
    InParts(out, bodies, extra, offsets, xrefAt);
    TrailerEnds(|bodies|, extra, xrefAt);
    HeadStarts(|bodies|);
    var table, trailer := FreeEntry() + EntriesText(offsets), Trailer(|bodies|, extra, xrefAt);
    Bracketed(out[..xrefAt], TableHead(|bodies|), table, trailer, "xref\n0 ", trailer);
    Bracketed(out[..xrefAt], TableHead(|bodies|), table, trailer, "xref\n0 ", Ending(xrefAt));
  }

  lemma InParts(out: string, bodies: seq<string>, extra: string, offsets: seq<nat>, xrefAt: nat)
    requires Written(out, bodies, extra, offsets, xrefAt)
    ensures xrefAt <= |out| && |offsets| == |bodies|
    ensures out == out[..xrefAt] +
                   (TableHead(|bodies|) + (FreeEntry() + EntriesText(offsets)) + Trailer(|bodies|, extra, xrefAt))
  {
    hide Decimal, FreeEntry, EntriesText, TableHead, Trailer, StandsAt, StartOf;
    assert out == out[..xrefAt] + out[xrefAt..];
  }

  lemma TrailerEnds(count: nat, extra: string, xrefAt: nat)
    ensures var ending, trailer := Ending(xrefAt), Trailer(count, extra, xrefAt);
            |ending| <= |trailer| && trailer[|trailer| - |ending|..] == ending
  {
    hide Decimal, Ending, TrailerFromRoot, TrailerFromExtra, TRAILER_HEAD;
    RootEnds(extra, xrefAt);
    var ending, root, number := Ending(xrefAt), TrailerFromRoot(extra, xrefAt), Decimal(count + 1);
    EndsWith(" /", root, ending);
    EndsWith(number, " /" + root, ending);
    EndsWith("Size ", number + (" /" + root), ending);
    EndsWith(TRAILER_HEAD, "Size " + (number + (" /" + root)), ending);
  }

  lemma RootEnds(extra: string, xrefAt: nat)
    ensures var ending, root := Ending(xrefAt), TrailerFromRoot(extra, xrefAt);
            |ending| <= |root| && root[|root| - |ending|..] == ending
  {
    hide Ending;
    var ending, last := Ending(xrefAt), TrailerFromExtra(extra, xrefAt);
    EndsWith(" >>\n", ending, ending);
    EndsWith(extra, " >>\n" + ending, ending);
    EndsWith("1 0 R", last, ending);
    EndsWith("Root ", "1 0 R" + last, ending);
  }

  lemma EndsWith(front: string, rest: string, end: string)
    requires |end| <= |rest| && rest[|rest| - |end|..] == end
    ensures (front + rest)[|front + rest| - |end|..] == end
  {
  }

  lemma HeadStarts(count: nat)
    ensures StandsAt(TableHead(count), 0, "xref\n0 ")
  {
  }

  lemma Bracketed(front: string, head: string, middle: string, tail: string, start: string, ending: string)
    requires StandsAt(head, 0, start) && |ending| <= |tail| && tail[|tail| - |ending|..] == ending
    ensures var out := front + (head + middle + tail);
            StandsAt(out, |front|, start) && |ending| <= |out| && out[|out| - |ending|..] == ending
  {
  }

  // ------------------------------------------------------------- multi-page files

  const FIRST_PAGE_OBJECT: nat := 4

  function PageObject(index: nat): nat {
    FIRST_PAGE_OBJECT + index * 2
  }

  function Reference(number: nat): string {
    Decimal(number) + " 0 R"
  }

  /** The references to the pages from `index` on. */
  function Kids(index: nat, count: nat): string
    decreases count - index
  {
    if index >= count then ""
    else if index == count - 1 then Reference(PageObject(index))
    else Reference(PageObject(index)) + (" " + Kids(index + 1, count))
  }

  function Catalog(): string {
    "<< /Type /Catalog /Pages 2 0 R >>"
  }

  function Font(): string {
    "<< /Type /Font /Subtype /Type1 /BaseFont /Helvetica >>"
  }

  function PageTree(count: nat): string {
    "<< /Type /Pages /Kids [" + Kids(0, count) + "] /Count " + Decimal(count) + " >>"
  }

  const PAGE_HEAD: string := "<< /Type /Page" + " /Parent 2 0 R" + " /MediaBox "
  const PAGE_FONTS: string := " /Resources <<" + " /Font << /F1 3 0 R" + " >> >> /"

  function PageBody(contents: nat, width: nat, height: nat): string {
    PAGE_HEAD + ("[" + (Box(width, height) + ("]" + (PAGE_FONTS + ("Contents " + (Reference(contents) + " >>"))))))
  }

  function Box(width: nat, height: nat): string {
    "0" + (" " + ("0" + (" " + (Decimal(width) + (" " + Decimal(height))))))
  }

  function Content(text: string): string {
    "BT /F1 24 Tf 20 40 Td (" + text + ") Tj ET"
  }

  function StreamBody(content: string): string {
    "<< /" + ("Length " + (Decimal(|content|) + (" >>" + ("\n" + ("stream\n" + (content + "\nendstream"))))))
  }

  predicate IsAscii(text: string) {
    forall i | 0 <= i < |text| :: text[i] < 128 as char
  }

  /** Every kid is a page object whose contents reference is its own stream, and the stream carries its own text. */
  ghost predicate Paged(bodies: seq<string>, texts: seq<string>, width: nat, height: nat) {
    && |bodies| == 3 + 2 * |texts|
    && bodies[0] == Catalog() && bodies[1] == PageTree(|texts|) && bodies[2] == Font()
    && forall i | 0 <= i < |texts| ::
         && bodies[PageObject(i) - 1] == PageBody(PageObject(i) + 1, width, height)
         && bodies[PageObject(i)] == StreamBody(Content(texts[i]))
  }

  /** The file, or nothing when a text cannot be encoded. */
  method BuildMultipage(texts: seq<string>, width: nat, height: nat)
    returns (file: Option<string>, ghost bodies: seq<string>, ghost offsets: seq<nat>, ghost xrefAt: nat)
    ensures file.Some? <==> forall i | 0 <= i < |texts| :: IsAscii(texts[i])
    ensures file.Some? ==> Paged(bodies, texts, width, height) && Written(file.value, bodies, "", offsets, xrefAt)
  {
    hide Catalog, Font, PageTree, PageBody, StreamBody, Content, Written;
    offsets, xrefAt, bodies := [], 0, [];
    var objects := [Catalog(), PageTree(|texts|), Font()];
    for index := 0 to |texts|
      invariant forall i | 0 <= i < index :: IsAscii(texts[i])
      invariant |objects| == 3 + 2 * index
      invariant objects[0] == Catalog() && objects[1] == PageTree(|texts|) && objects[2] == Font()
      invariant forall i | 0 <= i < index ::
                  && objects[PageObject(i) - 1] == PageBody(PageObject(i) + 1, width, height)
                  && objects[PageObject(i)] == StreamBody(Content(texts[i]))
    {
      if !IsAscii(texts[index]) {
        return None, bodies, offsets, xrefAt;
      }
      var content := Content(texts[index]);
      var contentsObject := PageObject(index) + 1;
      objects := objects + [PageBody(contentsObject, width, height)];
      objects := objects + [StreamBody(content)];
    }
    bodies := objects;
    var out, recorded, table := Assemble(objects, "");
    offsets, xrefAt := recorded, table;
    file := Some(out);
  }

  // ---------------------------------------------------------- reading the page tree

  /** How many digits a text starts with. */
  function DigitRun(text: string): (n: nat)
    ensures n <= |text| && IsDigits(text[..n])
    ensures n < |text| ==> !('0' <= text[n] <= '9')
  {
    if text == "" || !('0' <= text[0] <= '9') then 0 else 1 + DigitRun(text[1..])
  }

  /** What a reader makes of a list of references: the objects named, or nothing when it is not such a list. */
  function ReadReferences(text: string): Option<seq<nat>>
    decreases |text|
  {
    if text == "" then Some([])
    else
      var n := DigitRun(text);
      var after := text[n..];
      if n == 0 || !(" 0 R" <= after) then None
      else if after == " 0 R" then Some([Parse(text[..n])])
      else if after[4] != ' ' then None
      else
        match ReadReferences(after[5..])
        case None => None
        case Some(others) => Some([Parse(text[..n])] + others)
  }

  /** Where a character first stands; the length of the text when it does not. */
  function Find(text: string, c: char): (i: nat)
    ensures i <= |text| && c !in text[..i] && (i < |text| ==> text[i] == c)
  {
    if text == "" || text[0] == c then 0 else 1 + Find(text[1..], c)
  }

  /** The references between a body's first brackets. */
  function Listed(body: string): Option<seq<nat>> {
    var tail := body[Find(body, '[')..];
    if tail == "" then None else ReadReferences(tail[1..][..Find(tail[1..], ']')])
  }

  lemma {:induction false} DigitRunOf(digits: string, after: string)
    requires IsDigits(digits) && (after != "" ==> !('0' <= after[0] <= '9'))
    ensures DigitRun(digits + after) == |digits|
  {
    if digits != "" {
      assert (digits + after)[1..] == digits[1..] + after;
      DigitRunOf(digits[1..], after);
    } else {
      assert digits + after == after;
    }
  }

  lemma ReadsOne(digits: string, after: string)
    requires IsDigits(digits) && digits != "" && (after == "" || after[0] == ' ')
    ensures ReadReferences(digits + (" 0 R" + after)) ==
            if after == "" then Some([Parse(digits)])
            else
              match ReadReferences(after[1..])
              case None => None
              case Some(others) => Some([Parse(digits)] + others)
  {
    hide Parse, DigitRun, ReadReferences, IsDigits;
    var rest := " 0 R" + after;
    var text := digits + rest;
    DigitRunOf(digits, rest);
    assert text[..|digits|] == digits && text[|digits|..] == rest;
    Suffixed(" 0 R", after);
    ReadStep(text, |digits|);
  }

  lemma ReadStep(text: string, n: nat)
    requires n == DigitRun(text) > 0 && " 0 R" <= text[n..]
    ensures var after := text[n..];
            ReadReferences(text) ==
            if after == " 0 R" then Some([Parse(text[..n])])
            else if after[4] != ' ' then None
            else
              match ReadReferences(after[5..])
              case None => None
              case Some(others) => Some([Parse(text[..n])] + others)
  {
    hide Parse, DigitRun;
  }

  lemma Suffixed(front: string, after: string)
    ensures front <= front + after && (front + after == front <==> after == "")
    ensures after != "" ==> (front + after)[|front|] == after[0] && (front + after)[|front| + 1..] == after[1..]
  {
  }

  lemma ReadsReference(number: nat, after: string)
    requires after == "" || after[0] == ' '
    ensures ReadReferences(Reference(number) + after) ==
            if after == "" then Some([number])
            else
              match ReadReferences(after[1..])
              case None => None
              case Some(others) => Some([number] + others)
  {
    hide Parse, Decimal, ReadReferences;
    ParseDecimal(number);
    assert Reference(number) + after == Decimal(number) + (" 0 R" + after);
    ReadsOne(Decimal(number), after);
  }

  function PageObjects(index: nat, count: nat): (objects: seq<nat>)
    requires index <= count
    ensures |objects| == count - index
    ensures forall i | 0 <= i < |objects| :: objects[i] == PageObject(index + i)
    decreases count - index
  {
    if index == count then [] else [PageObject(index)] + PageObjects(index + 1, count)
  }

  lemma {:induction false} KidsReadBack(index: nat, count: nat)
    requires index <= count
    ensures ReadReferences(Kids(index, count)) == Some(PageObjects(index, count))
    decreases count - index
  {
    hide Reference, ReadReferences;
    if index == count {
      NothingReadBack();
    } else if index == count - 1 {
      assert Kids(index, count) == Reference(PageObject(index)) + "";
      ReadsReference(PageObject(index), "");
      assert PageObjects(index, count) == [PageObject(index)];
    } else {
      var others := Kids(index + 1, count);
      ReadsReference(PageObject(index), " " + others);
      assert (" " + others)[1..] == others;
      KidsReadBack(index + 1, count);
      assert PageObjects(index, count) == [PageObject(index)] + PageObjects(index + 1, count);
    }
  }

  lemma NothingReadBack()
    ensures ReadReferences("") == Some([])
  {
  }

  lemma {:induction false} KidsHaveNoBracket(index: nat, count: nat)
    ensures ']' !in Kids(index, count)
    decreases count - index
  {
    hide Decimal;
    if index < count {
      ParseDecimal(PageObject(index));
      assert forall c | c in Decimal(PageObject(index)) :: c != ']';
      KidsHaveNoBracket(index + 1, count);
    }
  }

  lemma {:induction false} FoundAt(before: string, c: char, after: string)
    requires c !in before
    ensures Find(before + [c] + after, c) == |before|
  {
    var text := before + [c] + after;
    if before != "" {
      assert text[1..] == before[1..] + [c] + after;
      FoundAt(before[1..], c, after);
    }
  }

  /** A reader of a body takes the list for what stands between its first brackets. */
  lemma ListedBetween(front: string, list: string, back: string)
    requires '[' !in front && ']' !in list
    ensures Listed(front + ['['] + (list + [']'] + back)) == ReadReferences(list)
  {
    hide Find, ReadReferences;
    var inside := list + [']'] + back;
    var body := front + ['['] + inside;
    FoundAt(front, '[', inside);
    assert body[|front|..][1..] == inside;
    FoundAt(list, ']', back);
    assert inside[..|list|] == list;
  }

  /** A reader finds exactly the page objects listed in the page tree, in order. */
  lemma PageTreeListsPages(count: nat)
    ensures Listed(PageTree(count)) == Some(PageObjects(0, count))
  {
    hide Kids, Decimal, Listed, ReadReferences;
    var front, kids, back := "<< /Type /Pages /Kids ", Kids(0, count), " /Count " + Decimal(count) + " >>";
    assert PageTree(count) == front + ['['] + (kids + [']'] + back);
    KidsHaveNoBracket(0, count);
    ListedBetween(front, kids, back);
    KidsReadBack(0, count);
  }

  // ------------------------------------------------------------------ reachability

  lemma PageIsReachable(file: string, bodies: seq<string>, texts: seq<string>, width: nat, height: nat,
                        offsets: seq<nat>, xrefAt: nat, index: nat)
    requires Paged(bodies, texts, width, height) && Written(file, bodies, "", offsets, xrefAt)
    requires TableFits(bodies) && index < |texts|
    ensures LeadsTo(file, xrefAt, |bodies|, PageObject(index), PageBody(PageObject(index) + 1, width, height))
    ensures LeadsTo(file, xrefAt, |bodies|, PageObject(index) + 1, StreamBody(Content(texts[index])))
  {
    hide Written, LeadsTo, Catalog, Font, PageTree, PageBody, StreamBody, Content, TableFits;
    ObjectIsReachable(file, bodies, "", offsets, xrefAt, PageObject(index));
    ObjectIsReachable(file, bodies, "", offsets, xrefAt, PageObject(index) + 1);
  }

  /**
   Following the file from its end: the table is where `startxref` says, the trailer names object 1, which leads to
   the catalog, and that to the page tree; the tree lists exactly the page objects, and each of them leads to a page
   whose contents are the next object, with the page's own text.
   */
  lemma EveryPageIsReachable(file: string, bodies: seq<string>, texts: seq<string>, width: nat, height: nat,
                             offsets: seq<nat>, xrefAt: nat)
    requires Paged(bodies, texts, width, height) && Written(file, bodies, "", offsets, xrefAt)
    requires TableFits(bodies)
    ensures EndsAtTable(file, xrefAt, |bodies|, "")
    ensures LeadsTo(file, xrefAt, |bodies|, 1, Catalog()) && LeadsTo(file, xrefAt, |bodies|, 2, PageTree(|texts|))
    ensures Listed(PageTree(|texts|)) == Some(PageObjects(0, |texts|))
    ensures forall index | 0 <= index < |texts| ::
              LeadsTo(file, xrefAt, |bodies|, PageObject(index), PageBody(PageObject(index) + 1, width, height))
    ensures forall index | 0 <= index < |texts| ::
              LeadsTo(file, xrefAt, |bodies|, PageObject(index) + 1, StreamBody(Content(texts[index])))
  {
    hide Written, LeadsTo, EndsAtTable, Catalog, Font, Decimal, Parse, IsDigits, PageTree, PageBody,
      StreamBody, Content, Listed, TableFits;
    PageTreeListsPages(|texts|);
    ObjectIsReachable(file, bodies, "", offsets, xrefAt, 1);
    ObjectIsReachable(file, bodies, "", offsets, xrefAt, 2);
    forall index | 0 <= index < |texts|
      ensures LeadsTo(file, xrefAt, |bodies|, PageObject(index), PageBody(PageObject(index) + 1, width, height))
      ensures LeadsTo(file, xrefAt, |bodies|, PageObject(index) + 1, StreamBody(Content(texts[index])))
    {
      PageIsReachable(file, bodies, texts, width, height, offsets, xrefAt, index);
    }
    StartxrefFindsTable(file, bodies, "", offsets, xrefAt);
  }

  /** A text of 10^10 characters, unless it is the last, pushes the last object out of the table's reach. */
  lemma LongTextBreaksTable(bodies: seq<string>, texts: seq<string>, width: nat, height: nat, index: nat)
    requires Paged(bodies, texts, width, height) && index < |texts| - 1 && |texts[index]| >= TEN_DIGITS
    ensures !TableFits(bodies)
  {
    hide StartOf, PageBody, Catalog, Font, PageTree, Decimal;
    StartsAscend(bodies, PageObject(index), |bodies| - 1);
    assert |texts[index]| <= |bodies[PageObject(index)]|;
  }

  /** Such texts exist, and can be encoded. */
  lemma LongTextsExist()
    ensures exists texts: seq<string> ::
              |texts| == 2 && |texts[0]| >= TEN_DIGITS && forall i | 0 <= i < |texts| :: IsAscii(texts[i])
  {
    var long := seq(TEN_DIGITS, _ => 'a');
    assert IsAscii(long) && IsAscii("");
    var texts: seq<string> := [long, ""];
    assert |texts[0]| >= TEN_DIGITS;
  }
}
