/**
 What a reader gets out of the texts the corpus generator writes: numbers, lists, streams and hexadecimal strings,
 each found by its name in the text and read back.
 */
module PdfReader {
  import opened Decimals
  import opened Prelude
  import opened CorpusPdf
  import opened EncryptedPdf

  // --------------------------------------------------------------------- readers

  function NumberAt(text: string): Option<nat> {
    var n := DigitRun(text);
    if n == 0 then None else Some(Parse(text[..n]))
  }

  /** What follows a name, which is looked for by its first character. */
  function After(body: string, name: string): Option<string>
    requires name != ""
  {
    var tail := body[Find(body, name[0])..];
    if name <= tail then Some(tail[|name|..]) else None
  }

  function NumberOf(body: string, name: string): Option<nat>
    requires name != ""
  {
    match After(body, name)
    case None => None
    case Some(rest) => NumberAt(rest)
  }

  /** Numbers with single blanks between them. */
  function ReadNumbers(text: string): Option<seq<nat>>
    decreases |text|
  {
    var n := DigitRun(text);
    if n == 0 then None
    else if n == |text| then Some([Parse(text)])
    else if text[n] != ' ' then None
    else
      match ReadNumbers(text[n + 1..])
      case None => None
      case Some(others) => Some([Parse(text[..n])] + others)
  }

  /** The text up to a character, which is not part of it. */
  function UpTo(text: string, c: char): string {
    text[..Find(text, c)]
  }

  function Tail(text: string, c: char): string {
    var rest := text[Find(text, c)..];
    if rest == "" then "" else rest[1..]
  }

  /** A stream of the length its dictionary gives. */
  function StreamOf(body: string): Option<string> {
    var rest := Tail(body, '\n');
    match NumberOf(body, "Length ")
    case None => None
    case Some(n) => if "stream\n" <= rest && 7 + n <= |rest| then Some(rest[7..7 + n]) else None
  }

  function HexValue(c: char): Option<nat> {
    if '0' <= c <= '9' then Some(c as int - '0' as int)
    else if 'a' <= c <= 'f' then Some(c as int - 'a' as int + 10)
    else None
  }

  function UnHex(text: string): (bytes: Option<seq<nat>>) {
    if text == "" then Some([])
    else if |text| == 1 || HexValue(text[0]).None? || HexValue(text[1]).None? then None
    else
      match UnHex(text[2..])
      case None => None
      case Some(others) => Some([16 * HexValue(text[0]).value + HexValue(text[1]).value] + others)
  }

  function BytesOf(body: string, name: string): Option<seq<nat>>
    requires name != ""
  {
    match After(body, name)
    case None => None
    case Some(rest) => UnHex(UpTo(rest, '>'))
  }

  // --------------------------------------------------------------- how they read

  predicate NoDigit(text: string) {
    text != "" ==> !('0' <= text[0] <= '9')
  }

  lemma NumberReads(number: nat, after: string)
    requires NoDigit(after)
    ensures NumberAt(Decimal(number) + after) == Some(number)
  {
    hide Decimal, DigitRun, Parse;
    ParseDecimal(number);
    DigitRunOf(Decimal(number), after);
    assert (Decimal(number) + after)[..|Decimal(number)|] == Decimal(number);
  }

  lemma {:induction false} FindPast(piece: string, rest: string, c: char)
    requires c !in piece
    ensures Find(piece + rest, c) == |piece| + Find(rest, c)
  {
    if piece != "" {
      assert (piece + rest)[1..] == piece[1..] + rest;
      FindPast(piece[1..], rest, c);
    } else {
      assert piece + rest == rest;
    }
  }

  /** A reader passes over what does not have the character it looks for. */
  lemma Past(piece: string, rest: string, c: char)
    requires c !in piece
    ensures Tail(piece + rest, c) == Tail(rest, c) && UpTo(piece + rest, c) == piece + UpTo(rest, c)
    ensures forall name: string | name != "" && name[0] == c :: After(piece + rest, name) == After(rest, name)
  {
    hide Find, After;
    FindPast(piece, rest, c);
    Dropped(piece, rest, Find(rest, c));
    forall name: string | name != "" && name[0] == c
      ensures After(piece + rest, name) == After(rest, name)
    {
      PastToName(piece, rest, name);
    }
  }

  lemma Dropped(piece: string, rest: string, i: nat)
    requires i <= |rest|
    ensures (piece + rest)[|piece| + i..] == rest[i..] && (piece + rest)[..|piece| + i] == piece + rest[..i]
  {
  }

  lemma PastToName(piece: string, rest: string, name: string)
    requires name != "" && name[0] !in piece
    ensures After(piece + rest, name) == After(rest, name)
  {
    hide Find;
    FindPast(piece, rest, name[0]);
    Dropped(piece, rest, Find(rest, name[0]));
  }

  lemma HereCharacter(c: char, rest: string)
    ensures Tail([c] + rest, c) == rest && UpTo([c] + rest, c) == ""
  {
    assert Find([c] + rest, c) == 0;
    assert ([c] + rest)[0..] == [c] + rest && ([c] + rest)[1..] == rest;
  }

  lemma HereName(name: string, rest: string)
    requires name != ""
    ensures After(name + rest, name) == Some(rest)
  {
    assert Find(name + rest, name[0]) == 0;
    assert (name + rest)[0..] == name + rest && (name + rest)[|name|..] == rest;
  }

  /** What is found in a text is found in a longer one. */
  lemma Longer(text: string, more: string, name: string)
    requires name != "" && After(text, name).Some?
    ensures After(text + more, name) == Some(After(text, name).value + more)
  {
    var i := Find(text, name[0]);
    FindInLonger(text, more, name[0]);
    assert (text + more)[i..] == text[i..] + more;
    assert (text[i..] + more)[|name|..] == text[i..][|name|..] + more;
  }

  lemma {:induction false} FindInLonger(text: string, more: string, c: char)
    requires Find(text, c) < |text|
    ensures Find(text + more, c) == Find(text, c)
  {
    if text[0] != c {
      assert (text + more)[1..] == text[1..] + more;
      FindInLonger(text[1..], more, c);
    }
  }

  lemma DigitsOnly(number: nat)
    ensures forall c | c in Decimal(number) :: '0' <= c <= '9'
  {
    hide Decimal;
    ParseDecimal(number);
  }

  lemma ReadsNumber(number: nat, rest: string)
    ensures ReadNumbers(Decimal(number)) == Some([number])
    ensures ReadNumbers(rest).Some? ==>
              ReadNumbers(Decimal(number) + (" " + rest)) == Some([number] + ReadNumbers(rest).value)
  {
    hide Decimal, DigitRun, Parse;
    var digits, text := Decimal(number), Decimal(number) + (" " + rest);
    ParseDecimal(number);
    DigitRunOf(digits, "");
    assert digits + "" == digits;
    DigitRunOf(digits, " " + rest);
    assert text[..|digits|] == digits && text[|digits|] == ' ' && text[|digits| + 1..] == rest;
  }

  lemma HexDigitReads(d: nat)
    requires d < 16
    ensures HexValue(HexDigit(d)) == Some(d) && HexDigit(d) != '>' && HexDigit(d) != 'U' && HexDigit(d) != 'I'
  {
  }

  lemma {:induction false} HexReadsBack(bytes: seq<Byte>)
    ensures UnHex(Hex(bytes)) == Some(bytes)
    ensures '>' !in Hex(bytes) && 'U' !in Hex(bytes) && 'I' !in Hex(bytes)
  {
    if bytes != [] {
      hide HexDigit, HexValue;
      HexDigitReads(bytes[0] / 16);
      HexDigitReads(bytes[0] % 16);
      HexReadsBack(bytes[1..]);
      var text := Hex(bytes);
      assert text[2..] == Hex(bytes[1..]);
      assert [bytes[0]] + bytes[1..] == bytes;
    }
  }

  lemma HexEnds(bytes: seq<Byte>, rest: string)
    ensures UnHex(UpTo(Hex(bytes) + (">" + rest), '>')) == Some(bytes)
  {
    hide UpTo, Hex, UnHex;
    HexReadsBack(bytes);
    Past(Hex(bytes), ">" + rest, '>');
    HereCharacter('>', rest);
    assert ">" + rest == ['>'] + rest && Hex(bytes) + "" == Hex(bytes);
  }

  // ---------------------------------------------------------------- the documents

  /** A page object tells its contents. */
  lemma PageTellsContents(contents: nat, width: nat, height: nat)
    ensures NumberOf(PageBody(contents, width, height), "Contents ") == Some(contents)
  {
    hide After, NumberAt, Decimal, Box, PAGE_HEAD, PAGE_FONTS;
    var last := Reference(contents) + " >>";
    var named := "Contents " + last;
    HeadsLackMarks();
    BoxLacks(width, height);
    Past(PAGE_HEAD, "[" + (Box(width, height) + ("]" + (PAGE_FONTS + named))), 'C');
    Past("[", Box(width, height) + ("]" + (PAGE_FONTS + named)), 'C');
    Past(Box(width, height), "]" + (PAGE_FONTS + named), 'C');
    Past("]", PAGE_FONTS + named, 'C');
    Past(PAGE_FONTS, named, 'C');
    HereName("Contents ", last);
    assert last == Decimal(contents) + (" 0 R" + " >>");
    NumberReads(contents, " 0 R" + " >>");
  }

  /** The encrypted document's one page has object 5 for its contents. */
  lemma OnlyPageTellsContents()
    ensures NumberOf(OnlyPage(), "Contents ") == Some(5)
  {
    hide After, NumberAt, PAGE_HEAD, UpTo, Tail;
    HeadsLackMarks();
    var named := "Contents " + "5 0 R >>";
    Past(PAGE_HEAD, "[0 0 200 100]" + (" /Resources <<" + (" /Font << /F1 4 0 R" + (" >> >> /" + named))), 'C');
    Past("[0 0 200 100]", " /Resources <<" + (" /Font << /F1 4 0 R" + (" >> >> /" + named)), 'C');
    Past(" /Resources <<", " /Font << /F1 4 0 R" + (" >> >> /" + named), 'C');
    Past(" /Font << /F1 4 0 R", " >> >> /" + named, 'C');
    Past(" >> >> /", named, 'C');
    HereName("Contents ", "5 0 R >>");
    FiveReads();
  }

  lemma FiveReads()
    ensures NumberAt("5 0 R >>") == Some(5)
  {
    hide NumberAt;
    assert Decimal(5) == "5";
    NumberReads(5, " 0 R >>");
    assert Decimal(5) + " 0 R >>" == "5 0 R >>";
  }

  lemma HeadsLackMarks()
    ensures 'C' !in PAGE_HEAD && '[' !in PAGE_HEAD && 'C' !in PAGE_FONTS
  {
    HeadLacks('C');
    HeadLacks('[');
    FontsLack('C');
  }

  lemma HeadLacks(c: char)
    requires c in {'C', '['}
    ensures c !in PAGE_HEAD
  {
    assert c !in "<< /Type /Page";
    assert c !in " /Parent 2 0 R";
    assert c !in " /MediaBox ";
  }

  lemma FontsLack(c: char)
    requires c == 'C'
    ensures c !in PAGE_FONTS
  {
    assert c !in " /Resources <<";
    assert c !in " /Font << /F1 3 0 R";
    assert c !in " >> >> /";
  }

  lemma BoxLacks(width: nat, height: nat)
    ensures 'C' !in Box(width, height) && ']' !in Box(width, height)
  {
    hide Decimal;
    DigitsOnly(width);
    DigitsOnly(height);
  }

  /** And its size, in the order width, height. */
  lemma PageTellsSize(contents: nat, width: nat, height: nat)
    ensures ReadNumbers(UpTo(Tail(PageBody(contents, width, height), '['), ']')) == Some([0, 0, width, height])
  {
    hide Decimal, ReadNumbers, UpTo, Tail, PAGE_HEAD, PAGE_FONTS, Reference, Box;
    var last := PAGE_FONTS + ("Contents " + (Reference(contents) + " >>"));
    HeadsLackMarks();
    BoxLacks(width, height);
    var box := Box(width, height);
    Past(PAGE_HEAD, "[" + (box + ("]" + last)), '[');
    HereCharacter('[', box + ("]" + last));
    Past(box, "]" + last, ']');
    HereCharacter(']', last);
    assert box + "" == box;
    BoxReads(width, height);
  }

  lemma BoxReads(width: nat, height: nat)
    ensures ReadNumbers(Box(width, height)) == Some([0, 0, width, height])
  {
    hide ReadNumbers;
    ZeroIsZero();
    ReadsNumber(height, "");
    ReadsNumber(width, Decimal(height));
    var sizes := Decimal(width) + (" " + Decimal(height));
    ReadsNumber(0, sizes);
    ReadsNumber(0, "0" + (" " + sizes));
    assert [0] + ([0] + ([width] + [height])) == [0, 0, width, height];
  }

  lemma ZeroIsZero()
    ensures Decimal(0) == "0" && Decimal(1) == "1" && Decimal(6) == "6"
  {
  }

  /** A stream object gives back its content, whatever characters that has. */
  lemma StreamGivesContent(content: string)
    ensures StreamOf(StreamBody(content)) == Some(content)
  {
    hide Decimal, NumberAt, After, Tail, UpTo;
    var number := Decimal(|content|);
    var rest := "stream\n" + (content + "\nendstream");
    Past("<< /", "Length " + (number + (" >>" + ("\n" + rest))), 'L');
    HereName("Length ", number + (" >>" + ("\n" + rest)));
    NumberReads(|content|, " >>" + ("\n" + rest));
    DigitsOnly(|content|);
    Past("<< /", "Length " + (number + (" >>" + ("\n" + rest))), '\n');
    Past("Length ", number + (" >>" + ("\n" + rest)), '\n');
    Past(number, " >>" + ("\n" + rest), '\n');
    Past(" >>", "\n" + rest, '\n');
    HereCharacter('\n', rest);
    StreamStarts(content);
  }

  lemma StreamStarts(content: string)
    ensures var rest := "stream\n" + (content + "\nendstream");
            "stream\n" <= rest && 7 + |content| <= |rest| && rest[7..7 + |content|] == content
  {
  }

  /** The page's content shows its text. */
  lemma ContentShowsText(text: string)
    ensures Tail(Content(text), '(') == text + ") Tj ET"
  {
    hide Tail;
    var front := "BT /F1 24 Tf 20 40 Td ";
    assert Content(text) == front + (['('] + (text + ") Tj ET"));
    Past(front, ['('] + (text + ") Tj ET"), '(');
    HereCharacter('(', text + ") Tj ET");
  }

  /** An object says its number, and its body follows the first line. */
  lemma ObjectTellsNumber(number: nat, body: string)
    ensures NumberAt(ObjectText(number, body)) == Some(number)
    ensures Tail(ObjectText(number, body), '\n') == body + "\nendobj\n"
  {
    hide Decimal, NumberAt, Tail;
    var last := body + "\nendobj\n";
    DigitsOnly(number);
    assert ObjectText(number, body) == Decimal(number) + (" 0 obj" + (['\n'] + last));
    NumberReads(number, " 0 obj" + (['\n'] + last));
    Past(Decimal(number), " 0 obj" + (['\n'] + last), '\n');
    Past(" 0 obj", ['\n'] + last, '\n');
    HereCharacter('\n', last);
  }

  /** Table and trailer agree on the number of entries, one more than there are objects. */
  lemma TableTellsCount(count: nat)
    ensures ReadNumbers(UpTo(Tail(TableHead(count), '\n'), '\n')) == Some([0, count + 1])
  {
    hide Decimal, ReadNumbers, UpTo, Tail;
    var line := "0" + (" " + Decimal(count + 1));
    DigitsOnly(count + 1);
    assert '\n' !in line;
    assert TableHead(count) == "xref" + (['\n'] + (line + (['\n'] + "")));
    Past("xref", ['\n'] + (line + (['\n'] + "")), '\n');
    HereCharacter('\n', line + (['\n'] + ""));
    Past(line, ['\n'] + "", '\n');
    HereCharacter('\n', "");
    assert line + "" == line;
    ZeroIsZero();
    ReadsNumber(count + 1, "");
    ReadsNumber(0, Decimal(count + 1));
    assert [0] + [count + 1] == [0, count + 1];
  }

  /** Everything in a trailer before the root lacks the character. */
  lemma PastToRoot(count: nat, extra: string, xrefAt: nat, c: char)
    requires c in {'R', 'E', 'I'}
    ensures forall name: string | name != "" && name[0] == c ::
              After(Trailer(count, extra, xrefAt), name) == After(TrailerFromRoot(extra, xrefAt), name)
  {
    hide Decimal, After, UpTo, Tail, TrailerFromRoot;
    var root, number := TrailerFromRoot(extra, xrefAt), Decimal(count + 1);
    DigitsOnly(count + 1);
    Past(TRAILER_HEAD, "Size " + (number + (" /" + root)), c);
    Past("Size ", number + (" /" + root), c);
    Past(number, " /" + root, c);
    Past(" /", root, c);
  }

  lemma TrailerTellsCount(count: nat, extra: string, xrefAt: nat)
    ensures NumberOf(Trailer(count, extra, xrefAt), "Size ") == Some(count + 1)
  {
    hide Decimal, NumberAt, After, Tail, UpTo, TrailerFromRoot;
    var root := TrailerFromRoot(extra, xrefAt);
    Past(TRAILER_HEAD, "Size " + (Decimal(count + 1) + (" /" + root)), 'S');
    HereName("Size ", Decimal(count + 1) + (" /" + root));
    NumberReads(count + 1, " /" + root);
  }

  lemma TrailerTellsRoot(count: nat, extra: string, xrefAt: nat)
    ensures NumberOf(Trailer(count, extra, xrefAt), "Root ") == Some(1)
  {
    hide Decimal, NumberAt, After, Trailer, TrailerFromExtra;
    var end := TrailerFromExtra(extra, xrefAt);
    PastToRoot(count, extra, xrefAt, 'R');
    HereName("Root ", "1 0 R" + end);
    ZeroIsZero();
    assert "1 0 R" + end == Decimal(1) + (" 0 R" + end);
    NumberReads(1, " 0 R" + end);
  }

  /** The encrypted document's extra entry names object 6 as the encryption dictionary. */
  lemma EntryTellsDictionary(id: seq<Byte>)
    ensures NumberOf(IdentifierEntry(id), "Encrypt ") == Some(6) && After(IdentifierEntry(id), "Encrypt ").Some?
  {
    hide Decimal, NumberAt, After, UpTo, Tail, Identifier;
    var last := " 0 R /" + Identifier(id);
    Past(" /", "Encrypt " + ("6" + last), 'E');
    HereName("Encrypt ", "6" + last);
    ZeroIsZero();
    NumberReads(6, last);
  }

  /** And it gives the identifier. */
  lemma EntryTellsIdentifier(id: seq<Byte>)
    ensures BytesOf(IdentifierEntry(id), "ID [<") == Some(id) && After(IdentifierEntry(id), "ID [<").Some?
  {
    hide After, UpTo, Tail, UnHex, Hex, Identifier;
    Past(" /", "Encrypt " + ("6" + (" 0 R /" + Identifier(id))), 'I');
    Past("Encrypt ", "6" + (" 0 R /" + Identifier(id)), 'I');
    Past("6", " 0 R /" + Identifier(id), 'I');
    Past(" 0 R /", Identifier(id), 'I');
    IdentifierIsHere(id);
  }

  lemma IdentifierIsHere(id: seq<Byte>)
    ensures After(Identifier(id), "ID [<").Some? && BytesOf(Identifier(id), "ID [<") == Some(id)
  {
    hide After, UpTo, Hex, UnHex;
    var second := " <" + (Hex(id) + ">]");
    HereName("ID [<", Hex(id) + (">" + second));
    HexEnds(id, second);
  }

  /** So does the trailer that carries the entry. */
  lemma TrailerTellsEntry(count: nat, id: seq<Byte>, xrefAt: nat, name: string)
    requires name in {"Encrypt ", "ID [<"}
    ensures After(IdentifierEntry(id), name).Some?
    ensures After(Trailer(count, IdentifierEntry(id), xrefAt), name) ==
            Some(After(IdentifierEntry(id), name).value + (" >>\n" + Ending(xrefAt)))
  {
    hide After, Ending, IdentifierEntry, NumberOf, BytesOf, Trailer;
    EntryTellsDictionary(id);
    EntryTellsIdentifier(id);
    PastToRoot(count, IdentifierEntry(id), xrefAt, name[0]);
    PastRoot(IdentifierEntry(id), xrefAt, name[0]);
    Longer(IdentifierEntry(id), " >>\n" + Ending(xrefAt), name);
  }

  lemma PastRoot(extra: string, xrefAt: nat, c: char)
    requires c in {'E', 'I'}
    ensures forall name: string | name != "" && name[0] == c ::
              After(TrailerFromRoot(extra, xrefAt), name) == After(TrailerFromExtra(extra, xrefAt), name)
  {
    hide After, UpTo, Tail, TrailerFromExtra;
    Past("Root ", "1 0 R" + TrailerFromExtra(extra, xrefAt), c);
    Past("1 0 R", TrailerFromExtra(extra, xrefAt), c);
  }

  /** The encryption dictionary gives the owner entry and, under another name, the user entry. */
  lemma DictionaryTellsOwner(owner: seq<Byte>, user: seq<Byte>)
    ensures BytesOf(EncryptionDictionary(owner, user), "O <") == Some(owner)
  {
    hide After, UpTo, Tail, Hex, UnHex, DICTIONARY_HEAD;
    DictionaryHeadLacks();
    var last := " /" + ("U <" + (Hex(user) + (">" + " >>")));
    Past(DICTIONARY_HEAD, "O <" + (Hex(owner) + (">" + last)), 'O');
    HereName("O <", Hex(owner) + (">" + last));
    HexEnds(owner, last);
  }

  lemma DictionaryTellsUser(owner: seq<Byte>, user: seq<Byte>)
    ensures BytesOf(EncryptionDictionary(owner, user), "U <") == Some(user)
  {
    hide After, UpTo, Tail, Hex, UnHex, DICTIONARY_HEAD;
    HexReadsBack(owner);
    DictionaryHeadLacks();
    var last := "U <" + (Hex(user) + (">" + " >>"));
    Past(DICTIONARY_HEAD, "O <" + (Hex(owner) + (">" + (" /" + last))), 'U');
    Past("O <", Hex(owner) + (">" + (" /" + last)), 'U');
    Past(Hex(owner), ">" + (" /" + last), 'U');
    Past(">", " /" + last, 'U');
    Past(" /", last, 'U');
    HereName("U <", Hex(user) + (">" + " >>"));
    HexEnds(user, " >>");
  }

  lemma DictionaryHeadLacks()
    ensures 'O' !in DICTIONARY_HEAD && 'U' !in DICTIONARY_HEAD
  {
    DictionaryLacks('O');
    DictionaryLacks('U');
  }

  lemma DictionaryLacks(c: char)
    requires c in {'O', 'U'}
    ensures c !in DICTIONARY_HEAD
  {
    assert c !in "<< /Filter /Standard";
    assert c !in " /V 1 /R 2";
    assert c !in " /Length 40";
    assert c !in " /P -1 /";
  }
}
