/** The corpus generator's encrypted document: one page, its content under the key of its own object. */
module EncryptedPdf {
  import opened Prelude
  import opened Rc4
  import opened CorpusPdf

  function AsText(bytes: seq<Byte>): string {
    seq(|bytes|, i requires 0 <= i < |bytes| => bytes[i] as char)
  }

  /** Each character stands for a byte. */
  predicate IsLatin(text: string) {
    forall i | 0 <= i < |text| :: text[i] as int < 0x100
  }

  function AsBytes(text: string): seq<Byte>
    requires IsLatin(text)
  {
    seq(|text|, i requires 0 <= i < |text| => text[i] as int)
  }

  lemma TextKeepsBytes(bytes: seq<Byte>)
    ensures IsLatin(AsText(bytes)) && AsBytes(AsText(bytes)) == bytes
  {
  }

  function HexDigit(d: nat): char
    requires d < 16
  {
    "0123456789abcdef"[d]
  }

  function Hex(bytes: seq<Byte>): string {
    if bytes == [] then "" else [HexDigit(bytes[0] / 16), HexDigit(bytes[0] % 16)] + Hex(bytes[1..])
  }

  function OnlyPage(): string {
    PAGE_HEAD +
    ("[0 0 200 100]" + (" /Resources <<" + (" /Font << /F1 4 0 R" + (" >> >> /" + ("Contents " + "5 0 R >>")))))
  }

  function OnlyPageTree(): string {
    "<< /Type /Pages /Kids [3 0 R] /Count 1 >>"
  }

  const DICTIONARY_HEAD: string := "<< /Filter /Standard" + " /V 1 /R 2" + " /Length 40" + " /P -1 /"

  function EncryptionDictionary(owner: seq<Byte>, user: seq<Byte>): string {
    DICTIONARY_HEAD + ("O <" + (Hex(owner) + (">" + (" /" + ("U <" + (Hex(user) + (">" + " >>")))))))
  }

  function IdentifierEntry(id: seq<Byte>): string {
    " /" + ("Encrypt " + ("6" + (" 0 R /" + Identifier(id))))
  }

  function Identifier(id: seq<Byte>): string {
    "ID [<" + (Hex(id) + (">" + (" <" + (Hex(id) + ">]"))))
  }

  lemma ContentIsLatin(text: string)
    requires IsAscii(text)
    ensures IsLatin(Content(text))
  {
  }

  /** The key of object five, as a reader computes it from the password and the file's identifier. */
  function ContentKey(md5: Digest, password: seq<Byte>, id: seq<Byte>): (key: seq<Byte>)
    requires IsDigest(md5)
    ensures key != []
  {
    ObjectKey(md5, EncryptionKey(md5, password, id), 5, 0)
  }

  /** A stream that the reader's key turns into the page's content. */
  ghost predicate Deciphers(md5: Digest, password: seq<Byte>, id: seq<Byte>, stream: string, text: string)
    requires IsDigest(md5)
  {
    IsLatin(stream) && IsLatin(Content(text)) &&
    Ciphered(ContentKey(md5, password, id), AsBytes(stream)) == AsBytes(Content(text))
  }

  /**
   The file, or nothing when the text cannot be encoded. Its trailer names object six as the encryption dictionary
   and carries the identifier. While the table can be read, it leads to that dictionary, whose entries are those
   that authenticate the password, and to a stream that a reader with the password and the identifier deciphers.
   */
  method BuildEncrypted(md5: Digest, text: string, password: seq<Byte>, id: seq<Byte>)
    returns (file: Option<string>, ghost bodies: seq<string>, ghost offsets: seq<nat>, ghost xrefAt: nat)
    requires IsDigest(md5)
    ensures file.Some? <==> IsAscii(text)
    ensures file.Some? ==>
              && |bodies| == 6 && Written(file.value, bodies, IdentifierEntry(id), offsets, xrefAt)
              && EndsAtTable(file.value, xrefAt, 6, IdentifierEntry(id))
    ensures file.Some? && TableFits(bodies) ==>
              && LeadsTo(file.value, xrefAt, 6, 1, Catalog()) && LeadsTo(file.value, xrefAt, 6, 2, OnlyPageTree())
              && LeadsTo(file.value, xrefAt, 6, 3, OnlyPage())
              && (exists stream ::
                    LeadsTo(file.value, xrefAt, 6, 5, StreamBody(stream)) &&
                    Deciphers(md5, password, id, stream, text))
              && LeadsTo(file.value, xrefAt, 6, 6,
                         EncryptionDictionary(OwnerEntry(md5, password), UserEntry(md5, password, id)))
  {
    hide Ciphered, StreamBody, Content, EncryptionDictionary, IdentifierEntry, Identifier, OnlyPage, OnlyPageTree,
      Catalog, Font, Written, LeadsTo, EndsAtTable, Hex, AsText, AsBytes, PadPassword, TableFits;
    xrefAt, offsets, bodies := 0, [], [];
    if !IsAscii(text) {
      return None, [], [], 0;
    }
    ContentIsLatin(text);
    var padded := PadPassword(password);
    var owner := Encipher(md5(padded)[..KEY_LENGTH], padded);
    var key := md5(padded + owner + ALL_PERMISSIONS + id)[..KEY_LENGTH];
    var user := Encipher(key, PAD);
    var encrypted := Encipher(ObjectKey(md5, key, 5, 0), AsBytes(Content(text)));
    var objects := [
      Catalog(), OnlyPageTree(), OnlyPage(), Font(), StreamBody(AsText(encrypted)), EncryptionDictionary(owner, user)];
    var extra := IdentifierEntry(id);
    var out, recorded, table := Assemble(objects, extra);
    bodies, offsets, xrefAt := objects, recorded, table;
    file := Some(out);
    StartxrefFindsTable(out, objects, extra, offsets, table);
    if TableFits(bodies) {
      ObjectIsReachable(out, objects, extra, offsets, table, 1);
      ObjectIsReachable(out, objects, extra, offsets, table, 2);
      ObjectIsReachable(out, objects, extra, offsets, table, 3);
      ObjectIsReachable(out, objects, extra, offsets, table, 5);
      ObjectIsReachable(out, objects, extra, offsets, table, 6);
      TextKeepsBytes(encrypted);
      CipherTwice(ContentKey(md5, password, id), AsBytes(Content(text)));
      assert Deciphers(md5, password, id, AsText(encrypted), text);
    }
  }

  /** The one page is the one the page tree lists, and its contents are object five. */
  lemma OnlyPageIsListed()
    ensures Listed(OnlyPageTree()) == Some([3])
  {
    hide Listed, ReadReferences;
    ListedBetween("<< /Type /Pages /Kids ", "3 0 R", " /Count 1 >>");
    TreeInParts();
    assert Reference(3) + "" == "3 0 R";
    ReadsReference(3, "");
  }

  lemma TreeInParts()
    ensures OnlyPageTree() == "<< /Type /Pages /Kids " + ['['] + ("3 0 R" + [']'] + " /Count 1 >>")
  {
  }
}
