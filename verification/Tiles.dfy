/** Tile keys, zoom quantisation, and the page encodings between worker, host and canvas. */
module Tiles {
  import opened Prelude

  // ------------------------------------------------------------- zoom buckets

  /** A zoom factor: a real number, or one of the values that are not finite. */
  datatype Zoom = NotFinite | Finite(factor: real)

  const STEPS_PER_UNIT: real := 8.0
  const LARGEST_BUCKET: int := 0xFFFF

  /** A bucket made by `FromZoom`; the clamp keeps zero out. */
  type ZoomBucket = b: int | 1 <= b <= LARGEST_BUCKET witness 1

  /** Rounds a positive number, halves away from zero. */
  function Round(x: real): int {
    (x + 0.5).Floor
  }

  function FromZoom(zoom: Zoom): ZoomBucket {
    if zoom.NotFinite? || zoom.factor <= 0.0 then 1
    else
      var steps := Round(zoom.factor * STEPS_PER_UNIT);
      if steps < 1 then 1 else if steps > LARGEST_BUCKET then LARGEST_BUCKET else steps
  }

  function ZoomOf(bucket: ZoomBucket): Single {
    EighthsAreSingle(bucket);
    bucket as real / STEPS_PER_UNIT
  }

  lemma EighthsAreSingle(bucket: ZoomBucket)
    ensures var steps := bucket as real / STEPS_PER_UNIT * STEPS_IN_ONE; steps.Floor as real == steps
  {
    var (x, whole) := (bucket as real, bucket * 89202980794122492566142873090593446023921664);
    assert x / STEPS_PER_UNIT * STEPS_IN_ONE == x * 89202980794122492566142873090593446023921664.0;
    assert x * 89202980794122492566142873090593446023921664.0 == whole as real;
    WholeNumbers(whole);
  }

  lemma WholeNumbers(n: int)
    ensures (n as real).Floor == n
  {
  }

  /** What is not a positive number takes the smallest bucket. */
  lemma DegenerateZooms(zoom: Zoom)
    requires zoom.NotFinite? || zoom.factor <= 0.0
    ensures FromZoom(zoom) == 1 && ZoomOf(FromZoom(zoom)) == 0.125
  {
  }

  function Distance(x: real, y: real): real {
    if x <= y then y - x else x - y
  }

  /** The worker quantises again what the host already quantised, and gets the same key. */
  lemma BucketRoundTrip(bucket: ZoomBucket)
    ensures FromZoom(Finite(ZoomOf(bucket))) == bucket
  {
  }

  /** The bucket chosen is a nearest one, and within a sixteenth between the two ends of the scale. */
  lemma NearestBucket(zoom: Zoom, other: ZoomBucket)
    requires zoom.Finite?
    ensures var chosen := ZoomOf(FromZoom(zoom));
            && Distance(chosen, zoom.factor) <= Distance(ZoomOf(other), zoom.factor)
            && (0.0625 <= zoom.factor <= 8191.875 ==> Distance(chosen, zoom.factor) <= 0.0625)
  {
    var x := zoom.factor * STEPS_PER_UNIT;
    var chosen := FromZoom(zoom);
    RoundIsNearest(x, other);
    if zoom.factor > 0.0 && Round(x) > LARGEST_BUCKET {
      assert LARGEST_BUCKET as real <= x;
    }
    assert Distance(chosen as real, x) <= Distance(other as real, x);
    DistanceScales(chosen, zoom.factor);
    DistanceScales(other, zoom.factor);
  }

  lemma RoundIsNearest(x: real, other: int)
    ensures Distance(Round(x) as real, x) <= 0.5
    ensures Distance(Round(x) as real, x) <= Distance(other as real, x)
    ensures other <= Round(x) ==> other as real <= x + 0.5
    ensures Round(x) < other ==> x + 0.5 < other as real
  {
  }

  lemma DistanceScales(bucket: ZoomBucket, factor: real)
    ensures Distance(bucket as real, factor * STEPS_PER_UNIT) == Distance(ZoomOf(bucket), factor) * STEPS_PER_UNIT
  {
  }

  // -------------------------------------------------------------------- tiles

  datatype TileKey = TileKey(page: nat, zoom: ZoomBucket, rotation: int)

  datatype Tile = Tile(width: U32, height: U32, pixels: seq<Byte>) {
    function SizeBytes(): nat {
      |pixels|
    }
  }

  /** `width * height * 4` in checked arithmetic. */
  function PixelBytes(width: U32, height: U32): Option<nat> {
    match CheckedMul(width, height)
    case None => None
    case Some(n) => CheckedMul(n, 4)
  }

  // ------------------------------------------------------- channel order swap

  /** The pixels with bytes 0 and 2 of every whole group of four exchanged. */
  function Swapped(pixels: seq<Byte>): (swapped: seq<Byte>)
    ensures |swapped| == |pixels|
  {
    seq(|pixels|, i requires 0 <= i < |pixels| => SwappedAt(pixels, i))
  }

  function SwappedAt(pixels: seq<Byte>, i: nat): Byte
    requires i < |pixels|
  {
    if i - i % 4 + 4 > |pixels| then pixels[i]
    else if i % 4 == 0 then pixels[i + 2]
    else if i % 4 == 2 then pixels[i - 2]
    else pixels[i]
  }

  /** Converting twice gives the original back, at every length, ragged tail included. */
  lemma SwapTwice(pixels: seq<Byte>)
    ensures Swapped(Swapped(pixels)) == pixels
  {
  }

  lemma PixelSwapped(pixels: seq<Byte>, pixel: nat)
    requires 4 * pixel + 4 <= |pixels|
    ensures SwappedAt(pixels, 4 * pixel) == pixels[4 * pixel + 2]
    ensures SwappedAt(pixels, 4 * pixel + 1) == pixels[4 * pixel + 1]
    ensures SwappedAt(pixels, 4 * pixel + 2) == pixels[4 * pixel]
    ensures SwappedAt(pixels, 4 * pixel + 3) == pixels[4 * pixel + 3]
  {
    assert (4 * pixel) % 4 == 0 && (4 * pixel + 1) % 4 == 1 && (4 * pixel + 2) % 4 == 2 && (4 * pixel + 3) % 4 == 3;
  }

  lemma TailStays(pixels: seq<Byte>)
    ensures forall i | |pixels| / 4 * 4 <= i < |pixels| :: SwappedAt(pixels, i) == pixels[i]
  {
  }

  /** In every whole pixel the first and third bytes change places; the others and a ragged tail stay. */
  lemma ChannelsChangePlaces(pixels: seq<Byte>, pixel: nat, i: nat)
    ensures 4 * pixel + 4 <= |pixels| ==>
              && Swapped(pixels)[4 * pixel] == pixels[4 * pixel + 2]
              && Swapped(pixels)[4 * pixel + 1] == pixels[4 * pixel + 1]
              && Swapped(pixels)[4 * pixel + 2] == pixels[4 * pixel]
              && Swapped(pixels)[4 * pixel + 3] == pixels[4 * pixel + 3]
    ensures |pixels| / 4 * 4 <= i < |pixels| ==> Swapped(pixels)[i] == pixels[i]
  {
    hide SwappedAt;
    if 4 * pixel + 4 <= |pixels| {
      PixelSwapped(pixels, pixel);
    }
    TailStays(pixels);
  }

  method BgraToRgba(pixels: array<Byte>)
    modifies pixels
    ensures pixels[..] == Swapped(old(pixels[..]))
  {
    hide SwappedAt;
    ghost var before := pixels[..];
    var chunks := pixels.Length / 4;
    TailStays(before);
    for chunk := 0 to chunks
      invariant forall i | 0 <= i < 4 * chunk :: pixels[i] == SwappedAt(before, i)
      invariant forall i | 4 * chunk <= i < pixels.Length :: pixels[i] == before[i]
    {
      var at := 4 * chunk;
      PixelSwapped(before, chunk);
      pixels[at], pixels[at + 2] := pixels[at + 2], pixels[at];
    }
  }

  // ------------------------------------------------------------- page transport

  const PAGE_HEADER_BYTES: nat := 8

  function LittleEndian(n: U32): (bytes: seq<Byte>)
    ensures |bytes| == 4
  {
    [n % 0x100, n / 0x100 % 0x100, n / 0x1_0000 % 0x100, n / 0x100_0000]
  }

  function FromLittleEndian(bytes: seq<Byte>): U32
    requires |bytes| == 4
  {
    var (a: int, b: int, c: int, d: int) := (bytes[0], bytes[1], bytes[2], bytes[3]);
    a + b * 0x100 + c * 0x1_0000 + d * 0x100_0000
  }

  lemma LittleEndianRoundTrip(n: U32)
    ensures FromLittleEndian(LittleEndian(n)) == n
  {
    var high, low := n / 0x1_0000, n % 0x1_0000;
    assert n / 0x100_0000 == high / 0x100;
    assert n / 0x1_0000 % 0x100 == high % 0x100;
    assert n / 0x100 % 0x100 == low / 0x100;
    assert n % 0x100 == low % 0x100;
  }

  lemma LittleEndianOf(bytes: seq<Byte>)
    requires |bytes| == 4
    ensures LittleEndian(FromLittleEndian(bytes)) == bytes
  {
    var n: int := FromLittleEndian(bytes);
    var b: int, c: int, d: int := bytes[1], bytes[2], bytes[3];
    assert n / 0x100_0000 == d;
    assert n / 0x1_0000 == d * 0x100 + c;
    assert n / 0x100 == d * 0x1_0000 + c * 0x100 + b;
  }

  function EncodePage(width: U32, height: U32, pixels: seq<Byte>): seq<Byte> {
    LittleEndian(width) + LittleEndian(height) + pixels
  }

  function DecodePage(buffer: seq<Byte>): Option<Tile> {
    if |buffer| < PAGE_HEADER_BYTES then None
    else
      var width := FromLittleEndian(buffer[0..4]);
      var height := FromLittleEndian(buffer[4..8]);
      var pixels := buffer[PAGE_HEADER_BYTES..];
      if PixelBytes(width, height) != Some(|pixels|) then None
      else Some(Tile(width, height, pixels))
  }

  /** Decoding gives back exactly the page that was encoded, or nothing when its length contradicts its header. */
  lemma PageRoundTrip(width: U32, height: U32, pixels: seq<Byte>)
    ensures DecodePage(EncodePage(width, height, pixels)) ==
            if |pixels| == width * height * 4 < USIZE_LIMIT then Some(Tile(width, height, pixels)) else None
  {
    var buffer := EncodePage(width, height, pixels);
    assert buffer[0..4] == LittleEndian(width);
    assert buffer[4..8] == LittleEndian(height);
    assert buffer[8..] == pixels;
    LittleEndianRoundTrip(width);
    LittleEndianRoundTrip(height);
  }

  /** Whatever decodes is the encoding of what it decodes to. */
  lemma DecodedPageIsEncoded(buffer: seq<Byte>)
    requires DecodePage(buffer).Some?
    ensures var tile := DecodePage(buffer).value;
            buffer == EncodePage(tile.width, tile.height, tile.pixels)
  {
    LittleEndianOf(buffer[0..4]);
    LittleEndianOf(buffer[4..8]);
    assert buffer == buffer[0..4] + buffer[4..8] + buffer[8..];
  }

  /** The layout of a page: width, then height, low bytes first, then the pixels. */
  lemma PageLayout(width: U32, height: U32, pixels: seq<Byte>)
    ensures var (w, h, rest) := ReadTwo(EncodePage(width, height, pixels));
            w == width && h == height && rest == pixels
  {
    var buffer := EncodePage(width, height, pixels);
    LittleEndianRoundTrip(width);
    LittleEndianRoundTrip(height);
    assert buffer[..4] == LittleEndian(width) && buffer[4..8] == LittleEndian(height) && buffer[8..] == pixels;
  }

  /** What a reader of two numbers, each of four bytes with the low ones first, makes of a buffer. */
  function ReadTwo(buffer: seq<Byte>): (int, int, seq<Byte>)
    requires |buffer| >= 8
  {
    var (a: int, b: int, c: int, d: int) := (buffer[0], buffer[1], buffer[2], buffer[3]);
    var (e: int, f: int, g: int, h: int) := (buffer[4], buffer[5], buffer[6], buffer[7]);
    (a + 0x100 * (b + 0x100 * (c + 0x100 * d)), e + 0x100 * (f + 0x100 * (g + 0x100 * h)), buffer[8..])
  }
}
