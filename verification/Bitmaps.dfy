/** The size of the bitmap a page is rendered to. */
module Bitmaps {
  import opened Prelude
  import opened Tiles

  const MAX_BITMAP_EDGE: int := 20_000
  const LARGEST_I32: int := 0x7FFF_FFFF

  /** Clockwise degrees; anything that is not a right angle is left unrotated. */
  function RenderRotation(degrees: int): int {
    if degrees % 90 == 0 then degrees % 360 else 0
  }

  predicate IsSideways(degrees: int) {
    RenderRotation(degrees) == 90 || RenderRotation(degrees) == 270
  }

  /** Rounds halves away from zero, and saturates as a cast to 32 bits does. */
  function Pixels(length: real): int {
    var rounded := if length >= 0.0 then (length + 0.5).Floor else -(0.5 - length).Floor;
    if rounded > LARGEST_I32 then LARGEST_I32 else if rounded < -LARGEST_I32 - 1 then -LARGEST_I32 - 1 else rounded
  }

  datatype Edges = Edges(width: int, height: int)

  /** The bitmap asked of the engine for a page of this size, or the implausible size that is refused. */
  function BitmapSize(pageWidth: real, pageHeight: real, key: TileKey): Result<Edges, Edges> {
    if IsSideways(key.rotation) then Checked(pageHeight, pageWidth, ZoomOf(key.zoom))
    else Checked(pageWidth, pageHeight, ZoomOf(key.zoom))
  }

  function Checked(across: real, down: real, zoom: real): Result<Edges, Edges> {
    var (width, height) := (Pixels(across * zoom), Pixels(down * zoom));
    if width <= 0 || height <= 0 || width > MAX_BITMAP_EDGE || height > MAX_BITMAP_EDGE then Err(Edges(width, height))
    else Ok(Edges(width, height))
  }

  function Transposed(size: Result<Edges, Edges>): Result<Edges, Edges> {
    match size
    case Ok(edges) => Ok(Edges(edges.height, edges.width))
    case Err(edges) => Err(Edges(edges.height, edges.width))
  }

  /** A quarter turn either way transposes the bitmap, a half turn leaves its size, and so on all the way round. */
  lemma QuarterTurnTransposes(pageWidth: real, pageHeight: real, key: TileKey, quarters: int)
    requires key.rotation % 90 == 0
    ensures var turned := key.(rotation := key.rotation + 90 * quarters);
            BitmapSize(pageWidth, pageHeight, turned) ==
            if quarters % 2 == 0 then BitmapSize(pageWidth, pageHeight, key)
            else Transposed(BitmapSize(pageWidth, pageHeight, key))
  {
    hide IsSideways, ZoomOf, Checked;
    SidewaysFlips(key.rotation, quarters);
    CheckedTransposes(pageWidth, pageHeight, ZoomOf(key.zoom));
  }

  lemma CheckedTransposes(across: real, down: real, zoom: real)
    ensures Checked(down, across, zoom) == Transposed(Checked(across, down, zoom))
    ensures Checked(across, down, zoom) == Transposed(Checked(down, across, zoom))
  {
  }

  lemma SidewaysFlips(degrees: int, quarters: int)
    requires degrees % 90 == 0
    ensures IsSideways(degrees + 90 * quarters) <==> IsSideways(degrees) == (quarters % 2 == 0)
  {
    hide IsSideways;
    var turns := degrees / 90;
    assert degrees == 90 * turns && degrees + 90 * quarters == 90 * (turns + quarters);
    SidewaysIsOdd(turns);
    SidewaysIsOdd(turns + quarters);
    OddSum(turns, quarters);
  }

  lemma OddSum(a: int, b: int)
    ensures (a + b) % 2 == 1 <==> (a % 2 == 1) == (b % 2 == 0)
  {
    assert a + b == 2 * (a / 2 + b / 2) + (a % 2 + b % 2);
  }

  lemma SidewaysIsOdd(turns: int)
    ensures IsSideways(90 * turns) <==> turns % 2 == 1
  {
    var round, rest := turns / 4, turns % 4;
    assert 90 * turns == 360 * round + 90 * rest;
    assert (90 * turns) % 360 == 90 * rest;
  }

  /** Within half a pixel of each other. */
  predicate Near(pixels: int, length: real) {
    pixels as real - 0.5 <= length <= pixels as real + 0.5
  }

  /**
   An upright or half-turned page has a bitmap as wide and as high as itself at that zoom, to half a pixel; at a
   quarter turn it is as wide as the page is high.
   */
  lemma BitmapIsPageSized(pageWidth: real, pageHeight: real, key: TileKey)
    requires BitmapSize(pageWidth, pageHeight, key).Ok?
    ensures var edges, zoom := BitmapSize(pageWidth, pageHeight, key).value, ZoomOf(key.zoom);
            if key.rotation % 360 == 90 || key.rotation % 360 == 270 then
              Near(edges.width, pageHeight * zoom) && Near(edges.height, pageWidth * zoom)
            else
              Near(edges.width, pageWidth * zoom) && Near(edges.height, pageHeight * zoom)
  {
    hide ZoomOf;
    RotationIsCongruent(key.rotation);
    PixelsAreNear(pageWidth * ZoomOf(key.zoom));
    PixelsAreNear(pageHeight * ZoomOf(key.zoom));
  }

  lemma PixelsAreNear(length: real)
    ensures 0 < Pixels(length) <= MAX_BITMAP_EDGE ==> Near(Pixels(length), length)
  {
  }

  /** A right angle is rendered as the turn it comes to, anything else upright. */
  lemma RotationIsCongruent(degrees: int)
    ensures RenderRotation(degrees) in {0, 90, 180, 270}
    ensures degrees % 360 in {0, 90, 180, 270} ==> RenderRotation(degrees) == degrees % 360
    ensures degrees % 360 !in {0, 90, 180, 270} ==> RenderRotation(degrees) == 0
  {
    var turns, rest := degrees / 360, degrees % 360;
    assert degrees == 90 * (4 * turns) + rest;
    assert degrees % 90 == rest % 90;
    assert rest == 90 * (rest / 90) + rest % 90;
  }

  /** A page a third higher than wide keeps its shape upright. */
  lemma LetterPage()
    ensures BitmapSize(612.0, 792.0, TileKey(0, 8, 0)) == Ok(Edges(612, 792))
    ensures BitmapSize(612.0, 792.0, TileKey(0, 8, 90)) == Ok(Edges(792, 612))
  {
  }

  /** A page is refused exactly when an edge of it comes to less than half a pixel or rounds to over the limit. */
  lemma RefusedIffImplausible(pageWidth: real, pageHeight: real, key: TileKey)
    ensures var zoom := ZoomOf(key.zoom);
            BitmapSize(pageWidth, pageHeight, key).Ok? <==>
            0.5 <= pageWidth * zoom < 20_000.5 && 0.5 <= pageHeight * zoom < 20_000.5
  {
    hide ZoomOf, IsSideways, Pixels;
    PlausibleIff(pageWidth * ZoomOf(key.zoom));
    PlausibleIff(pageHeight * ZoomOf(key.zoom));
  }

  lemma PlausibleIff(length: real)
    ensures 0 < Pixels(length) <= MAX_BITMAP_EDGE <==> 0.5 <= length < 20_000.5
  {
  }
}
