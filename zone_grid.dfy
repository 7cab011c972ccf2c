/**
 The zone grid of FancyZoneGen/Program.cs (lines 76-102): from a layout's reference
 width and height and the column split pixels, build the column specs (full width, then
 a left and a right part per split), the row specs (full height, top half, bottom half)
 and their Cartesian product, column-major, as {X, Y, width, height} rectangles.
 */
module ZoneGrid {

  /** A column spec: left edge and width, in pixels. */
  datatype Column = Column(x: int, width: int)

  /** A row spec: top edge and height, in pixels. */
  datatype Row = Row(y: int, height: int)

  /** One generated zone, as written into `info.zones`. */
  datatype Zone = Zone(x: int, y: int, width: int, height: int)

  /** The split pixels for 30%, 50% and 70% of the reference width, in that order. */
  datatype Splits = Splits(at30: int, at50: int, at70: int)

  function SplitList(s: Splits): (r: seq<int>)
    ensures |r| == 3
  {
    [s.at30, s.at50, s.at70]
  }

  /** `n / 2` on C# `int`: the quotient is truncated toward zero. */
  function Half(n: int): (h: int)
    ensures n >= 0 ==> 0 <= h && h + h <= n <= h + h + 1
    ensures n < 0 ==> h <= 0 && h + h - 1 <= n <= h + h
  {
    if n >= 0 then n / 2 else -((-n) / 2)
  }

  /** The two column specs one split pixel gives: the part left of it and the part right of it. */
  function SplitAt(refWidth: int, px: int): (r: seq<Column>)
    ensures |r| == 2
    ensures r[0].x == 0 && r[0].width == px
    ensures r[1].x == r[0].x + r[0].width && r[0].width + r[1].width == refWidth
  {
    [Column(0, px), Column(px, refWidth - px)]
  }

  /** `SelectMany` of SplitAt over the split pixels: the pair for pixel i sits at 2*i and 2*i+1. */
  function SplitAll(refWidth: int, pixels: seq<int>): (r: seq<Column>)
    ensures |r| == 2 * |pixels|
    ensures forall i :: 0 <= i < |pixels| ==>
              r[2 * i] == Column(0, pixels[i]) && r[2 * i + 1] == Column(pixels[i], refWidth - pixels[i])
  {
    if pixels == [] then [] else SplitAt(refWidth, pixels[0]) + SplitAll(refWidth, pixels[1..])
  }

  /** The column specs: the full width prepended to the split columns. */
  function Columns(refWidth: int, pixels: seq<int>): (r: seq<Column>)
    ensures |r| == 1 + 2 * |pixels|
    ensures r[0] == Column(0, refWidth)
    ensures forall i :: 0 <= i < |pixels| ==>
              r[1 + 2 * i] == Column(0, pixels[i]) && r[2 + 2 * i] == Column(pixels[i], refWidth - pixels[i])
  {
    [Column(0, refWidth)] + SplitAll(refWidth, pixels)
  }

  /** The row specs: full height, then the top and the bottom half, which meet at `refHeight / 2`. */
  function Rows(refHeight: int): (r: seq<Row>)
    ensures |r| == 3
    ensures r[0] == Row(0, refHeight)
    ensures r[1].y == 0 && r[2].y == r[1].y + r[1].height && r[2].height == r[1].height
    ensures r[1] == Row(0, Half(refHeight)) && r[2] == Row(Half(refHeight), Half(refHeight))
    ensures refHeight >= 0 ==> 0 <= r[1].height && r[2].y + r[2].height <= refHeight <= r[2].y + r[2].height + 1
  {
    var half := Half(refHeight);
    [Row(0, refHeight), Row(0, half), Row(half, half)]
  }

  /** The zone that pairs a column spec with a row spec (the result selector of line 95). */
  function Cell(col: Column, row: Row): Zone
  {
    Zone(col.x, row.y, col.width, row.height)
  }

  /**
   `SelectMany` over the column specs with the three row specs as inner sequence: the
   column-major Cartesian product, zone 3*c + k pairing column spec c with row spec k.
   */
  function Product(cols: seq<Column>, rows: seq<Row>): (r: seq<Zone>)
    requires |rows| == 3
    ensures |r| == 3 * |cols|
    ensures forall c, k :: 0 <= c < |cols| && 0 <= k < 3 ==> r[3 * c + k] == Cell(cols[c], rows[k])
  {
    if cols == [] then []
    else
      var head := seq(3, k requires 0 <= k < 3 => Cell(cols[0], rows[k]));
      var tail := Product(cols[1..], rows);
      forall c, k | 0 <= c < |cols| && 0 <= k < 3
        ensures (head + tail)[3 * c + k] == Cell(cols[c], rows[k])
      {
        if c > 0 {
          assert cols[c] == cols[1..][c - 1];
          assert (head + tail)[3 * c + k] == tail[3 * (c - 1) + k];
        }
      }
      head + tail
  }

  /** The zones for given split pixels: every column spec crossed with the three row specs. */
  function Grid(refWidth: int, refHeight: int, pixels: seq<int>): (r: seq<Zone>)
    ensures |r| == 3 * (1 + 2 * |pixels|)
  {
    Product(Columns(refWidth, pixels), Rows(refHeight))
  }

  /** The zone list the program writes into `info.zones`. */
  function Zones(refWidth: int, refHeight: int, splits: Splits): (r: seq<Zone>)
    ensures |r| == 21
  {
    Grid(refWidth, refHeight, SplitList(splits))
  }

  /**
   Ordering of the grid: zone 3*c + k pairs column spec c with row spec k, column spec 0
   being the full width and 1 + 2*i, 2 + 2*i the left and right parts of split pixel i.
   */
  lemma GridOrder(refWidth: int, refHeight: int, pixels: seq<int>)
    ensures var g, rows := Grid(refWidth, refHeight, pixels), Rows(refHeight);
      && (forall k :: 0 <= k < 3 ==> g[k] == Zone(0, rows[k].y, refWidth, rows[k].height))
      && (forall i, k :: 0 <= i < |pixels| && 0 <= k < 3 ==>
            && g[3 * (1 + 2 * i) + k] == Zone(0, rows[k].y, pixels[i], rows[k].height)
            && g[3 * (2 + 2 * i) + k] == Zone(pixels[i], rows[k].y, refWidth - pixels[i], rows[k].height))
  {
  }

  /** The first zone is the whole reference canvas. */
  lemma FirstZoneIsCanvas(refWidth: int, refHeight: int, splits: Splits)
    ensures Zones(refWidth, refHeight, splits)[0] == Zone(0, 0, refWidth, refHeight)
  {
  }

  /**
   For every split pixel and every row spec, the left and the right zone lie side by side:
   same rows, the right one starting where the left one ends, widths adding up to the canvas width.
   */
  lemma SplitZonesTile(refWidth: int, refHeight: int, splits: Splits, i: nat, k: nat)
    requires i < 3 && k < 3
    ensures var z := Zones(refWidth, refHeight, splits);
      var left, right := z[3 * (1 + 2 * i) + k], z[3 * (2 + 2 * i) + k];
      && left.x == 0 && left.width == SplitList(splits)[i]
      && right.x == left.x + left.width
      && left.width + right.width == refWidth
      && left.y == right.y && left.height == right.height
  {
  }

  /**
   The top-half and bottom-half zones of one column spec are stacked without overlap: the
   bottom one starts where the top one ends, and for a non-negative height both fit inside
   the full-height zone, leaving at most one pixel row uncovered.
   */
  lemma HalvesStack(refWidth: int, refHeight: int, splits: Splits, c: nat)
    requires c < 7
    ensures var z := Zones(refWidth, refHeight, splits);
      var full, top, bottom := z[3 * c], z[3 * c + 1], z[3 * c + 2];
      && full.y == 0 && full.height == refHeight
      && top.y == 0 && bottom.y == top.y + top.height && bottom.height == top.height
      && top.x == full.x == bottom.x && top.width == full.width == bottom.width
      && (refHeight >= 0 ==> 0 <= top.height && bottom.y + bottom.height <= refHeight <= bottom.y + bottom.height + 1)
  {
    var cols, rows := Columns(refWidth, SplitList(splits)), Rows(refHeight);
    var z := Zones(refWidth, refHeight, splits);
    assert z[3 * c + 0] == Cell(cols[c], rows[0]);
    assert z[3 * c + 1] == Cell(cols[c], rows[1]);
    assert z[3 * c + 2] == Cell(cols[c], rows[2]);
  }

  /**
   With split pixels inside the canvas and a non-negative canvas, every zone has a
   non-negative size and lies inside the reference canvas.
   */
  lemma ZonesInsideCanvas(refWidth: int, refHeight: int, splits: Splits)
    requires refWidth >= 0 && refHeight >= 0
    requires 0 <= splits.at30 <= refWidth && 0 <= splits.at50 <= refWidth && 0 <= splits.at70 <= refWidth
    ensures forall z :: z in Zones(refWidth, refHeight, splits) ==>
              0 <= z.x && 0 <= z.width && z.x + z.width <= refWidth
              && 0 <= z.y && 0 <= z.height && z.y + z.height <= refHeight
  {
    var pixels, rows := SplitList(splits), Rows(refHeight);
    var cols := Columns(refWidth, pixels);
    var g := Zones(refWidth, refHeight, splits);
    forall j | 0 <= j < 21
      ensures 0 <= g[j].x && 0 <= g[j].width && g[j].x + g[j].width <= refWidth
      ensures 0 <= g[j].y && 0 <= g[j].height && g[j].y + g[j].height <= refHeight
    {
      var c, k := j / 3, j % 3;
      assert g[3 * c + k] == Cell(cols[c], rows[k]);
      ColumnWithin(refWidth, pixels, c);
    }
  }

  /** With split pixels between 0 and the width, each column spec lies within the width. */
  lemma ColumnWithin(refWidth: int, pixels: seq<int>, c: nat)
    requires c < 1 + 2 * |pixels| && refWidth >= 0
    requires forall i :: 0 <= i < |pixels| ==> 0 <= pixels[i] <= refWidth
    ensures var col := Columns(refWidth, pixels)[c];
      0 <= col.x && 0 <= col.width && col.x + col.width <= refWidth
  {
    if c > 0 {
      var i := (c - 1) / 2;
      assert c == 1 + 2 * i || c == 2 + 2 * i;
      assert 0 <= pixels[i] <= refWidth;
    }
  }

  /** The worked example: a 1920x1080 canvas split at 576, 960 and 1344 pixels. */
  lemma Example1920x1080()
    ensures var z := Zones(1920, 1080, Splits(576, 960, 1344));
      && z[0] == Zone(0, 0, 1920, 1080)
      && Zone(0, 0, 576, 1080) in z
      && Zone(576, 0, 1344, 540) in z
  {
  }
}
