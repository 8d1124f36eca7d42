/** The layers of the `.xp` export and import: tile positions (`xp_pos`),
    the map layers `save_to_xp` streams cell by cell, the legend text it
    writes over a copy of the legend layer (`text_to_tiles`), and the step
    of `load_from_xp` that turns the glyphs of a loaded layer back into
    heights. */
module XpLayers {
  import opened Wrappers
  import opened Errors
  import opened Arith
  import opened Palettes
  import opened Terrain
  import opened XpCodec

  /** `xp_pos(x, y, layer)`: the index of the tile in row `x` of column `y`
      of a layer `height` rows high. Layers are stored column by column. */
  function XpPos(x: int, y: int, height: int): int
  {
    y * height + x
  }

  /** Row and column can be read back from the index: distinct cells have
      distinct tiles. */
  lemma XpPosInverse(x: int, y: int, height: int)
    requires 0 <= x < height && 0 <= y
    ensures XpPos(x, y, height) % height == x && XpPos(x, y, height) / height == y
  {
    ModOfDecomposition(XpPos(x, y, height), height, y, x);
  }

  lemma XpPosNonNegative(x: int, y: int, height: int)
    requires 0 <= x && 0 <= y && 0 <= height
    ensures XpPos(x, y, height) >= 0
  {
  }

  /** Every cell of a `width` by `height` layer has its tile in the list. */
  lemma XpPosInRange(x: int, y: int, width: int, height: int)
    requires 0 <= x < height && 0 <= y < width
    ensures 0 <= XpPos(x, y, height) < width * height
  {
    assert (y + 1) * height <= width * height;
  }

  // ---------------------------------------------------------------------
  // The map layers.
  // ---------------------------------------------------------------------

  /** Column `x` of `g`, top to bottom. */
  function Column(g: Grid, n: int, x: int): (r: seq<int>)
    requires IsSquare(g, n) && 0 <= x < n
    ensures |r| == n && forall y :: 0 <= y < n ==> r[y] == g[y][x]
  {
    seq(n, y requires 0 <= y < n => g[y][x])
  }

  /** Columns `x ..` of `g`, one after the other. */
  function Columns(g: Grid, n: int, x: int): (r: seq<int>)
    requires IsSquare(g, n) && 0 <= x <= n
    decreases n - x
  {
    if x == n then [] else Column(g, n, x) + Columns(g, n, x + 1)
  }

  /** The heights in the order the nested loops of `save_to_xp` visit them:
      column `x` outer, row `y` inner. */
  function ColumnMajor(g: Grid, n: int): seq<int>
    requires IsSquare(g, n)
  {
    Columns(g, n, 0)
  }

  /** `(a + 1) * n == a * n + n`. */
  lemma MulSucc(a: int, n: int)
    ensures (a + 1) * n == a * n + n
  {
  }

  /** A row offset below `n` does not reach the next multiple of `n`. */
  lemma MulBelow(a: int, b: int, n: int, y: int)
    requires 0 <= a < b && 0 <= y < n
    ensures 0 <= a * n + y < b * n
  {
    assert b * n == a * n + (b - a) * n;
    MulSign(n, b - a);
    MulSign(n, a);
  }

  lemma {:induction false} ColumnsLength(g: Grid, n: int, x0: int)
    requires IsSquare(g, n) && 0 <= x0 <= n
    ensures |Columns(g, n, x0)| == (n - x0) * n
    decreases n - x0
  {
    if x0 < n {
      ColumnsLength(g, n, x0 + 1);
      MulSucc(n - x0 - 1, n);
    }
  }

  lemma {:induction false} ColumnsAt(g: Grid, n: int, x0: int, x: int, y: int)
    requires IsSquare(g, n) && 0 <= x0 <= x < n && 0 <= y < n
    ensures |Columns(g, n, x0)| == (n - x0) * n && 0 <= (x - x0) * n + y < (n - x0) * n
    ensures Columns(g, n, x0)[(x - x0) * n + y] == g[y][x]
    decreases n - x0
  {
    ColumnsLength(g, n, x0);
    MulBelow(x - x0, n - x0, n, y);
    if x0 < x {
      ColumnsAt(g, n, x0 + 1, x, y);
      MulSucc(x - x0 - 1, n);
    }
  }

  /** The tile of cell `(y, x)` is written at `xp_pos(y, x)`: tile `c * N + r`
      shows row `r` of column `c`. */
  lemma ColumnMajorAt(g: Grid, n: int, y: int, x: int)
    requires IsSquare(g, n)
    requires 0 <= y < n && 0 <= x < n
    ensures |ColumnMajor(g, n)| == n * n && 0 <= XpPos(y, x, n) < n * n
    ensures ColumnMajor(g, n)[XpPos(y, x, n)] == g[y][x]
  {
    ColumnsAt(g, n, 0, x, y);
  }

  /** Which map layer is being written. */
  datatype GridLayerKind =
    | SpaceOnBg     // a blank glyph, both colours the height's background
    | GlyphOnBg     // the height's glyph, both colours the height's background
    | GlyphOnBlack  // the height's glyph, white on black

  /** `ord(" ")`. */
  const SpaceCode := 32

  /** The tile written for height `h`. `chr(ch_int)` raises `ValueError` outside
      `0 .. 0x10FFFF`, and the palette lookup raises `KeyError` for a height
      the palette has no entry for; the glyph layer does not look it up. */
  function GridTile(h: int, pal: Palette, kind: GridLayerKind): Result<XTile, PyError>
  {
    var code := GlyphCode(h);
    if code < 0 || code > MaxCodePoint then Err(ValueError)
    else if kind == GlyphOnBlack then Ok(XTile(code, White, Black))
    else match EntryForHeight(pal, h)
      case None => Err(KeyError)
      case Some(e) => Ok(XTile(if kind == SpaceOnBg then SpaceCode else code, e.bg, e.bg))
  }

  /** The tiles for a stream of heights, or the error of the first height that fails. */
  function GridTiles(hs: seq<int>, pal: Palette, kind: GridLayerKind): (r: Result<seq<XTile>, PyError>)
    ensures r.Ok? <==> forall i :: 0 <= i < |hs| ==> GridTile(hs[i], pal, kind).Ok?
    ensures r.Ok? ==> |r.value| == |hs| &&
                      forall i :: 0 <= i < |hs| ==> GridTile(hs[i], pal, kind) == Ok(r.value[i])
    ensures r.Err? ==> exists i :: 0 <= i < |hs| && GridTile(hs[i], pal, kind) == Err(r.error) &&
                                   forall j :: 0 <= j < i ==> GridTile(hs[j], pal, kind).Ok?
  {
    if |hs| == 0 then Ok([])
    else
      var init := hs[..|hs| - 1];
      assert forall i :: 0 <= i < |init| ==> init[i] == hs[i];
      match GridTiles(init, pal, kind)
      case Err(e) => Err(e)
      case Ok(ts) =>
        match GridTile(hs[|hs| - 1], pal, kind)
        case Err(e) => Err(e)
        case Ok(t) => Ok(ts + [t])
  }

  /** The first failing height decides the error. */
  lemma GridTilesFirstError(hs: seq<int>, k: int, pal: Palette, kind: GridLayerKind)
    requires 0 <= k < |hs| && GridTiles(hs[..k], pal, kind).Ok? && GridTile(hs[k], pal, kind).Err?
    ensures GridTiles(hs, pal, kind) == Err(GridTile(hs[k], pal, kind).error)
  {
    assert forall j :: 0 <= j < k ==> hs[..k][j] == hs[j];
  }

  /** Every tile of a well-formed palette's layer can be packed. */
  lemma GridTileOk(h: int, pal: Palette, kind: GridLayerKind)
    requires WellFormed(pal) && GridTile(h, pal, kind).Ok?
    ensures TileOk(GridTile(h, pal, kind).value)
  {
    if kind != GlyphOnBlack {
      EntryForHeightIndex(pal, h);
    }
  }

  lemma TakeOneMore<T>(s: seq<T>, k: int)
    requires 0 <= k < |s|
    ensures s[..k + 1] == s[..k] + [s[k]]
  {
  }

  /** The first `pos` heights of `hs` have been written as the tiles `done`, whose bytes are `out`. */
  predicate Streamed(hs: seq<int>, pos: int, pal: Palette, kind: GridLayerKind, done: seq<XTile>, out: seq<Byte>)
  {
    0 <= pos <= |hs| && GridTiles(hs[..pos], pal, kind) == Ok(done) &&
    (forall i :: 0 <= i < |done| ==> TileOk(done[i])) && out == TilesBytes(done)
  }

  lemma StreamedStep(hs: seq<int>, pos: int, pal: Palette, kind: GridLayerKind, done: seq<XTile>, out: seq<Byte>,
                     t: XTile)
    requires WellFormed(pal) && Streamed(hs, pos, pal, kind, done, out)
    requires pos < |hs| && GridTile(hs[pos], pal, kind) == Ok(t)
    ensures TileOk(t) && Streamed(hs, pos + 1, pal, kind, done + [t], out + TileBytes(t))
  {
    GridTileOk(hs[pos], pal, kind);
    TakeOneMore(hs, pos);
    TilesBytesAppend(done, t);
  }

  /** Cell `(y, x)` continues the stream, or is the first tile that fails. */
  lemma EmitCell(g: Grid, n: int, pal: Palette, kind: GridLayerKind, y: int, x: int, done: seq<XTile>, out: seq<Byte>)
    requires IsSquare(g, n) && WellFormed(pal) && 0 <= y < n && 0 <= x < n
    requires Streamed(ColumnMajor(g, n), XpPos(y, x, n), pal, kind, done, out)
    ensures var t := GridTile(g[y][x], pal, kind);
      if t.Err? then GridTiles(ColumnMajor(g, n), pal, kind) == Err(t.error)
      else Streamed(ColumnMajor(g, n), XpPos(y + 1, x, n), pal, kind, done + [t.value], out + TileBytes(t.value))
  {
    var hs := ColumnMajor(g, n);
    ColumnMajorAt(g, n, y, x);
    var t := GridTile(g[y][x], pal, kind);
    if t.Err? {
      GridTilesFirstError(hs, XpPos(y, x, n), pal, kind);
    } else {
      StreamedStep(hs, XpPos(y, x, n), pal, kind, done, out, t.value);
      assert XpPos(y, x, n) + 1 == XpPos(y + 1, x, n);
    }
  }

  /** The inner `for y` loop of `save_to_xp`: the tiles of column `x`. */
  method EmitColumn(g: Grid, n: int, pal: Palette, kind: GridLayerKind, x: int,
                    ghost done0: seq<XTile>, out0: seq<Byte>)
    returns (r: Result<seq<Byte>, PyError>, ghost done: seq<XTile>)
    requires IsSquare(g, n) && WellFormed(pal) && 0 <= x < n
    requires Streamed(ColumnMajor(g, n), XpPos(0, x, n), pal, kind, done0, out0)
    ensures r.Ok? ==> Streamed(ColumnMajor(g, n), XpPos(0, x + 1, n), pal, kind, done, r.value)
    ensures r.Err? ==> GridTiles(ColumnMajor(g, n), pal, kind) == Err(r.error)
  {
    var out := out0;
    done := done0;
    var y := 0;
    while y < n
      invariant 0 <= y <= n && Streamed(ColumnMajor(g, n), XpPos(y, x, n), pal, kind, done, out)
    {
      EmitCell(g, n, pal, kind, y, x, done, out);
      var t := GridTile(g[y][x], pal, kind);
      if t.Err? {
        return Err(t.error), done;
      }
      out := out + TileBytes(t.value);
      done := done + [t.value];
      y := y + 1;
    }
    MulSucc(x, n);
    assert XpPos(y, x, n) == XpPos(0, x + 1, n);
    return Ok(out), done;
  }

  /** The nested loops of `save_to_xp` that stream one map layer. */
  method EmitGridLayer(g: Grid, n: int, pal: Palette, kind: GridLayerKind) returns (r: Result<seq<Byte>, PyError>)
    requires IsSquare(g, n) && WellFormed(pal)
    ensures match GridTiles(ColumnMajor(g, n), pal, kind)
      case Ok(ts) => (forall i :: 0 <= i < |ts| ==> TileOk(ts[i])) && r == Ok(TilesBytes(ts))
      case Err(e) => r == Err(e)
  {
    ghost var hs := ColumnMajor(g, n);
    ColumnsLength(g, n, 0);
    var out: seq<Byte> := [];
    ghost var done: seq<XTile> := [];
    var x := 0;
    while x < n
      invariant 0 <= x <= n && Streamed(hs, XpPos(0, x, n), pal, kind, done, out)
    {
      var col;
      col, done := EmitColumn(g, n, pal, kind, x, done, out);
      if col.Err? {
        return Err(col.error);
      }
      out := col.value;
      x := x + 1;
    }
    assert hs[..XpPos(0, x, n)] == hs;
    return Ok(out);
  }

  // ---------------------------------------------------------------------
  // Writing text over the legend layer.
  // ---------------------------------------------------------------------

  /** The index of the `i`-th character of a text written from column `sx`, row `sy`. */
  function TextPos(height: int, sx: int, sy: int, i: int): int
  {
    XpPos(sy, sx + i, height)
  }

  lemma TextPosMonotone(height: int, sx: int, sy: int, i: int, j: int)
    requires 1 <= height && i < j
    ensures TextPos(height, sx, sy, i) < TextPos(height, sx, sy, j)
  {
    assert (sx + j) * height - (sx + i) * height == (j - i) * height;
  }

  /** Every character of a `len`-character text from `(sx, sy)` lands inside a list of `count` tiles. */
  predicate CharsFit(count: int, height: int, sx: int, sy: int, len: int)
  {
    1 <= height && 0 <= sx && 0 <= sy && 0 <= len &&
    (len == 0 || TextPos(height, sx, sy, len - 1) < count)
  }

  /** Once the first character is written the rest still fits. */
  lemma CharsFitRest(count: int, height: int, x: int, sy: int, len: int)
    requires CharsFit(count, height, x, sy, len) && len >= 1
    ensures TextPos(height, x, sy, 0) < count && CharsFit(count, height, x + 1, sy, len - 1)
  {
    if len > 1 {
      TextPosMonotone(height, x, sy, 0, len - 1);
      assert TextPos(height, x + 1, sy, len - 2) == TextPos(height, x, sy, len - 1);
    }
  }

  /** `text_to_tiles` reads the start tile and writes one tile per character
      without an `IndexError`. */
  predicate TextFits(count: int, height: int, sx: int, sy: int, len: int)
  {
    CharsFit(count, height, sx, sy, len) && TextPos(height, sx, sy, 0) < count
  }

  /** The tiles after writing `text` from column `x` on, each character a copy
      of `base` with that character as its glyph. */
  function WriteText(t: seq<XTile>, base: XTile, height: int, x: int, sy: int, text: string): (r: seq<XTile>)
    requires CharsFit(|t|, height, x, sy, |text|)
    ensures |r| == |t|
    decreases |text|
  {
    if |text| == 0 then t
    else
      CharsFitRest(|t|, height, x, sy, |text|);
      WriteText(t[TextPos(height, x, sy, 0) := base.(code := text[0] as int)], base, height, x + 1, sy, text[1..])
  }

  /** `text_to_tiles(sx, sy, layer, text)` on the tile list `t`. */
  function OverlayText(t: seq<XTile>, height: int, sx: int, sy: int, text: string): (r: seq<XTile>)
    requires TextFits(|t|, height, sx, sy, |text|)
    ensures |r| == |t|
  {
    WriteText(t, t[TextPos(height, sx, sy, 0)], height, sx, sy, text)
  }

  /** `k` is the index of one of the `len` characters. */
  ghost predicate IsTextPos(height: int, sx: int, sy: int, len: int, k: int)
  {
    exists i :: 0 <= i < len && TextPos(height, sx, sy, i) == k
  }

  /** Writing from column `x` on leaves the tiles before the first character alone. */
  lemma {:induction false} WriteTextBelow(t: seq<XTile>, base: XTile, height: int, x: int, sy: int,
                                          text: string, k: int)
    requires CharsFit(|t|, height, x, sy, |text|) && 0 <= k < TextPos(height, x, sy, 0) && k < |t|
    ensures WriteText(t, base, height, x, sy, text)[k] == t[k]
    decreases |text|
  {
    if |text| > 0 {
      CharsFitRest(|t|, height, x, sy, |text|);
      TextPosMonotone(height, x, sy, 0, 1);
      assert TextPos(height, x + 1, sy, 0) == TextPos(height, x, sy, 1);
      WriteTextBelow(t[TextPos(height, x, sy, 0) := base.(code := text[0] as int)], base, height, x + 1, sy,
                     text[1..], k);
    }
  }

  /** Character `i` ends up at its position. */
  lemma {:induction false} WriteTextHit(t: seq<XTile>, base: XTile, height: int, x: int, sy: int,
                                        text: string, i: int)
    requires CharsFit(|t|, height, x, sy, |text|) && 0 <= i < |text|
    ensures TextPos(height, x, sy, i) < |t|
    ensures WriteText(t, base, height, x, sy, text)[TextPos(height, x, sy, i)] == base.(code := text[i] as int)
    decreases |text|
  {
    CharsFitRest(|t|, height, x, sy, |text|);
    var p0 := TextPos(height, x, sy, 0);
    var t' := t[p0 := base.(code := text[0] as int)];
    if i == 0 {
      TextPosMonotone(height, x, sy, 0, 1);
      assert TextPos(height, x + 1, sy, 0) == TextPos(height, x, sy, 1);
      WriteTextBelow(t', base, height, x + 1, sy, text[1..], p0);
    } else {
      WriteTextHit(t', base, height, x + 1, sy, text[1..], i - 1);
      assert TextPos(height, x + 1, sy, i - 1) == TextPos(height, x, sy, i);
      assert text[1..][i - 1] == text[i];
    }
  }

  /** A tile that no character is written to keeps its value. */
  lemma {:induction false} WriteTextMiss(t: seq<XTile>, base: XTile, height: int, x: int, sy: int,
                                         text: string, k: int)
    requires CharsFit(|t|, height, x, sy, |text|) && 0 <= k < |t| && !IsTextPos(height, x, sy, |text|, k)
    ensures WriteText(t, base, height, x, sy, text)[k] == t[k]
    decreases |text|
  {
    if |text| > 0 {
      CharsFitRest(|t|, height, x, sy, |text|);
      var p0 := TextPos(height, x, sy, 0);
      assert k != p0;
      var x1 := x + 1;
      forall i | 0 <= i < |text| - 1
        ensures TextPos(height, x1, sy, i) != k
      {
        assert TextPos(height, x1, sy, i) == TextPos(height, x, sy, i + 1);
      }
      WriteTextMiss(t[p0 := base.(code := text[0] as int)], base, height, x + 1, sy, text[1..], k);
    }
  }

  /** `text_to_tiles` puts character `i` at `xp_pos(sy, sx + i)` with the start
      tile's colours, and changes no other tile. */
  lemma OverlayTextSpec(t: seq<XTile>, height: int, sx: int, sy: int, text: string)
    requires TextFits(|t|, height, sx, sy, |text|)
    ensures var r, base := OverlayText(t, height, sx, sy, text), t[TextPos(height, sx, sy, 0)];
      (forall i :: 0 <= i < |text| ==>
         TextPos(height, sx, sy, i) < |t| && r[TextPos(height, sx, sy, i)] == base.(code := text[i] as int)) &&
      (forall k :: 0 <= k < |t| && !IsTextPos(height, sx, sy, |text|, k) ==> r[k] == t[k])
  {
    OverlayTextHits(t, height, sx, sy, text);
    OverlayTextKeeps(t, height, sx, sy, text);
  }

  /** Each character lands at its position with the start tile's colours. */
  lemma OverlayTextHits(t: seq<XTile>, height: int, sx: int, sy: int, text: string)
    requires TextFits(|t|, height, sx, sy, |text|)
    ensures var r, base := OverlayText(t, height, sx, sy, text), t[TextPos(height, sx, sy, 0)];
      forall i :: 0 <= i < |text| ==>
        TextPos(height, sx, sy, i) < |t| && r[TextPos(height, sx, sy, i)] == base.(code := text[i] as int)
  {
    var base := t[TextPos(height, sx, sy, 0)];
    forall i | 0 <= i < |text|
      ensures TextPos(height, sx, sy, i) < |t| &&
              WriteText(t, base, height, sx, sy, text)[TextPos(height, sx, sy, i)] == base.(code := text[i] as int)
    {
      WriteTextHit(t, base, height, sx, sy, text, i);
    }
  }

  /** Every other tile keeps its value. */
  lemma OverlayTextKeeps(t: seq<XTile>, height: int, sx: int, sy: int, text: string)
    requires TextFits(|t|, height, sx, sy, |text|)
    ensures var r := OverlayText(t, height, sx, sy, text);
      forall k :: 0 <= k < |t| && !IsTextPos(height, sx, sy, |text|, k) ==> r[k] == t[k]
  {
    var base := t[TextPos(height, sx, sy, 0)];
    forall k | 0 <= k < |t| && !IsTextPos(height, sx, sy, |text|, k)
      ensures WriteText(t, base, height, sx, sy, text)[k] == t[k]
    {
      WriteTextMiss(t, base, height, sx, sy, text, k);
    }
  }

  /** `text_to_tiles`: the `for i, c in enumerate(text)` loop over the layer's tile list. */
  method TextToTiles(tiles: array<XTile>, height: int, sx: int, sy: int, text: string)
    requires TextFits(tiles.Length, height, sx, sy, |text|)
    modifies tiles
    ensures tiles[..] == OverlayText(old(tiles[..]), height, sx, sy, text)
  {
    var tile := tiles[XpPos(sy, sx, height)];
    var i := 0;
    while i < |text|
      invariant 0 <= i <= |text| && CharsFit(tiles.Length, height, sx + i, sy, |text| - i)
      invariant WriteText(tiles[..], tile, height, sx + i, sy, text[i..]) ==
                OverlayText(old(tiles[..]), height, sx, sy, text)
    {
      CharsFitRest(tiles.Length, height, sx + i, sy, |text| - i);
      assert text[i..][1..] == text[i + 1..];
      tiles[XpPos(sy, sx + i, height)] := tile.(code := text[i] as int);
      i := i + 1;
    }
  }

  /** Writing text keeps every tile packable: glyphs become code points, colours stay. */
  lemma {:induction false} WriteTextOk(t: seq<XTile>, base: XTile, height: int, x: int, sy: int, text: string)
    requires CharsFit(|t|, height, x, sy, |text|) && TileOk(base)
    requires forall k :: 0 <= k < |t| ==> TileOk(t[k])
    ensures forall k :: 0 <= k < |t| ==> TileOk(WriteText(t, base, height, x, sy, text)[k])
    decreases |text|
  {
    if |text| > 0 {
      CharsFitRest(|t|, height, x, sy, |text|);
      WriteTextOk(t[TextPos(height, x, sy, 0) := base.(code := text[0] as int)], base, height, x + 1, sy, text[1..]);
    }
  }

  /** One `text_to_tiles(start_x, start_y, layer, text)` call. */
  datatype TextWrite = TextWrite(col: int, row: int, text: string)

  predicate WritesOk(ws: seq<TextWrite>)
  {
    forall i :: 0 <= i < |ws| ==> 0 <= ws[i].col && 0 <= ws[i].row
  }

  /** The tile list of a layer `height` rows high: a layer of height 0 has no tiles. */
  predicate TileListShape(count: int, height: int)
  {
    height >= 1 || count == 0
  }

  /** The texts written one after the other, or `IndexError` at the first
      that does not fit. */
  function OverlayAll(t: seq<XTile>, height: int, ws: seq<TextWrite>): (r: Result<seq<XTile>, PyError>)
    requires TileListShape(|t|, height) && WritesOk(ws)
    decreases |ws|
  {
    if |ws| == 0 then Ok(t)
    else if !TextFits(|t|, height, ws[0].col, ws[0].row, |ws[0].text|) then Err(IndexError)
    else OverlayAll(OverlayText(t, height, ws[0].col, ws[0].row, ws[0].text), height, ws[1..])
  }

  /** The overlay keeps the layer's shape and every tile packable. */
  lemma {:induction false} OverlayAllOk(t: seq<XTile>, height: int, ws: seq<TextWrite>)
    requires TileListShape(|t|, height) && WritesOk(ws)
    requires forall k :: 0 <= k < |t| ==> TileOk(t[k])
    ensures var r := OverlayAll(t, height, ws);
      r.Ok? ==> |r.value| == |t| && forall k :: 0 <= k < |t| ==> TileOk(r.value[k])
    decreases |ws|
  {
    if |ws| > 0 && TextFits(|t|, height, ws[0].col, ws[0].row, |ws[0].text|) {
      var w := ws[0];
      WriteTextOk(t, t[TextPos(height, w.col, w.row, 0)], height, w.col, w.row, w.text);
      OverlayAllOk(OverlayText(t, height, w.col, w.row, w.text), height, ws[1..]);
    }
  }

  /** Tiles in distinct rows, or in distinct columns, have distinct indices. */
  lemma XpPosInjective(x1: int, y1: int, x2: int, y2: int, height: int)
    requires 0 <= x1 < height && 0 <= x2 < height && 0 <= y1 && 0 <= y2
    ensures (x1 != x2 || y1 != y2) ==> XpPos(x1, y1, height) != XpPos(x2, y2, height)
  {
    XpPosInverse(x1, y1, height);
    XpPosInverse(x2, y2, height);
  }

  /** No tile is written by two of the texts. */
  ghost predicate WritesDisjoint(height: int, ws: seq<TextWrite>)
  {
    forall j1, i1, j2, i2 :: 0 <= j1 < j2 < |ws| && 0 <= i1 < |ws[j1].text| && 0 <= i2 < |ws[j2].text| ==>
      TextPos(height, ws[j1].col, ws[j1].row, i1) != TextPos(height, ws[j2].col, ws[j2].row, i2)
  }

  /** A tile none of the texts covers keeps its value through the whole overlay. */
  lemma {:induction false} OverlayAllKeeps(t: seq<XTile>, height: int, ws: seq<TextWrite>, k: int)
    requires TileListShape(|t|, height) && WritesOk(ws)
    requires OverlayAll(t, height, ws).Ok? && 0 <= k < |t|
    requires forall j, i :: 0 <= j < |ws| && 0 <= i < |ws[j].text| ==> TextPos(height, ws[j].col, ws[j].row, i) != k
    ensures |OverlayAll(t, height, ws).value| == |t| && OverlayAll(t, height, ws).value[k] == t[k]
    decreases |ws|
  {
    if |ws| > 0 {
      var w := ws[0];
      var t1 := OverlayText(t, height, w.col, w.row, w.text);
      OverlayTextKeeps(t, height, w.col, w.row, w.text);
      assert forall i :: 0 <= i < |w.text| ==> TextPos(height, w.col, w.row, i) != k;
      assert forall j :: 0 <= j < |ws[1..]| ==> ws[1..][j] == ws[j + 1];
      OverlayAllKeeps(t1, height, ws[1..], k);
    }
  }

  /** Dropping the first text keeps the texts disjoint. */
  lemma DisjointTail(height: int, ws: seq<TextWrite>)
    requires |ws| > 0 && WritesDisjoint(height, ws)
    ensures WritesDisjoint(height, ws[1..])
  {
    forall j1, i1, j2, i2 | 0 <= j1 < j2 < |ws[1..]| && 0 <= i1 < |ws[1..][j1].text| && 0 <= i2 < |ws[1..][j2].text|
      ensures TextPos(height, ws[1..][j1].col, ws[1..][j1].row, i1) != TextPos(height, ws[1..][j2].col, ws[1..][j2].row, i2)
    {
      assert ws[1..][j1] == ws[j1 + 1] && ws[1..][j2] == ws[j2 + 1];
    }
  }

  /** A tile of the first text is covered by none of the later ones. */
  lemma DisjointFromFirst(height: int, ws: seq<TextWrite>, i: int)
    requires |ws| > 0 && WritesDisjoint(height, ws) && 0 <= i < |ws[0].text|
    ensures forall j, ii :: 0 <= j < |ws[1..]| && 0 <= ii < |ws[1..][j].text| ==>
      TextPos(height, ws[1..][j].col, ws[1..][j].row, ii) != TextPos(height, ws[0].col, ws[0].row, i)
  {
    forall j, ii | 0 <= j < |ws[1..]| && 0 <= ii < |ws[1..][j].text|
      ensures TextPos(height, ws[1..][j].col, ws[1..][j].row, ii) != TextPos(height, ws[0].col, ws[0].row, i)
    {
      assert ws[1..][j] == ws[j + 1];
    }
  }

  /** The start tile of a later text is not covered by the first one. */
  lemma DisjointStart(height: int, ws: seq<TextWrite>, j: int)
    requires WritesDisjoint(height, ws) && 0 < j < |ws| && |ws[j].text| > 0
    ensures forall i :: 0 <= i < |ws[0].text| ==>
      TextPos(height, ws[0].col, ws[0].row, i) != TextPos(height, ws[j].col, ws[j].row, 0)
  {
  }

  /** A successful overlay is the first text written, then the rest. */
  lemma OverlayAllStep(t: seq<XTile>, height: int, ws: seq<TextWrite>)
    requires TileListShape(|t|, height) && WritesOk(ws) && |ws| > 0 && OverlayAll(t, height, ws).Ok?
    ensures TextFits(|t|, height, ws[0].col, ws[0].row, |ws[0].text|) && WritesOk(ws[1..])
    ensures var t1 := OverlayText(t, height, ws[0].col, ws[0].row, ws[0].text);
      TileListShape(|t1|, height) && OverlayAll(t1, height, ws[1..]) == OverlayAll(t, height, ws)
  {
    assert forall j :: 0 <= j < |ws[1..]| ==> ws[1..][j] == ws[j + 1];
  }

  /** The first text survives the later ones, which do not touch its tiles. */
  lemma OverlayAllHitsFirst(t: seq<XTile>, height: int, ws: seq<TextWrite>, i: int)
    requires TileListShape(|t|, height) && WritesOk(ws) && WritesDisjoint(height, ws)
    requires |ws| > 0 && OverlayAll(t, height, ws).Ok? && 0 <= i < |ws[0].text|
    ensures var w, r := ws[0], OverlayAll(t, height, ws).value;
      TextPos(height, w.col, w.row, 0) < |t| && 0 <= TextPos(height, w.col, w.row, i) < |r| &&
      r[TextPos(height, w.col, w.row, i)] == t[TextPos(height, w.col, w.row, 0)].(code := w.text[i] as int)
  {
    var w := ws[0];
    OverlayAllStep(t, height, ws);
    var t1 := OverlayText(t, height, w.col, w.row, w.text);
    var pos := TextPos(height, w.col, w.row, i);
    OverlayTextHits(t, height, w.col, w.row, w.text);
    XpPosNonNegative(w.row, w.col + i, height);
    DisjointFromFirst(height, ws, i);
    OverlayAllKeeps(t1, height, ws[1..], pos);
  }

  /** Writing the first text leaves the start tile of a later text alone. */
  lemma FirstKeepsLaterStart(t: seq<XTile>, height: int, ws: seq<TextWrite>, j: int)
    requires WritesDisjoint(height, ws) && 0 < j < |ws| && |ws[j].text| > 0
    requires TextFits(|t|, height, ws[0].col, ws[0].row, |ws[0].text|)
    requires 0 <= TextPos(height, ws[j].col, ws[j].row, 0) < |t|
    ensures OverlayText(t, height, ws[0].col, ws[0].row, ws[0].text)[TextPos(height, ws[j].col, ws[j].row, 0)] ==
            t[TextPos(height, ws[j].col, ws[j].row, 0)]
  {
    var w := ws[0];
    OverlayTextKeeps(t, height, w.col, w.row, w.text);
    DisjointStart(height, ws, j);
    assert !IsTextPos(height, w.col, w.row, |w.text|, TextPos(height, ws[j].col, ws[j].row, 0));
  }

  /** When no two texts share a tile, character `i` of text `j` ends up at its
      position with the colours its start tile had before any text was written. */
  lemma {:induction false} OverlayAllHits(t: seq<XTile>, height: int, ws: seq<TextWrite>, j: int, i: int)
    requires TileListShape(|t|, height) && WritesOk(ws) && WritesDisjoint(height, ws)
    requires OverlayAll(t, height, ws).Ok? && 0 <= j < |ws| && 0 <= i < |ws[j].text|
    ensures var w, r := ws[j], OverlayAll(t, height, ws).value;
      TextPos(height, w.col, w.row, 0) < |t| && 0 <= TextPos(height, w.col, w.row, i) < |r| &&
      r[TextPos(height, w.col, w.row, i)] == t[TextPos(height, w.col, w.row, 0)].(code := w.text[i] as int)
    decreases |ws|
  {
    if j == 0 {
      OverlayAllHitsFirst(t, height, ws, i);
    } else {
      var w, v := ws[0], ws[j];
      OverlayAllStep(t, height, ws);
      var t1 := OverlayText(t, height, w.col, w.row, w.text);
      assert ws[1..][j - 1] == v;
      DisjointTail(height, ws);
      OverlayAllHits(t1, height, ws[1..], j - 1, i);
      XpPosNonNegative(v.row, v.col, height);
      FirstKeepsLaterStart(t, height, ws, j);
    }
  }

  /** The loop of `save_to_xp` that writes the legend texts over the copied layer. */
  method OverlayLoop(tiles: array<XTile>, height: int, ws: seq<TextWrite>) returns (err: Option<PyError>)
    requires TileListShape(tiles.Length, height) && WritesOk(ws)
    modifies tiles
    ensures match OverlayAll(old(tiles[..]), height, ws)
      case Ok(t) => err == None && tiles[..] == t
      case Err(e) => err == Some(e)
  {
    var j := 0;
    while j < |ws|
      invariant 0 <= j <= |ws|
      invariant OverlayAll(tiles[..], height, ws[j..]) == OverlayAll(old(tiles[..]), height, ws)
    {
      assert ws[j..][1..] == ws[j + 1..];
      var w := ws[j];
      if !TextFits(tiles.Length, height, w.col, w.row, |w.text|) {
        return Some(IndexError);
      }
      TextToTiles(tiles, height, w.col, w.row, w.text);
      j := j + 1;
    }
    return None;
  }

  // ---------------------------------------------------------------------
  // Loading a layer back.
  // ---------------------------------------------------------------------

  /** Glyph codes below 128, where cp437 decoding is the identity. */
  predicate AsciiGlyphs(l: XLayer)
  {
    forall i :: 0 <= i < |l.tiles| ==> 0 <= l.tiles[i].code < 128
  }

  /** `ord(char) - ord(FIRST_MAP_CHAR) + 1` for the tile's glyph with NULs
      removed: a NUL leaves the empty string, on which `ord` raises `TypeError`. */
  function GlyphHeight(code: int): Result<int, PyError>
    requires 0 <= code < 128
  {
    if code == 0 then Err(TypeError) else Ok(code - FirstMapCode + 1)
  }

  /** Reading a glyph gives back the height it was written for. */
  lemma GlyphHeightOfCode(h: int)
    requires 0 < GlyphCode(h) < 128
    ensures GlyphHeight(GlyphCode(h)) == Ok(h)
  {
  }

  /** Cell `j` of row `i` of the loaded map: the tile at `xp_pos(i, j, layer)`. */
  function DecodeCell(l: XLayer, i: int, j: int): Result<int, PyError>
    requires LayerOk(l) && AsciiGlyphs(l) && 0 <= i && 0 <= j
  {
    XpPosNonNegative(i, j, l.height);
    var k := XpPos(i, j, l.height);
    if k >= |l.tiles| then Err(IndexError) else GlyphHeight(l.tiles[k].code)
  }

  /** The first `m` cells of row `i`, or the error of the first that fails. */
  function DecodeRow(l: XLayer, i: int, m: int): (r: Result<seq<int>, PyError>)
    requires LayerOk(l) && AsciiGlyphs(l) && 0 <= i && 0 <= m
    ensures r.Ok? ==> |r.value| == m && forall j :: 0 <= j < m ==> DecodeCell(l, i, j) == Ok(r.value[j])
    ensures r.Err? ==> exists j :: 0 <= j < m && DecodeCell(l, i, j) == Err(r.error)
    decreases m
  {
    if m == 0 then Ok([])
    else match DecodeRow(l, i, m - 1)
      case Err(e) => Err(e)
      case Ok(row) =>
        match DecodeCell(l, i, m - 1)
        case Err(e) => Err(e)
        case Ok(v) => Ok(row + [v])
  }

  /** The rows `load_from_xp` appends for rows `0 .. m-1`: those decoded
      before the first row that fails, and that row's error. */
  function DecodeRows(l: XLayer, m: int): (r: (seq<seq<int>>, Option<PyError>))
    requires LayerOk(l) && AsciiGlyphs(l) && 0 <= m
    ensures |r.0| <= m && (r.1.None? ==> |r.0| == m)
    ensures forall i :: 0 <= i < |r.0| ==> DecodeRow(l, i, l.height) == Ok(r.0[i])
    decreases m
  {
    if m == 0 then ([], None)
    else
      var prev := DecodeRows(l, m - 1);
      if prev.1.Some? then prev
      else match DecodeRow(l, m - 1, l.height)
        case Ok(row) => (prev.0 + [row], None)
        case Err(e) => (prev.0, Some(e))
  }

  lemma {:induction false} DecodeRowStops(l: XLayer, i: int, j: int, m: int)
    requires LayerOk(l) && AsciiGlyphs(l) && 0 <= i && 0 <= j < m
    requires DecodeRow(l, i, j).Ok? && DecodeCell(l, i, j).Err?
    ensures DecodeRow(l, i, m) == Err(DecodeCell(l, i, j).error)
    decreases m
  {
    if m > j + 1 {
      DecodeRowStops(l, i, j, m - 1);
    }
  }

  lemma {:induction false} DecodeRowsStop(l: XLayer, i: int, m: int, rows: seq<seq<int>>, e: PyError)
    requires LayerOk(l) && AsciiGlyphs(l) && 0 <= i < m
    requires DecodeRows(l, i) == (rows, None) && DecodeRow(l, i, l.height) == Err(e)
    ensures DecodeRows(l, m) == (rows, Some(e))
    decreases m
  {
    if m > i + 1 {
      DecodeRowsStop(l, i, m - 1, rows, e);
    }
  }

  lemma DecodeRowStep(l: XLayer, i: int, j: int, row: seq<int>)
    requires LayerOk(l) && AsciiGlyphs(l) && 0 <= i && 0 <= j
    requires DecodeRow(l, i, j) == Ok(row) && DecodeCell(l, i, j).Ok?
    ensures DecodeRow(l, i, j + 1) == Ok(row + [DecodeCell(l, i, j).value])
  {
  }

  /** The inner `for j` loop of `load_from_xp`: one row of the loaded map. */
  method LoadRow(l: XLayer, i: int) returns (r: Result<seq<int>, PyError>)
    requires LayerOk(l) && AsciiGlyphs(l) && 0 <= i
    ensures r == DecodeRow(l, i, l.height)
  {
    var row: seq<int> := [];
    var j := 0;
    while j < l.height
      invariant 0 <= j <= l.height && DecodeRow(l, i, j) == Ok(row)
    {
      XpPosNonNegative(i, j, l.height);
      var k := XpPos(i, j, l.height);
      var v := if k >= |l.tiles| then Err(IndexError) else GlyphHeight(l.tiles[k].code);
      assert v == DecodeCell(l, i, j);
      if v.Err? {
        DecodeRowStops(l, i, j, l.height);
        return Err(v.error);
      }
      DecodeRowStep(l, i, j, row);
      row := row + [v.value];
      j := j + 1;
    }
    return Ok(row);
  }

  /** The outer `for i` loop of `load_from_xp`. On an error the rows appended
      so far stay, as they do in `self.height_map`. */
  method LoadRows(l: XLayer) returns (rows: seq<seq<int>>, err: Option<PyError>)
    requires LayerOk(l) && AsciiGlyphs(l)
    ensures (rows, err) == DecodeRows(l, l.width)
  {
    rows := [];
    var i := 0;
    while i < l.width
      invariant 0 <= i <= l.width && DecodeRows(l, i) == (rows, None)
    {
      var row := LoadRow(l, i);
      if row.Err? {
        DecodeRowsStop(l, i, l.width, rows, row.error);
        return rows, Some(row.error);
      }
      rows := rows + [row.value];
      i := i + 1;
    }
    return rows, None;
  }

  /** A layer whose every cell decodes to `want[i][j]` loads as `want`. */
  lemma DecodeRowsOf(l: XLayer, n: int, want: Grid)
    requires LayerOk(l) && AsciiGlyphs(l) && l.height == n && IsSquare(want, n)
    requires forall i, j :: 0 <= i < n && 0 <= j < n ==> DecodeCell(l, i, j) == Ok(want[i][j])
    ensures DecodeRows(l, n) == (want, None)
  {
    forall i, m | 0 <= i < n && 0 <= m <= n
      ensures DecodeRow(l, i, m) == Ok(want[i][..m])
    {
      DecodeRowPrefix(l, n, want, i, m);
    }
    DecodeRowsPrefix(l, n, want, n);
    assert want[..n] == want;
  }

  lemma {:induction false} DecodeRowPrefix(l: XLayer, n: int, want: Grid, i: int, m: int)
    requires LayerOk(l) && AsciiGlyphs(l) && l.height == n && IsSquare(want, n) && 0 <= i < n && 0 <= m <= n
    requires forall i, j :: 0 <= i < n && 0 <= j < n ==> DecodeCell(l, i, j) == Ok(want[i][j])
    ensures DecodeRow(l, i, m) == Ok(want[i][..m])
    decreases m
  {
    if m > 0 {
      DecodeRowPrefix(l, n, want, i, m - 1);
      TakeOneMore(want[i], m - 1);
    }
  }

  lemma {:induction false} DecodeRowsPrefix(l: XLayer, n: int, want: Grid, m: int)
    requires LayerOk(l) && AsciiGlyphs(l) && l.height == n && IsSquare(want, n) && 0 <= m <= n
    requires forall i :: 0 <= i < n ==> DecodeRow(l, i, n) == Ok(want[i][..n])
    ensures DecodeRows(l, m) == (want[..m], None)
    decreases m
  {
    if m > 0 {
      DecodeRowsPrefix(l, n, want, m - 1);
      assert want[m - 1][..n] == want[m - 1];
      TakeOneMore(want, m - 1);
    }
  }

  /** Every height has a glyph code in `1 .. 127`. */
  predicate AsciiHeights(g: Grid, n: int)
    requires IsSquare(g, n)
  {
    forall y, x :: 0 <= y < n && 0 <= x < n ==> 0 < GlyphCode(g[y][x]) < 128
  }

  /** The layer of a map, as `save_to_xp` writes it. */
  function GridLayer(g: Grid, n: int, pal: Palette, kind: GridLayerKind): Result<XLayer, PyError>
    requires IsSquare(g, n)
  {
    match GridTiles(ColumnMajor(g, n), pal, kind)
    case Ok(ts) => Ok(XLayer(n, n, ts))
    case Err(e) => Err(e)
  }

  lemma GridLayerOk(g: Grid, n: int, pal: Palette, kind: GridLayerKind)
    requires IsSquare(g, n) && IsInt32(n) && WellFormed(pal) && GridLayer(g, n, pal, kind).Ok?
    ensures LayerOk(GridLayer(g, n, pal, kind).value)
  {
    var ts := GridTiles(ColumnMajor(g, n), pal, kind).value;
    ColumnsLength(g, n, 0);
    forall k | 0 <= k < |ts|
      ensures TileOk(ts[k])
    {
      GridTileOk(ColumnMajor(g, n)[k], pal, kind);
    }
  }

  /** Every tile of the column-major list is the cell of some row and column. */
  lemma ColumnMajorCell(g: Grid, n: int, k: int) returns (y: int, x: int)
    requires IsSquare(g, n) && 0 <= k < |ColumnMajor(g, n)|
    ensures 0 <= y < n && 0 <= x < n && k == XpPos(y, x, n) && ColumnMajor(g, n)[k] == g[y][x]
  {
    ColumnsLength(g, n, 0);
    SplitIndex(k, n);
    y, x := k % n, k / n;
    ColumnMajorAt(g, n, y, x);
  }

  /** A layer of glyphs written by `save_to_xp` loads back as the map it was
      written from. */
  lemma GlyphLayerLoads(g: Grid, n: int, pal: Palette, kind: GridLayerKind)
    requires IsSquare(g, n) && IsInt32(n) && WellFormed(pal) && AsciiHeights(g, n)
    requires kind != SpaceOnBg && GridLayer(g, n, pal, kind).Ok?
    ensures var l := GridLayer(g, n, pal, kind).value;
      LayerOk(l) && AsciiGlyphs(l) && DecodeRows(l, n) == (g, None)
  {
    var l := GridLayer(g, n, pal, kind).value;
    GridLayerOk(g, n, pal, kind);
    var hs := ColumnMajor(g, n);
    forall k | 0 <= k < |l.tiles|
      ensures l.tiles[k].code == GlyphCode(hs[k]) && 0 < l.tiles[k].code < 128
    {
      assert GridTile(hs[k], pal, kind) == Ok(l.tiles[k]);
      var y, x := ColumnMajorCell(g, n, k);
    }
    assert AsciiGlyphs(l);
    forall i, j | 0 <= i < n && 0 <= j < n
      ensures DecodeCell(l, i, j) == Ok(g[i][j])
    {
      ColumnMajorAt(g, n, i, j);
    }
    DecodeRowsOf(l, n, g);
  }

  /** `diamond_square.py` writes blank glyphs into its map layer, so loading
      that layer gives `ord(" ") - ord("A") + 1 = -32` in every cell. */
  lemma SpaceLayerLoads(g: Grid, n: int, pal: Palette)
    requires IsSquare(g, n) && IsInt32(n) && WellFormed(pal) && GridLayer(g, n, pal, SpaceOnBg).Ok?
    ensures var l := GridLayer(g, n, pal, SpaceOnBg).value;
      LayerOk(l) && AsciiGlyphs(l) && DecodeRows(l, n) == (Blank(n, -32), None)
  {
    var l := GridLayer(g, n, pal, SpaceOnBg).value;
    GridLayerOk(g, n, pal, SpaceOnBg);
    var hs := ColumnMajor(g, n);
    ColumnsLength(g, n, 0);
    forall k | 0 <= k < |l.tiles|
      ensures l.tiles[k].code == SpaceCode
    {
      assert GridTile(hs[k], pal, SpaceOnBg) == Ok(l.tiles[k]);
    }
    forall i, j | 0 <= i < n && 0 <= j < n
      ensures DecodeCell(l, i, j) == Ok(Blank(n, -32)[i][j])
    {
      XpPosInRange(i, j, n, n);
    }
    DecodeRowsOf(l, n, Blank(n, -32));
  }
}
