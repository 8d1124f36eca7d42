/** The `DiamondSquare` class of `src/tui_map_generator/diamond_square.py`,
    the copy the command line uses. The class's fields are the object's
    attributes; every method assigns what the source's method assigns and
    states the new values. The seeded random generator, the legend template
    that `load_legend_from_xp` reads and the layers `pyrexpaint.load`
    returns come in as values. */
module MapGenerator {
  import opened Wrappers
  import opened Errors
  import opened Palettes
  import opened Terrain
  import opened Independence
  import opened XpCodec
  import opened XpLayers
  import opened XpExport
  import opened TextFormats

  /** `random.seed(s)` followed by `random.randint` calls: `rng(s)` is the
      stream of draws after seeding with `s`. */
  type Seeded = int -> RandInt

  /** What `random.randint(a, b)` promises: a value in `[a, b]`. */
  ghost predicate DrawsInRange(rng: Seeded)
  {
    forall s: int, k: nat, a: int, b: int :: a <= b ==> a <= rng(s)(k, a, b) <= b
  }

  /** `ALGORITHM_NAME`. */
  const AlgorithmName := "diamond square"

  /** `XP_LEGEND_START_X`: the column legend values start in; labels start in column 0. */
  const LegendValueColumn := 17

  /** `XP_LEGEND_START_Y`: the row of the first legend entry. */
  const LegendFirstRow := 4

  /** `EXPORT_GLYPHS_LAYER`. */
  const ExportGlyphsLayer := false

  /** The map layers `save_to_xp` writes: the background layer, then the
      glyph layer only when `EXPORT_GLYPHS_LAYER` is set. */
  const MapKinds: seq<GridLayerKind> := [SpaceOnBg] + (if ExportGlyphsLayer then [GlyphOnBlack] else [])

  // ---------------------------------------------------------------------
  // The legend dictionary.
  // ---------------------------------------------------------------------

  /** `txt_legend_dict`: labels and the `str` of their values, in insertion order. */
  type Legend = seq<(string, string)>

  predicate HasLabel(d: Legend, key: string)
  {
    exists i :: 0 <= i < |d| && d[i].0 == key
  }

  /** `d[key]`, or `None` where Python raises `KeyError`. */
  function Lookup(d: Legend, key: string): (r: Option<string>)
    ensures r.Some? <==> HasLabel(d, key)
  {
    if |d| == 0 then None
    else if d[0].0 == key then Some(d[0].1)
    else
      assert forall i :: 0 <= i < |d[1..]| ==> d[1..][i] == d[i + 1];
      Lookup(d[1..], key)
  }

  /** `d[key] = value`: a key already present keeps its place and takes the
      new value, a new key goes at the end. */
  function SetEntry(d: Legend, key: string, value: string): (r: Legend)
    ensures HasLabel(d, key) ==> |r| == |d| && forall i :: 0 <= i < |d| ==> r[i].0 == d[i].0
    ensures !HasLabel(d, key) ==> r == d + [(key, value)]
  {
    if |d| == 0 then [(key, value)]
    else if d[0].0 == key then [(key, value)] + d[1..]
    else
      assert forall i :: 0 <= i < |d[1..]| ==> d[1..][i] == d[i + 1];
      [d[0]] + SetEntry(d[1..], key, value)
  }

  /** After `d[key] = value`, `d[key]` is `value` and every other key reads as before. */
  lemma {:induction false} SetEntryLookup(d: Legend, key: string, value: string)
    ensures Lookup(SetEntry(d, key, value), key) == Some(value)
    ensures forall k :: k != key ==> Lookup(SetEntry(d, key, value), k) == Lookup(d, k)
    decreases |d|
  {
    if |d| > 0 && d[0].0 != key {
      SetEntryLookup(d[1..], key, value);
      var r := SetEntry(d, key, value);
      assert r[1..] == SetEntry(d[1..], key, value);
    }
  }

  predicate DistinctLabels(d: Legend)
  {
    forall i, j :: 0 <= i < j < |d| ==> d[i].0 != d[j].0
  }

  /** Setting a key that first occurs at `i` replaces entry `i` and nothing else. */
  lemma {:induction false} SetEntryAt(d: Legend, i: int, value: string)
    requires 0 <= i < |d| && forall j :: 0 <= j < i ==> d[j].0 != d[i].0
    ensures SetEntry(d, d[i].0, value) == d[i := (d[i].0, value)]
    decreases i
  {
    if i > 0 {
      var t, e := d[1..], (d[i].0, value);
      assert t[i - 1] == d[i];
      SetEntryAt(t, i - 1, value);
      assert SetEntry(d, d[i].0, value) == [d[0]] + t[i - 1 := e];
      ConsUpdate(d, i, e);
    }
  }

  /** Updating the tail of a sequence is updating the sequence one place further on. */
  lemma ConsUpdate<T>(d: seq<T>, i: int, e: T)
    requires 0 < i < |d|
    ensures [d[0]] + d[1..][i - 1 := e] == d[i := e]
  {
  }

  /** The labels `generate_legend_dict` sets, in order. */
  const LegendLabels: seq<string> := ["Map size", "Algorithm", "Max height", "Roughness", "Random seed", "Palette"]

  /** The entries `generate_legend_dict` sets: `str` of map size, the
      algorithm's name, `str` of the largest height, the roughness as
      printed, `str` of the seed and the palette's name. */
  function LegendEntries(mapSize: int, heightMax: int, roughnessText: string, randomSeed: int,
                         palette: string): (r: Legend)
    ensures |r| == |LegendLabels| && forall i :: 0 <= i < |r| ==> r[i].0 == LegendLabels[i]
  {
    [("Map size", IntText(mapSize)), ("Algorithm", AlgorithmName), ("Max height", IntText(heightMax)),
     ("Roughness", roughnessText), ("Random seed", IntText(randomSeed)), ("Palette", palette)]
  }

  /** A dictionary with exactly the legend's labels, in order. */
  predicate LegendLaidOut(d: Legend)
  {
    |d| == |LegendLabels| && forall i :: 0 <= i < |d| ==> d[i].0 == LegendLabels[i]
  }

  lemma LegendLabelsDistinct()
    ensures forall i, j :: 0 <= i < j < |LegendLabels| ==> LegendLabels[i] != LegendLabels[j]
  {
    assert LegendLabels[0][2] != LegendLabels[2][2];
    assert LegendLabels[3][1] != LegendLabels[4][1];
  }

  /** The dictionary after `generate_legend_dict` has set the first `i` of
      the entries `es`, starting from `d0`: those entries, then, when `d0`
      was filled by an earlier call, `d0`'s remaining ones in place. */
  function LegendAfter(d0: Legend, es: Legend, i: int): Legend
    requires 0 <= i <= |es| && (d0 == [] || |d0| == |es|)
  {
    es[..i] + (if d0 == [] then [] else d0[i..])
  }

  /** Setting a label the dictionary lacks appends it. */
  lemma AppendLegendEntry(es: Legend, i: int)
    requires DistinctLabels(es) && 0 <= i < |es|
    ensures SetEntry(es[..i], es[i].0, es[i].1) == es[..i + 1]
  {
    var d := es[..i];
    assert !HasLabel(d, es[i].0) by {
      forall k | 0 <= k < |d|
        ensures d[k].0 != es[i].0
      {
        assert d[k] == es[k];
      }
    }
    assert es[..i + 1] == d + [es[i]];
  }

  /** Setting a label the dictionary holds at the same place replaces its value there. */
  lemma ReplaceLegendEntry(d0: Legend, es: Legend, i: int)
    requires DistinctLabels(es) && 0 <= i < |es|
    requires |d0| == |es| && forall j :: 0 <= j < |es| ==> d0[j].0 == es[j].0
    ensures SetEntry(es[..i] + d0[i..], es[i].0, es[i].1) == es[..i + 1] + d0[i + 1..]
  {
    var d := es[..i] + d0[i..];
    assert d[i] == d0[i];
    forall j | 0 <= j < i
      ensures d[j].0 != d[i].0
    {
      assert d[j] == es[j];
    }
    SetEntryAt(d, i, es[i].1);
    SpliceUpdate(es, d0, i);
  }

  /** Overwriting place `i` of `es[..i] + d0[i..]` with `es[i]` moves the seam one place on. */
  lemma SpliceUpdate<T>(es: seq<T>, d0: seq<T>, i: int)
    requires 0 <= i < |es| && |d0| == |es|
    ensures (es[..i] + d0[i..])[i := es[i]] == es[..i + 1] + d0[i + 1..]
  {
  }

  /** `es` has distinct labels, and `d0` is empty or holds the same labels in order. */
  predicate LegendSetup(d0: Legend, es: Legend)
  {
    DistinctLabels(es) && (d0 == [] || (|d0| == |es| && forall j :: 0 <= j < |es| ==> d0[j].0 == es[j].0))
  }

  /** One assignment `d[key] = value` of `generate_legend_dict`, entry `i`:
      on an empty dictionary it appends the entry, on one holding the same
      labels in the same order it replaces the value in place. */
  lemma SetLegendEntry(d0: Legend, es: Legend, i: int, key: string, value: string)
    requires LegendSetup(d0, es) && 0 <= i < |es| && es[i] == (key, value)
    ensures SetEntry(LegendAfter(d0, es, i), key, value) == LegendAfter(d0, es, i + 1)
  {
    if d0 == [] {
      AppendLegendEntry(es, i);
      assert LegendAfter(d0, es, i) == es[..i] && LegendAfter(d0, es, i + 1) == es[..i + 1];
    } else {
      ReplaceLegendEntry(d0, es, i);
    }
  }

  /** `generate_legend_dict`'s six assignments, on an empty dictionary or on
      one an earlier call filled, leave exactly the six entries with the new
      values: a second call updates in place and adds nothing. */
  lemma LegendDictSettles(d0: Legend, mapSize: int, heightMax: int, roughnessText: string,
                          randomSeed: int, palette: string)
    requires d0 == [] || LegendLaidOut(d0)
    ensures
      var d1 := SetEntry(d0, "Map size", IntText(mapSize));
      var d2 := SetEntry(d1, "Algorithm", AlgorithmName);
      var d3 := SetEntry(d2, "Max height", IntText(heightMax));
      var d4 := SetEntry(d3, "Roughness", roughnessText);
      var d5 := SetEntry(d4, "Random seed", IntText(randomSeed));
      SetEntry(d5, "Palette", palette) == LegendEntries(mapSize, heightMax, roughnessText, randomSeed, palette)
  {
    var es := LegendEntries(mapSize, heightMax, roughnessText, randomSeed, palette);
    LegendLabelsDistinct();
    SetSixEntries(d0, es);
  }

  /** Six assignments setting the entries of `es` in order. */
  lemma SetSixEntries(d0: Legend, es: Legend)
    requires LegendSetup(d0, es) && |es| == 6
    ensures
      var d1 := SetEntry(d0, es[0].0, es[0].1);
      var d2 := SetEntry(d1, es[1].0, es[1].1);
      var d3 := SetEntry(d2, es[2].0, es[2].1);
      var d4 := SetEntry(d3, es[3].0, es[3].1);
      var d5 := SetEntry(d4, es[4].0, es[4].1);
      SetEntry(d5, es[5].0, es[5].1) == es
  {
    assert d0 == LegendAfter(d0, es, 0);
    SetThreeEntries(d0, es, 0);
    SetThreeEntries(d0, es, 3);
    LegendAfterAll(d0, es);
  }

  /** Three assignments setting entries `i`, `i + 1` and `i + 2` of `es`. */
  lemma SetThreeEntries(d0: Legend, es: Legend, i: int)
    requires LegendSetup(d0, es) && 0 <= i && i + 3 <= |es|
    ensures
      var d1 := SetEntry(LegendAfter(d0, es, i), es[i].0, es[i].1);
      var d2 := SetEntry(d1, es[i + 1].0, es[i + 1].1);
      SetEntry(d2, es[i + 2].0, es[i + 2].1) == LegendAfter(d0, es, i + 3)
  {
    SetLegendEntry(d0, es, i, es[i].0, es[i].1);
    SetLegendEntry(d0, es, i + 1, es[i + 1].0, es[i + 1].1);
    SetLegendEntry(d0, es, i + 2, es[i + 2].0, es[i + 2].1);
  }

  lemma LegendAfterAll(d0: Legend, es: Legend)
    requires d0 == [] || |d0| == |es|
    ensures LegendAfter(d0, es, |es|) == es
  {
    assert es[..|es|] == es;
    if d0 != [] {
      assert d0[|es|..] == [];
    }
  }

  /** The texts `save_to_xp` writes for the legend: label `j` from column 0
      and its value from column 17, both on row `4 + j`, label first. */
  function LegendWrites(d: Legend): (ws: seq<TextWrite>)
    ensures |ws| == 2 * |d| && WritesOk(ws)
    ensures forall j :: 0 <= j < |d| ==>
      ws[2 * j] == TextWrite(0, LegendFirstRow + j, d[j].0) &&
      ws[2 * j + 1] == TextWrite(LegendValueColumn, LegendFirstRow + j, d[j].1)
  {
    if |d| == 0 then []
    else
      var k := |d| - 1;
      LegendWrites(d[..k]) + [TextWrite(0, LegendFirstRow + k, d[k].0), TextWrite(LegendValueColumn, LegendFirstRow + k, d[k].1)]
  }

  /** Every label is shorter than the column the values start in, so no label
      runs into its value. */
  lemma LegendLabelsFit(mapSize: int, heightMax: int, roughnessText: string, randomSeed: int, palette: string)
    ensures var d := LegendEntries(mapSize, heightMax, roughnessText, randomSeed, palette);
      forall k :: 0 <= k < |d| ==> |d[k].0| < LegendValueColumn
  {
  }

  /** The text `save_to_xp` writes `a`-th for the legend. */
  lemma {:induction false} LegendWriteAt(d: Legend, a: int)
    requires 0 <= a < 2 * |d|
    ensures var ws, j := LegendWrites(d), a / 2;
      0 <= j < |d| && ws[a] == if a % 2 == 0 then TextWrite(0, LegendFirstRow + j, d[j].0)
                               else TextWrite(LegendValueColumn, LegendFirstRow + j, d[j].1)
  {
    var j := a / 2;
    assert a == 2 * j || a == 2 * j + 1;
  }

  /** Labels and values on distinct rows, and each label short of column 17:
      no two of the legend's texts share a tile. */
  lemma {:induction false} LegendDisjoint(d: Legend, height: int)
    requires LegendFirstRow + |d| <= height
    requires forall k :: 0 <= k < |d| ==> |d[k].0| <= LegendValueColumn
    ensures WritesDisjoint(height, LegendWrites(d))
  {
    var ws := LegendWrites(d);
    forall a1, i1, a2, i2 | 0 <= a1 < a2 < |ws| && 0 <= i1 < |ws[a1].text| && 0 <= i2 < |ws[a2].text|
      ensures TextPos(height, ws[a1].col, ws[a1].row, i1) != TextPos(height, ws[a2].col, ws[a2].row, i2)
    {
      LegendWriteAt(d, a1);
      LegendWriteAt(d, a2);
      XpPosInjective(ws[a1].row, ws[a1].col + i1, ws[a2].row, ws[a2].col + i2, height);
    }
  }

  /** On a template with a row for every entry, character `i` of label `j`
      is written in column `i` of row `4 + j`, in the colours the template
      has in column 0 of that row. */
  lemma {:induction false} LegendLabelText(t: XLayer, d: Legend, j: int, i: int)
    requires TileListShape(|t.tiles|, t.height) && LegendFirstRow + |d| <= t.height
    requires forall k :: 0 <= k < |d| ==> |d[k].0| <= LegendValueColumn
    requires OverlayAll(t.tiles, t.height, LegendWrites(d)).Ok? && 0 <= j < |d| && 0 <= i < |d[j].0|
    ensures var r, row, h := OverlayAll(t.tiles, t.height, LegendWrites(d)).value, LegendFirstRow + j, t.height;
      XpPos(row, 0, h) < |t.tiles| && 0 <= XpPos(row, i, h) < |r| &&
      r[XpPos(row, i, h)] == t.tiles[XpPos(row, 0, h)].(code := d[j].0[i] as int)
  {
    var ws := LegendWrites(d);
    LegendDisjoint(d, t.height);
    LegendWriteAt(d, 2 * j);
    OverlayAllHits(t.tiles, t.height, ws, 2 * j, i);
  }

  /** Likewise character `i` of value `j` is written in column `17 + i` of
      row `4 + j`, in the colours the template has in column 17 of that row. */
  lemma {:induction false} LegendValueText(t: XLayer, d: Legend, j: int, i: int)
    requires TileListShape(|t.tiles|, t.height) && LegendFirstRow + |d| <= t.height
    requires forall k :: 0 <= k < |d| ==> |d[k].0| <= LegendValueColumn
    requires OverlayAll(t.tiles, t.height, LegendWrites(d)).Ok? && 0 <= j < |d| && 0 <= i < |d[j].1|
    ensures var r, row, h := OverlayAll(t.tiles, t.height, LegendWrites(d)).value, LegendFirstRow + j, t.height;
      XpPos(row, LegendValueColumn, h) < |t.tiles| && 0 <= XpPos(row, LegendValueColumn + i, h) < |r| &&
      r[XpPos(row, LegendValueColumn + i, h)] == t.tiles[XpPos(row, LegendValueColumn, h)].(code := d[j].1[i] as int)
  {
    var ws := LegendWrites(d);
    LegendDisjoint(d, t.height);
    LegendWriteAt(d, 2 * j + 1);
    OverlayAllHits(t.tiles, t.height, ws, 2 * j + 1, i);
  }

  // ---------------------------------------------------------------------
  // The image of `save_to_png`.
  // ---------------------------------------------------------------------

  /** The background colour of height `h`'s palette entry. */
  function BgOf(pal: Palette, h: int): Rgb
  {
    match EntryForHeight(pal, h)
    case Some(e) => e.bg
    case None => Black
  }

  /** The image `save_to_png` paints before scaling, `img[y][x]` the
      background of cell `(y, x)`'s entry; or the error of the first cell,
      column by column, whose glyph `chr` refuses or the palette lacks. */
  function PngImage(g: Grid, n: int, pal: Palette): Result<seq<seq<Rgb>>, PyError>
    requires IsSquare(g, n)
  {
    match GridTiles(ColumnMajor(g, n), pal, GlyphOnBg)
    case Err(e) => Err(e)
    case Ok(_) => Ok(seq(n, y requires 0 <= y < n => seq(n, x requires 0 <= x < n => BgOf(pal, g[y][x]))))
  }

  /** The image exists exactly when every height is one of the palette's,
      and then each pixel is that entry's background. */
  lemma PngImageColours(g: Grid, n: int, pal: Palette)
    requires IsSquare(g, n) && WellFormed(pal)
    ensures PngImage(g, n, pal).Ok? <==> forall y, x :: 0 <= y < n && 0 <= x < n ==> 1 <= g[y][x] <= |pal|
    ensures PngImage(g, n, pal).Ok? ==>
      forall y, x :: 0 <= y < n && 0 <= x < n ==> PngImage(g, n, pal).value[y][x] == pal[g[y][x] - 1].bg
  {
    var hs := ColumnMajor(g, n);
    if GridTiles(hs, pal, GlyphOnBg).Ok? {
      forall y, x | 0 <= y < n && 0 <= x < n
        ensures 1 <= g[y][x] <= |pal| && BgOf(pal, g[y][x]) == pal[g[y][x] - 1].bg
      {
        ColumnMajorAt(g, n, y, x);
        assert GridTile(hs[XpPos(y, x, n)], pal, GlyphOnBg).Ok?;
        EntryForHeightIndex(pal, g[y][x]);
      }
    } else if forall y, x :: 0 <= y < n && 0 <= x < n ==> 1 <= g[y][x] <= |pal| {
      GridLayerInPalette(g, n, pal, GlyphOnBg);
      assert false;
    }
  }

  /** The first `pos` cells, column by column, have colours. */
  predicate PaintedUpTo(g: Grid, n: int, pal: Palette, pos: int)
    requires IsSquare(g, n)
  {
    0 <= pos <= |ColumnMajor(g, n)| && GridTiles(ColumnMajor(g, n)[..pos], pal, GlyphOnBg).Ok?
  }

  /** Cell `(y, x)` either stops the painting with the error of the whole
      image or gets its colour and moves the painting on by one cell. */
  lemma PaintCell(g: Grid, n: int, pal: Palette, y: int, x: int)
    requires IsSquare(g, n) && 0 <= y < n && 0 <= x < n && PaintedUpTo(g, n, pal, XpPos(y, x, n))
    ensures var t := GridTile(g[y][x], pal, GlyphOnBg);
      if t.Err? then GridTiles(ColumnMajor(g, n), pal, GlyphOnBg) == Err(t.error)
      else PaintedUpTo(g, n, pal, XpPos(y + 1, x, n)) && t.value.bg == BgOf(pal, g[y][x])
  {
    var hs := ColumnMajor(g, n);
    ColumnMajorAt(g, n, y, x);
    if GridTile(g[y][x], pal, GlyphOnBg).Err? {
      GridTilesFirstError(hs, XpPos(y, x, n), pal, GlyphOnBg);
    } else {
      TakeOneMore(hs, XpPos(y, x, n));
      assert XpPos(y, x, n) + 1 == XpPos(y + 1, x, n);
    }
  }

  /** The inner `for y` loop of `save_to_png`: column `x` of the image. */
  method PaintColumn(img: array2<Rgb>, g: Grid, n: int, pal: Palette, x: int) returns (err: Option<PyError>)
    requires IsSquare(g, n) && 0 <= x < n && img.Length0 == n && img.Length1 == n
    requires PaintedUpTo(g, n, pal, XpPos(0, x, n))
    modifies img
    ensures err.None? ==> PaintedUpTo(g, n, pal, XpPos(0, x + 1, n))
    ensures err.Some? ==> GridTiles(ColumnMajor(g, n), pal, GlyphOnBg) == Err(err.value)
    ensures forall yy, xx :: 0 <= yy < n && 0 <= xx < n && xx != x ==> img[yy, xx] == old(img[yy, xx])
    ensures err.None? ==> forall yy :: 0 <= yy < n ==> img[yy, x] == BgOf(pal, g[yy][x])
  {
    var y := 0;
    while y < n
      invariant 0 <= y <= n && PaintedUpTo(g, n, pal, XpPos(y, x, n))
      invariant forall yy, xx :: 0 <= yy < n && 0 <= xx < n ==>
        img[yy, xx] == if xx == x && yy < y then BgOf(pal, g[yy][xx]) else old(img[yy, xx])
    {
      PaintCell(g, n, pal, y, x);
      var t := GridTile(g[y][x], pal, GlyphOnBg);
      if t.Err? {
        return Some(t.error);
      }
      img[y, x] := t.value.bg;
      y := y + 1;
    }
    MulSucc(x, n);
    assert XpPos(y, x, n) == XpPos(0, x + 1, n);
    return None;
  }

  /** The nested loops of `save_to_png` filling `img`, which starts black. */
  method PaintImage(g: Grid, n: int, pal: Palette) returns (img: array2<Rgb>, err: Option<PyError>)
    requires IsSquare(g, n)
    ensures fresh(img) && img.Length0 == n && img.Length1 == n
    ensures match PngImage(g, n, pal)
      case Ok(px) => err == None && forall y, x :: 0 <= y < n && 0 <= x < n ==> img[y, x] == px[y][x]
      case Err(e) => err == Some(e)
  {
    img := new Rgb[n, n]((_, _) => Black);
    ghost var hs := ColumnMajor(g, n);
    ColumnsLength(g, n, 0);
    var x := 0;
    while x < n
      invariant 0 <= x <= n && PaintedUpTo(g, n, pal, XpPos(0, x, n))
      invariant forall yy, xx :: 0 <= yy < n && 0 <= xx < x ==> img[yy, xx] == BgOf(pal, g[yy][xx])
    {
      err := PaintColumn(img, g, n, pal, x);
      if err.Some? {
        return;
      }
      x := x + 1;
    }
    assert hs[..XpPos(0, x, n)] == hs;
    err := None;
  }

  // ---------------------------------------------------------------------
  // Saved files.
  // ---------------------------------------------------------------------

  /** Every height of a generated map has a palette entry, so `save_to_xp`
      cannot fail on the map layers; with a template the legend fits on,
      the file is written. */
  lemma GeneratedMapSaves(g: Grid, n: int, pal: Palette, template: Option<XLayer>, d: Legend)
    requires ExportArgs(g, n, pal, MapKinds, template, LegendWrites(d))
    requires forall y, x :: 0 <= y < n && 0 <= x < n ==> 1 <= g[y][x] <= |pal|
    ensures template.Some? && OverlayAll(template.value.tiles, template.value.height, LegendWrites(d)).Ok?
            <==> ExportFile(g, n, pal, MapKinds, template, LegendWrites(d)).Ok?
  {
    GridLayersInPalette(g, n, pal, MapKinds);
  }

  /** The map layer of a saved file holds blank glyphs: read back with
      `ParseXp` and decoded as `load_from_xp` decodes a layer, it gives `-32`
      in every cell, whatever the map was. */
  lemma SavedMapLoadsBlank(g: Grid, n: int, pal: Palette, template: Option<XLayer>, d: Legend)
    requires ExportArgs(g, n, pal, MapKinds, template, LegendWrites(d))
    requires ExportFile(g, n, pal, MapKinds, template, LegendWrites(d)).Ok?
    ensures var ls := ParseXp(ExportFile(g, n, pal, MapKinds, template, LegendWrites(d)).value);
      ls.Some? && |ls.value| == |MapKinds| + 1 && LayerOk(ls.value[0]) && AsciiGlyphs(ls.value[0]) &&
      DecodeRows(ls.value[0], n) == (Blank(n, -32), None)
  {
    ExportFileParses(g, n, pal, MapKinds, template, LegendWrites(d));
    SpaceLayerLoads(g, n, pal);
  }

  // ---------------------------------------------------------------------
  // The generator object.
  // ---------------------------------------------------------------------

  class DiamondSquare {
    var mapSize: int
    const heightMin: int
    const heightMax: int
    const roughness: real
    /** `str(self.roughness)`, as the legend shows it. */
    const roughnessText: string
    const randomSeed: int
    const heightNil: int
    /** The random stream for each seed. */
    const rng: Seeded
    /** `xp_legend_layer`: the first layer of the legend template, if the file has one. */
    const legendTemplate: Option<XLayer>
    var palette: string
    var paletteDict: Palette
    /** `mapping`: one colour pair per palette entry. */
    var mapping: seq<(Rgb, Rgb)>
    var heightMap: Grid
    var mapStr: seq<PyStr>
    var legend: Legend

    /** What holds of every object: `randint` keeps to its range, the palette
        dictionary is one of the registry's, the template is well formed and
        the legend is empty or holds the six entries. */
    ghost predicate Valid()
      reads this
    {
      DrawsInRange(rng) && WellFormed(paletteDict) &&
      (legendTemplate.Some? ==> TemplateOk(legendTemplate.value)) &&
      (legend == [] || LegendLaidOut(legend))
    }

    /** `__init__`: a blank map (`init_height_map`; a negative size gives no
        rows), the requested palette or `landscape_16` when it is unknown. */
    constructor (mapSize: int, heightMin: int, heightMax: int, roughness: real, roughnessText: string,
                 randomSeed: int, heightNil: int, paletteName: string, template: Option<XLayer>, rng: Seeded)
      requires DrawsInRange(rng) && (template.Some? ==> TemplateOk(template.value))
      ensures Valid()
      ensures this.mapSize == mapSize && this.heightMin == heightMin && this.heightMax == heightMax
      ensures this.roughness == roughness && this.roughnessText == roughnessText
      ensures this.randomSeed == randomSeed && this.heightNil == heightNil && this.rng == rng
      ensures legendTemplate == template && mapStr == [] && legend == []
      ensures heightMap == Blank(if mapSize < 0 then 0 else mapSize, heightNil)
      ensures palette == ResolvePaletteName(paletteName)
      ensures Some(paletteDict) == LookupPalette(palette) && mapping == ColourPairs(paletteDict)
    {
      this.mapSize := mapSize;
      this.heightMin := heightMin;
      this.heightMax := heightMax;
      this.roughness := roughness;
      this.roughnessText := roughnessText;
      this.randomSeed := randomSeed;
      this.heightNil := heightNil;
      this.rng := rng;
      legendTemplate := template;
      heightMap := Blank(if mapSize < 0 then 0 else mapSize, heightNil);
      mapStr := [];
      legend := [];
      palette := ResolvePaletteName(paletteName);
      paletteDict := Landscape16;
      mapping := [];
      new;
      LandscapesWellFormed();
      var _ := BuildPalette();
    }

    /** `build_palette`: the dictionary of `palette` and a colour pair per
        entry; `KeyError`, changing nothing, when the name is unknown. */
    method BuildPalette() returns (r: Result<seq<(Rgb, Rgb)>, PyError>)
      modifies this
      ensures mapSize == old(mapSize) && palette == old(palette) && heightMap == old(heightMap)
      ensures mapStr == old(mapStr) && legend == old(legend)
      ensures match LookupPalette(palette)
        case None => r == Err(KeyError) && paletteDict == old(paletteDict) && mapping == old(mapping)
        case Some(pd) => paletteDict == pd && mapping == ColourPairs(pd) && r == Ok(mapping)
    {
      var pd := LookupPalette(palette);
      if pd.None? {
        return Err(KeyError);
      }
      paletteDict := pd.value;
      var m: seq<(Rgb, Rgb)> := [];
      for i := 0 to |paletteDict|
        invariant |m| == i && forall j :: 0 <= j < i ==> m[j] == (paletteDict[j].fg, paletteDict[j].bg)
      {
        m := m + [(paletteDict[i].fg, paletteDict[i].bg)];
      }
      mapping := m;
      return Ok(m);
    }

    /** `generate`: reseed, rebuild the palette, refuse a palette with fewer
        colours than `height_max`, then `diamond_square`. The fill runs on
        the old map (the fresh one is discarded), yet leaves what a fill of
        a fresh map would: every cell in `[height_min, height_max]`. */
    method Generate() returns (err: Option<PyError>)
      requires Valid() && IsSquare(heightMap, mapSize) && ValidSize(mapSize)
      modifies this
      ensures Valid() && mapSize == old(mapSize) && palette == old(palette)
      ensures mapStr == old(mapStr) && legend == old(legend)
      ensures match LookupPalette(palette)
        case None => err == Some(KeyError) && paletteDict == old(paletteDict) && mapping == old(mapping) &&
                     heightMap == old(heightMap)
        case Some(pd) =>
          paletteDict == pd && mapping == ColourPairs(pd) &&
          if |pd| < heightMax then err == Some(PaletteTooSmall) && heightMap == old(heightMap)
          else if heightMax < heightMin then err == Some(ValueError) && heightMap == old(heightMap)
          else err == None &&
               heightMap == Run(Blank(mapSize, heightNil), Params(mapSize, heightMin, heightMax),
                                roughness, rng(randomSeed), 0).grid
      ensures err.None? ==> IsSquare(heightMap, mapSize) && heightMax <= |paletteDict|
      ensures err.None? ==> forall y, x :: 0 <= y < mapSize && 0 <= x < mapSize ==> heightMin <= heightMap[y][x] <= heightMax
    {
      var built := BuildPalette();
      if built.Err? {
        return Some(built.error);
      }
      if |paletteDict| < heightMax {
        return Some(PaletteTooSmall);
      }
      if heightMax < heightMin {
        // the first `randint(height_min, height_max)` raises
        return Some(ValueError);
      }
      var p := Params(mapSize, heightMin, heightMax);
      var rand := rng(randomSeed);
      var g, k := Fill(heightMap, p, roughness, rand, 0);
      assert CornerDrawsInRange(rand, 0, heightMin, heightMax);
      RunIgnoresPriorGrid(heightMap, Blank(mapSize, heightNil), p, roughness, rand, 0);
      RunWithinBounds(heightMap, p, roughness, rand, 0);
      FillIsRun(heightMap, p, roughness, rand, 0);
      heightMap := g;
      return None;
    }

    /** `convert_to_str`: one string of glyphs per row of the map. */
    method ConvertToStr() returns (err: Option<PyError>)
      modifies this
      ensures mapSize == old(mapSize) && palette == old(palette) && paletteDict == old(paletteDict)
      ensures mapping == old(mapping) && heightMap == old(heightMap) && legend == old(legend)
      ensures (mapStr, err) == GlyphRows(heightMap, |heightMap|)
    {
      var rows;
      rows, err := ConvertRows(heightMap);
      mapStr := rows;
    }

    /** `get_palette_preview`: the colours of the named palette, or of the
        current one when no other is named. `palette` and `mapping` are put
        back, `palette_dict` is not; an unknown name raises `KeyError` and
        leaves `palette` set to it. */
    method GetPalettePreview(name: Option<string>) returns (r: Result<seq<(Rgb, Rgb)>, PyError>)
      requires Valid()
      modifies this
      ensures Valid() && mapSize == old(mapSize) && heightMap == old(heightMap)
      ensures mapStr == old(mapStr) && legend == old(legend) && mapping == old(mapping)
      ensures name.None? || name.value == old(palette) ==>
        r == Ok(old(mapping)) && palette == old(palette) && paletteDict == old(paletteDict)
      ensures name.Some? && name.value != old(palette) ==>
        match LookupPalette(name.value)
        case None => r == Err(KeyError) && palette == name.value && paletteDict == old(paletteDict)
        case Some(pd) => r == Ok(ColourPairs(pd)) && palette == old(palette) && paletteDict == pd
    {
      if name.None? || name.value == palette {
        return Ok(mapping);
      }
      var oldPalette, oldMapping := palette, mapping;
      palette := name.value;
      var result := BuildPalette();
      if result.Err? {
        return result;
      }
      palette := oldPalette;
      mapping := oldMapping;
      return result;
    }

    /** `generate_legend_dict`: the six legend entries with the object's
        current values. */
    method GenerateLegendDict()
      requires Valid()
      modifies this
      ensures Valid() && mapSize == old(mapSize) && palette == old(palette) && paletteDict == old(paletteDict)
      ensures mapping == old(mapping) && heightMap == old(heightMap) && mapStr == old(mapStr)
      ensures legend == LegendEntries(mapSize, heightMax, roughnessText, randomSeed, palette)
    {
      var d := legend;
      LegendDictSettles(d, mapSize, heightMax, roughnessText, randomSeed, palette);
      d := SetEntry(d, "Map size", IntText(mapSize));
      d := SetEntry(d, "Algorithm", AlgorithmName);
      d := SetEntry(d, "Max height", IntText(heightMax));
      d := SetEntry(d, "Roughness", roughnessText);
      d := SetEntry(d, "Random seed", IntText(randomSeed));
      d := SetEntry(d, "Palette", palette);
      legend := d;
    }

    /** `save_to_xp`, returning the file's bytes: the legend entries present
        now (the method does not fill them itself) over a copy of the
        template, the background layer, and the legend layer. */
    method SaveToXp() returns (r: Result<seq<Byte>, PyError>)
      requires Valid() && IsSquare(heightMap, mapSize) && 1 <= mapSize && IsInt32(mapSize)
      ensures r == ExportFile(heightMap, mapSize, paletteDict, MapKinds, legendTemplate, LegendWrites(legend))
    {
      r := ExportXp(heightMap, mapSize, paletteDict, MapKinds, legendTemplate, LegendWrites(legend));
    }

    /** `save_palette`, returning the file's name and contents. */
    method SavePalette() returns (fileName: string, text: string)
      ensures fileName == PaletteFileName(palette, paletteDict) && text == PaletteText(paletteDict)
    {
      fileName := PaletteFileName(palette, paletteDict);
      text := BuildPaletteText(paletteDict);
    }

    /** `save_to_png` up to the resize: the image, then the legend entries
        for the metadata. */
    method SaveToPng() returns (img: array2<Rgb>, err: Option<PyError>)
      requires Valid() && IsSquare(heightMap, mapSize) && 1 <= mapSize
      modifies this
      ensures Valid() && mapSize == old(mapSize) && palette == old(palette) && paletteDict == old(paletteDict)
      ensures mapping == old(mapping) && heightMap == old(heightMap) && mapStr == old(mapStr)
      ensures fresh(img) && img.Length0 == mapSize && img.Length1 == mapSize
      ensures match PngImage(heightMap, mapSize, paletteDict)
        case Ok(px) => err == None && (forall y, x :: 0 <= y < mapSize && 0 <= x < mapSize ==> img[y, x] == px[y][x]) &&
                       legend == LegendEntries(mapSize, heightMax, roughnessText, randomSeed, palette)
        case Err(e) => err == Some(e) && legend == old(legend)
    {
      img, err := PaintImage(heightMap, mapSize, paletteDict);
      if err.Some? {
        return;
      }
      GenerateLegendDict();
    }

    /** `load_from_xp` on the layers the file holds: nothing happens for a
        file without layers; otherwise the map size becomes the first
        layer's larger side and the map its decoded rows, up to the first
        tile that fails. */
    method LoadFromXp(layers: seq<XLayer>) returns (err: Option<PyError>)
      requires |layers| > 0 ==> LayerOk(layers[0]) && AsciiGlyphs(layers[0])
      modifies this
      ensures palette == old(palette) && paletteDict == old(paletteDict) && mapping == old(mapping)
      ensures mapStr == old(mapStr) && legend == old(legend)
      ensures |layers| == 0 ==> err == None && mapSize == old(mapSize) && heightMap == old(heightMap)
      ensures |layers| > 0 ==>
        mapSize == (if layers[0].width >= layers[0].height then layers[0].width else layers[0].height) &&
        (heightMap, err) == DecodeRows(layers[0], layers[0].width)
    {
      if |layers| == 0 {
        return None;
      }
      var l := layers[0];
      mapSize := if l.width >= l.height then l.width else l.height;
      var rows;
      rows, err := LoadRows(l);
      heightMap := rows;
    }
  }
}
