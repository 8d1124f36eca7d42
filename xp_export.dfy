/** `save_to_xp`, as both generator files write it: the legend texts written
    over a copy of the template layer, then the file header, the map's grid
    layers and the legend layer. The two files differ only in which grid
    layers they write and where the legend texts go; those are parameters
    here (`kinds`, `writes`). */
module XpExport {
  import opened Wrappers
  import opened Errors
  import opened Palettes
  import opened Terrain
  import opened XpCodec
  import opened XpLayers

  /** A legend template as `load_legend_from_xp` leaves it: a well-formed
      layer whose every glyph is exactly one character. */
  predicate TemplateOk(t: XLayer)
  {
    LayerOk(t) && forall i :: 0 <= i < |t.tiles| ==> t.tiles[i].code != 0
  }

  lemma TemplateShape(t: XLayer)
    requires LayerOk(t)
    ensures TileListShape(|t.tiles|, t.height)
  {
    if t.height < 1 {
      assert t.height == 0 && t.width * 0 == 0;
    }
  }

  /** The values of `rs`, or the error of the first that is an error. */
  function Collect<T>(rs: seq<Result<T, PyError>>): (r: Result<seq<T>, PyError>)
    ensures r.Ok? <==> forall i :: 0 <= i < |rs| ==> rs[i].Ok?
    ensures r.Ok? ==> |r.value| == |rs| && forall i :: 0 <= i < |rs| ==> rs[i] == Ok(r.value[i])
    ensures r.Err? ==> exists i :: 0 <= i < |rs| && rs[i] == Err(r.error) && forall j :: 0 <= j < i ==> rs[j].Ok?
    decreases |rs|
  {
    if |rs| == 0 then Ok([])
    else
      var init := rs[..|rs| - 1];
      assert forall i :: 0 <= i < |init| ==> init[i] == rs[i];
      match Collect(init)
      case Err(e) => Err(e)
      case Ok(vs) =>
        match rs[|rs| - 1]
        case Err(e) => Err(e)
        case Ok(v) => Ok(vs + [v])
  }

  /** The first error decides. */
  lemma CollectFirstError<T>(rs: seq<Result<T, PyError>>, i: int)
    requires 0 <= i < |rs| && rs[i].Err? && forall j :: 0 <= j < i ==> rs[j].Ok?
    ensures Collect(rs) == Err(rs[i].error)
  {
    var r := Collect(rs);
    var first :| 0 <= first < |rs| && rs[first] == Err(r.error) && forall j :: 0 <= j < first ==> rs[j].Ok?;
    assert first == i;
  }

  lemma CollectStep<T>(rs: seq<Result<T, PyError>>, i: int, done: seq<T>)
    requires 0 <= i < |rs| && Collect(rs[..i]) == Ok(done) && rs[i].Ok?
    ensures Collect(rs[..i + 1]) == Ok(done + [rs[i].value])
  {
    assert rs[..i + 1][..i] == rs[..i];
  }

  lemma CollectStops<T>(rs: seq<Result<T, PyError>>, i: int, done: seq<T>)
    requires 0 <= i < |rs| && Collect(rs[..i]) == Ok(done) && rs[i].Err?
    ensures Collect(rs) == Err(rs[i].error)
  {
    assert forall j :: 0 <= j < i ==> rs[..i][j] == rs[j];
    CollectFirstError(rs, i);
  }

  /** The grid layer for each of `kinds`. */
  function LayerResults(g: Grid, n: int, pal: Palette, kinds: seq<GridLayerKind>): (r: seq<Result<XLayer, PyError>>)
    requires IsSquare(g, n)
    ensures |r| == |kinds| && forall i :: 0 <= i < |kinds| ==> r[i] == GridLayer(g, n, pal, kinds[i])
  {
    seq(|kinds|, i requires 0 <= i < |kinds| => GridLayer(g, n, pal, kinds[i]))
  }

  /** The grid layers for `kinds`, in order, or the error of the first that fails. */
  function GridLayers(g: Grid, n: int, pal: Palette, kinds: seq<GridLayerKind>): Result<seq<XLayer>, PyError>
    requires IsSquare(g, n)
  {
    Collect(LayerResults(g, n, pal, kinds))
  }

  lemma GridLayersOk(g: Grid, n: int, pal: Palette, kinds: seq<GridLayerKind>)
    requires IsSquare(g, n) && IsInt32(n) && WellFormed(pal) && GridLayers(g, n, pal, kinds).Ok?
    ensures forall i :: 0 <= i < |kinds| ==> LayerOk(GridLayers(g, n, pal, kinds).value[i])
  {
    forall i | 0 <= i < |kinds|
      ensures LayerOk(GridLayers(g, n, pal, kinds).value[i])
    {
      GridLayerOk(g, n, pal, kinds[i]);
    }
  }

  /** A map whose every height has a palette entry produces its layer. */
  lemma GridLayerInPalette(g: Grid, n: int, pal: Palette, kind: GridLayerKind)
    requires IsSquare(g, n) && WellFormed(pal)
    requires forall y, x :: 0 <= y < n && 0 <= x < n ==> 1 <= g[y][x] <= |pal|
    ensures GridLayer(g, n, pal, kind).Ok?
  {
    var hs := ColumnMajor(g, n);
    forall k | 0 <= k < |hs|
      ensures GridTile(hs[k], pal, kind).Ok?
    {
      var y, x := ColumnMajorCell(g, n, k);
      EntryForHeightIndex(pal, hs[k]);
    }
  }

  /** ... and so all the layers `save_to_xp` asks for. */
  lemma GridLayersInPalette(g: Grid, n: int, pal: Palette, kinds: seq<GridLayerKind>)
    requires IsSquare(g, n) && WellFormed(pal)
    requires forall y, x :: 0 <= y < n && 0 <= x < n ==> 1 <= g[y][x] <= |pal|
    ensures GridLayers(g, n, pal, kinds).Ok?
  {
    forall i | 0 <= i < |kinds|
      ensures LayerResults(g, n, pal, kinds)[i].Ok?
    {
      GridLayerInPalette(g, n, pal, kinds[i]);
    }
  }

  /** A height above the palette's size makes a layer that looks colours up
      fail with `KeyError`, when every height has a code point `chr` accepts:
      nothing checks the map against the palette before the lookup. */
  lemma GridLayerMissingKey(g: Grid, n: int, pal: Palette, kind: GridLayerKind, y: int, x: int)
    requires IsSquare(g, n) && WellFormed(pal) && kind != GlyphOnBlack
    requires forall yy, xx :: 0 <= yy < n && 0 <= xx < n ==> 1 <= g[yy][xx] && GlyphCode(g[yy][xx]) <= MaxCodePoint
    requires 0 <= y < n && 0 <= x < n && g[y][x] > |pal|
    ensures GridLayer(g, n, pal, kind) == Err(KeyError)
  {
    var hs := ColumnMajor(g, n);
    ColumnMajorAt(g, n, y, x);
    EntryForHeightIndex(pal, g[y][x]);
    assert GridTile(hs[XpPos(y, x, n)], pal, kind).Err?;
    var r := GridTiles(hs, pal, kind);
    var i :| 0 <= i < |hs| && GridTile(hs[i], pal, kind) == Err(r.error);
    var yy, xx := ColumnMajorCell(g, n, i);
  }

  lemma {:induction false} LayersBytesAppend(ls: seq<XLayer>, l: XLayer)
    requires forall i :: 0 <= i < |ls| ==> LayerOk(ls[i])
    requires LayerOk(l)
    ensures LayersBytes(ls + [l]) == LayersBytes(ls) + LayerBytes(l)
    decreases |ls|
  {
    if |ls| > 0 {
      assert (ls + [l])[1..] == ls[1..] + [l];
      LayersBytesAppend(ls[1..], l);
    } else {
      assert ls + [l] == [l];
    }
  }

  /** What `save_to_xp` may be called with: a square map of at least one
      row, a well-formed palette, at most two grid layers, texts at
      non-negative positions and, when there is one, a well-formed template. */
  predicate ExportArgs(g: Grid, n: int, pal: Palette, kinds: seq<GridLayerKind>,
                       template: Option<XLayer>, writes: seq<TextWrite>)
  {
    IsSquare(g, n) && 1 <= n && IsInt32(n) && WellFormed(pal) && |kinds| <= 2 &&
    WritesOk(writes) && (template.Some? ==> TemplateOk(template.value))
  }

  /** The layers of the file: the grid layers, then the template with the
      legend texts written over it; or the first error. */
  function ExportLayers(g: Grid, n: int, pal: Palette, kinds: seq<GridLayerKind>,
                        t: XLayer, writes: seq<TextWrite>): (r: Result<seq<XLayer>, PyError>)
    requires ExportArgs(g, n, pal, kinds, Some(t), writes)
    ensures r.Ok? ==> DocOk(r.value) && |r.value| == |kinds| + 1
  {
    TemplateShape(t);
    match OverlayAll(t.tiles, t.height, writes)
    case Err(e) => Err(e)
    case Ok(ts) =>
      match GridLayers(g, n, pal, kinds)
      case Err(e) => Err(e)
      case Ok(ls) =>
        OverlayAllOk(t.tiles, t.height, writes);
        GridLayersOk(g, n, pal, kinds);
        Ok(ls + [XLayer(t.width, t.height, ts)])
  }

  /** The bytes `save_to_xp` writes, or the error it raises. Without a
      template the first legend text raises `AttributeError`; with no texts
      to write the grid layers are still written, and reading the missing
      template's width raises `AttributeError` after them. */
  function ExportFile(g: Grid, n: int, pal: Palette, kinds: seq<GridLayerKind>,
                      template: Option<XLayer>, writes: seq<TextWrite>): Result<seq<Byte>, PyError>
    requires ExportArgs(g, n, pal, kinds, template, writes)
  {
    match template
    case None =>
      if |writes| > 0 then Err(AttributeError)
      else if GridLayers(g, n, pal, kinds).Err? then Err(GridLayers(g, n, pal, kinds).error)
      else Err(AttributeError)
    case Some(t) =>
      match ExportLayers(g, n, pal, kinds, t, writes)
      case Err(e) => Err(e)
      case Ok(ls) => Ok(XpBytes(ls))
  }

  /** A file `save_to_xp` completes reads back as its layers: one grid layer
      per kind, in order, then the template with the legend texts over it. */
  lemma ExportFileParses(g: Grid, n: int, pal: Palette, kinds: seq<GridLayerKind>,
                         template: Option<XLayer>, writes: seq<TextWrite>)
    requires ExportArgs(g, n, pal, kinds, template, writes) && ExportFile(g, n, pal, kinds, template, writes).Ok?
    ensures template.Some? && TileListShape(|template.value.tiles|, template.value.height)
    ensures ExportLayers(g, n, pal, kinds, template.value, writes).Ok?
    ensures ParseXp(ExportFile(g, n, pal, kinds, template, writes).value) ==
            Some(ExportLayers(g, n, pal, kinds, template.value, writes).value)
    ensures var ls := ExportLayers(g, n, pal, kinds, template.value, writes).value;
      forall i :: 0 <= i < |kinds| ==> GridLayer(g, n, pal, kinds[i]) == Ok(ls[i])
    ensures OverlayAll(template.value.tiles, template.value.height, writes).Ok?
    ensures var t := template.value;
      ExportLayers(g, n, pal, kinds, t, writes).value[|kinds|] ==
      XLayer(t.width, t.height, OverlayAll(t.tiles, t.height, writes).value)
  {
    var t := template.value;
    TemplateShape(t);
    var ls := ExportLayers(g, n, pal, kinds, t, writes).value;
    ParseXpOf(ls);
  }

  // ---------------------------------------------------------------------
  // The writing itself.
  // ---------------------------------------------------------------------

  /** `deepcopy(self.xp_legend_layer)` and the loop writing the legend texts. */
  method OverlayCopy(t: XLayer, writes: seq<TextWrite>) returns (r: Result<array<XTile>, PyError>)
    requires TemplateOk(t) && WritesOk(writes)
    ensures TileListShape(|t.tiles|, t.height)
    ensures match OverlayAll(t.tiles, t.height, writes)
      case Ok(ts) => r.Ok? && fresh(r.value) && r.value[..] == ts
      case Err(e) => r == Err(e)
  {
    TemplateShape(t);
    var tiles := new XTile[|t.tiles|](i requires 0 <= i < |t.tiles| => t.tiles[i]);
    assert tiles[..] == t.tiles;
    var err := OverlayLoop(tiles, t.height, writes);
    if err.Some? {
      return Err(err.value);
    }
    return Ok(tiles);
  }

  /** Layer `i` of `kinds` streamed as `tiles` extends the collected layers and their bytes. */
  lemma EmitLayerStep(g: Grid, n: int, pal: Palette, kinds: seq<GridLayerKind>, i: int,
                      done: seq<XLayer>, out: seq<Byte>, tiles: Result<seq<Byte>, PyError>)
    requires IsSquare(g, n) && IsInt32(n) && 0 <= n && WellFormed(pal) && 0 <= i < |kinds|
    requires Collect(LayerResults(g, n, pal, kinds)[..i]) == Ok(done)
    requires (forall j :: 0 <= j < |done| ==> LayerOk(done[j])) && out == LayersBytes(done)
    requires match GridTiles(ColumnMajor(g, n), pal, kinds[i])
      case Ok(ts) => tiles == Ok(TilesBytes(ts))
      case Err(e) => tiles == Err(e)
    requires tiles.Ok?
    ensures GridLayer(g, n, pal, kinds[i]).Ok?
    ensures var done' := done + [GridLayer(g, n, pal, kinds[i]).value];
      Collect(LayerResults(g, n, pal, kinds)[..i + 1]) == Ok(done') &&
      (forall j :: 0 <= j < |done'| ==> LayerOk(done'[j])) &&
      out + (Int32Le(n) + Int32Le(n) + tiles.value) == LayersBytes(done')
  {
    var l := GridLayer(g, n, pal, kinds[i]).value;
    CollectStep(LayerResults(g, n, pal, kinds), i, done);
    GridLayerOk(g, n, pal, kinds[i]);
    LayersBytesAppend(done, l);
  }

  /** The grid layers, each its width and height then its tiles column by column. */
  method EmitGridLayers(g: Grid, n: int, pal: Palette, kinds: seq<GridLayerKind>) returns (r: Result<seq<Byte>, PyError>)
    requires IsSquare(g, n) && IsInt32(n) && 0 <= n && WellFormed(pal)
    ensures match GridLayers(g, n, pal, kinds)
      case Ok(ls) => (forall i :: 0 <= i < |ls| ==> LayerOk(ls[i])) && r == Ok(LayersBytes(ls))
      case Err(e) => r == Err(e)
  {
    var out: seq<Byte> := [];
    ghost var rs := LayerResults(g, n, pal, kinds);
    ghost var done: seq<XLayer> := [];
    for i := 0 to |kinds|
      invariant Collect(rs[..i]) == Ok(done)
      invariant (forall j :: 0 <= j < |done| ==> LayerOk(done[j])) && out == LayersBytes(done)
    {
      var tiles := EmitGridLayer(g, n, pal, kinds[i]);
      if tiles.Err? {
        CollectStops(rs, i, done);
        return Err(tiles.error);
      }
      EmitLayerStep(g, n, pal, kinds, i, done, out, tiles);
      out := out + (Int32Le(n) + Int32Le(n) + tiles.value);
      done := done + [GridLayer(g, n, pal, kinds[i]).value];
    }
    assert rs[..|kinds|] == rs;
    return Ok(out);
  }

  /** The legend layer: its width and height, then every tile. */
  method EmitTiles(tiles: array<XTile>) returns (out: seq<Byte>)
    requires forall i :: 0 <= i < tiles.Length ==> TileOk(tiles[i])
    ensures out == TilesBytes(tiles[..])
  {
    out := [];
    for i := 0 to tiles.Length
      invariant out == TilesBytes(tiles[..i])
    {
      TilesBytesAppend(tiles[..i], tiles[i]);
      assert tiles[..i + 1] == tiles[..i] + [tiles[i]];
      out := out + TileBytes(tiles[i]);
    }
    assert tiles[..tiles.Length] == tiles[..];
  }

  /** `save_to_xp` from the overlay to the last byte, writing into a buffer
      instead of a file. */
  method ExportXp(g: Grid, n: int, pal: Palette, kinds: seq<GridLayerKind>,
                  template: Option<XLayer>, writes: seq<TextWrite>) returns (r: Result<seq<Byte>, PyError>)
    requires ExportArgs(g, n, pal, kinds, template, writes)
    ensures r == ExportFile(g, n, pal, kinds, template, writes)
  {
    var legend: array<XTile> := new XTile[0];
    if template.Some? {
      var copy := OverlayCopy(template.value, writes);
      if copy.Err? {
        return Err(copy.error);
      }
      legend := copy.value;
    } else if |writes| > 0 {
      return Err(AttributeError);
    }
    var header := Int32Le(1) + Int32Le(|kinds| + 1);
    var layers := EmitGridLayers(g, n, pal, kinds);
    if layers.Err? {
      return Err(layers.error);
    }
    if template.None? {
      return Err(AttributeError);
    }
    var t := template.value;
    ghost var ls := GridLayers(g, n, pal, kinds).value;
    ghost var last := XLayer(t.width, t.height, legend[..]);
    OverlayAllOk(t.tiles, t.height, writes);
    var tileBytes := EmitTiles(legend);
    LayersBytesAppend(ls, last);
    assert ExportLayers(g, n, pal, kinds, t, writes) == Ok(ls + [last]);
    return Ok(header + (layers.value + (Int32Le(t.width) + Int32Le(t.height) + tileBytes)));
  }
}
