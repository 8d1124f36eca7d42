/** The `DiamondSquare` class of `tui_map_generator/tui_map_generator.py`,
    the older copy of the generator. It differs from the newer one in that
    `generate` does not check the palette's size, and `save_to_xp` converts
    the map to text first, writes the heights' glyphs into both map layers
    and writes six setting values (no labels) from column 15, row 5. */
module LegacyGenerator {
  import opened Wrappers
  import opened Errors
  import opened Palettes
  import opened Terrain
  import opened Independence
  import opened XpCodec
  import opened XpLayers
  import opened XpExport
  import opened TextFormats
  import opened MapGenerator

  /** The map layers this `save_to_xp` writes: the glyphs on their
      backgrounds, then the glyphs white on black. */
  const LegacyKinds: seq<GridLayerKind> := [GlyphOnBg, GlyphOnBlack]

  /** Settings are written from column 15, setting `j` on row `5 + j`. */
  const SettingsColumn := 15
  const SettingsFirstRow := 5

  /** `settings_list`: size, algorithm, palette, seed, largest height and
      roughness, each as `str` prints it. */
  function Settings(mapSize: int, palette: string, randomSeed: int, heightMax: int, roughnessText: string): seq<string>
  {
    [IntText(mapSize), AlgorithmName, palette, IntText(randomSeed), IntText(heightMax), roughnessText]
  }

  /** The texts written over the template: setting `j` from column 15 on row `5 + j`. */
  function SettingsWrites(ss: seq<string>): (ws: seq<TextWrite>)
    ensures |ws| == |ss| && WritesOk(ws)
    ensures forall j :: 0 <= j < |ss| ==> ws[j] == TextWrite(SettingsColumn, SettingsFirstRow + j, ss[j])
  {
    seq(|ss|, j requires 0 <= j < |ss| => TextWrite(SettingsColumn, SettingsFirstRow + j, ss[j]))
  }

  /** The settings sit on distinct rows, so on a template with room for all
      of them no two share a tile. */
  lemma {:induction false} SettingsDisjoint(ss: seq<string>, height: int)
    requires SettingsFirstRow + |ss| <= height
    ensures WritesDisjoint(height, SettingsWrites(ss))
  {
    var ws := SettingsWrites(ss);
    forall j1, i1, j2, i2 | 0 <= j1 < j2 < |ws| && 0 <= i1 < |ws[j1].text| && 0 <= i2 < |ws[j2].text|
      ensures TextPos(height, ws[j1].col, ws[j1].row, i1) != TextPos(height, ws[j2].col, ws[j2].row, i2)
    {
      XpPosInjective(SettingsFirstRow + j1, SettingsColumn + i1, SettingsFirstRow + j2, SettingsColumn + i2, height);
    }
  }

  /** On a template with room for every setting, character `i` of setting
      `j` ends up in column `15 + i` of row `5 + j`, in the colours the
      template has in column 15 of that row. */
  lemma {:induction false} SettingsLayerText(t: XLayer, ss: seq<string>, j: int, i: int)
    requires TileListShape(|t.tiles|, t.height) && SettingsFirstRow + |ss| <= t.height
    requires OverlayAll(t.tiles, t.height, SettingsWrites(ss)).Ok?
    requires 0 <= j < |ss| && 0 <= i < |ss[j]|
    ensures var r, row := OverlayAll(t.tiles, t.height, SettingsWrites(ss)).value, SettingsFirstRow + j;
      XpPos(row, SettingsColumn, t.height) < |t.tiles| && 0 <= XpPos(row, SettingsColumn + i, t.height) < |r| &&
      r[XpPos(row, SettingsColumn + i, t.height)] == t.tiles[XpPos(row, SettingsColumn, t.height)].(code := ss[j][i] as int)
  {
    SettingsDisjoint(ss, t.height);
    OverlayAllHits(t.tiles, t.height, SettingsWrites(ss), j, i);
  }

  /** A file this `save_to_xp` completes reads back with `ParseXp` as three
      layers, and the first two, decoded as `load_from_xp` decodes a layer,
      both give the map itself when its glyphs are ASCII: the map
      round-trips through the file. */
  lemma LegacyMapRoundTrip(g: Grid, n: int, pal: Palette, template: Option<XLayer>, ss: seq<string>)
    requires ExportArgs(g, n, pal, LegacyKinds, template, SettingsWrites(ss)) && AsciiHeights(g, n)
    requires ExportFile(g, n, pal, LegacyKinds, template, SettingsWrites(ss)).Ok?
    ensures var ls := ParseXp(ExportFile(g, n, pal, LegacyKinds, template, SettingsWrites(ss)).value);
      ls.Some? && |ls.value| == 3 &&
      LayerOk(ls.value[0]) && AsciiGlyphs(ls.value[0]) && DecodeRows(ls.value[0], n) == (g, None) &&
      LayerOk(ls.value[1]) && AsciiGlyphs(ls.value[1]) && DecodeRows(ls.value[1], n) == (g, None)
  {
    ExportFileParses(g, n, pal, LegacyKinds, template, SettingsWrites(ss));
    GlyphLayerLoads(g, n, pal, GlyphOnBg);
    GlyphLayerLoads(g, n, pal, GlyphOnBlack);
  }

  /** With no capacity check in `generate`, a height above the palette's
      size reaches `save_to_xp`, whose colour lookup then fails with
      `KeyError` (once the settings fit on the template). */
  lemma TallMapFailsToSave(g: Grid, n: int, pal: Palette, template: Option<XLayer>, ss: seq<string>, y: int, x: int)
    requires ExportArgs(g, n, pal, LegacyKinds, template, SettingsWrites(ss))
    requires template.Some? && OverlayAll(template.value.tiles, template.value.height, SettingsWrites(ss)).Ok?
    requires forall yy, xx :: 0 <= yy < n && 0 <= xx < n ==> 1 <= g[yy][xx] && GlyphCode(g[yy][xx]) <= MaxCodePoint
    requires 0 <= y < n && 0 <= x < n && g[y][x] > |pal|
    ensures ExportFile(g, n, pal, LegacyKinds, template, SettingsWrites(ss)) == Err(KeyError)
  {
    GridLayerMissingKey(g, n, pal, GlyphOnBg, y, x);
    CollectFirstError(LayerResults(g, n, pal, LegacyKinds), 0);
  }

  class DiamondSquare {
    var mapSize: int
    const heightMin: int
    const heightMax: int
    const roughness: real
    /** `str(self.roughness)`, as the legend shows it. */
    const roughnessText: string
    const randomSeed: int
    const heightNil: int
    /** The random stream for each seed. */
    const rng: Seeded
    /** `legend_layer`: the first layer of the legend template, if the file has one. */
    const legendTemplate: Option<XLayer>
    var palette: string
    var paletteDict: Palette
    /** `mapping`: one colour pair per palette entry. */
    var mapping: seq<(Rgb, Rgb)>
    var heightMap: Grid
    var mapStr: seq<PyStr>

    /** What holds of every object: `randint` keeps to its range, the palette
        dictionary is one of the registry's and the template is well formed. */
    ghost predicate Valid()
      reads this
    {
      DrawsInRange(rng) && WellFormed(paletteDict) &&
      (legendTemplate.Some? ==> TemplateOk(legendTemplate.value))
    }

    /** `__init__`: a blank map (a negative size gives no rows), the
        requested palette or `landscape_16` when it is unknown. */
    constructor (mapSize: int, heightMin: int, heightMax: int, roughness: real, roughnessText: string,
                 randomSeed: int, heightNil: int, paletteName: string, template: Option<XLayer>, rng: Seeded)
      requires DrawsInRange(rng) && (template.Some? ==> TemplateOk(template.value))
      ensures Valid()
      ensures this.mapSize == mapSize && this.heightMin == heightMin && this.heightMax == heightMax
      ensures this.roughness == roughness && this.roughnessText == roughnessText
      ensures this.randomSeed == randomSeed && this.heightNil == heightNil && this.rng == rng
      ensures legendTemplate == template && mapStr == []
      ensures heightMap == Blank(if mapSize < 0 then 0 else mapSize, heightNil)
      ensures palette == ResolvePaletteName(paletteName)
      ensures Some(paletteDict) == LookupPalette(palette) && mapping == ColourPairs(paletteDict)
    {
      this.mapSize := mapSize;
      this.heightMin := heightMin;
      this.heightMax := heightMax;
      this.roughness := roughness;
      this.roughnessText := roughnessText;
      this.randomSeed := randomSeed;
      this.heightNil := heightNil;
      this.rng := rng;
      legendTemplate := template;
      heightMap := Blank(if mapSize < 0 then 0 else mapSize, heightNil);
      mapStr := [];
      palette := ResolvePaletteName(paletteName);
      paletteDict := Landscape16;
      mapping := [];
      new;
      LandscapesWellFormed();
      var _ := BuildPalette();
    }

    /** `build_palette`: the dictionary of `palette` and a colour pair per
        entry; `KeyError`, changing nothing, when the name is unknown. */
    method BuildPalette() returns (r: Result<seq<(Rgb, Rgb)>, PyError>)
      modifies this
      ensures mapSize == old(mapSize) && palette == old(palette) && heightMap == old(heightMap)
      ensures mapStr == old(mapStr)
      ensures match LookupPalette(palette)
        case None => r == Err(KeyError) && paletteDict == old(paletteDict) && mapping == old(mapping)
        case Some(pd) => paletteDict == pd && mapping == ColourPairs(pd) && r == Ok(mapping)
    {
      var pd := LookupPalette(palette);
      if pd.None? {
        return Err(KeyError);
      }
      paletteDict := pd.value;
      var m: seq<(Rgb, Rgb)> := [];
      for i := 0 to |paletteDict|
        invariant |m| == i && forall j :: 0 <= j < i ==> m[j] == (paletteDict[j].fg, paletteDict[j].bg)
      {
        m := m + [(paletteDict[i].fg, paletteDict[i].bg)];
      }
      mapping := m;
      return Ok(m);
    }

    /** `generate`: reseed, rebuild the palette and fill the map, with no
        check of the palette's size. The fill runs on the old map, yet
        leaves what a fill of a fresh map would. */
    method Generate() returns (err: Option<PyError>)
      requires Valid() && IsSquare(heightMap, mapSize) && ValidSize(mapSize)
      modifies this
      ensures Valid() && mapSize == old(mapSize) && palette == old(palette) && mapStr == old(mapStr)
      ensures match LookupPalette(palette)
        case None => err == Some(KeyError) && paletteDict == old(paletteDict) && mapping == old(mapping) &&
                     heightMap == old(heightMap)
        case Some(pd) =>
          paletteDict == pd && mapping == ColourPairs(pd) &&
          if heightMax < heightMin then err == Some(ValueError) && heightMap == old(heightMap)
          else err == None &&
               heightMap == Run(Blank(mapSize, heightNil), Params(mapSize, heightMin, heightMax),
                                roughness, rng(randomSeed), 0).grid
      ensures err.None? ==> IsSquare(heightMap, mapSize)
      ensures err.None? ==> forall y, x :: 0 <= y < mapSize && 0 <= x < mapSize ==> heightMin <= heightMap[y][x] <= heightMax
    {
      var built := BuildPalette();
      if built.Err? {
        return Some(built.error);
      }
      if heightMax < heightMin {
        // the first `randint(height_min, height_max)` raises
        return Some(ValueError);
      }
      var p := Params(mapSize, heightMin, heightMax);
      var rand := rng(randomSeed);
      var g, k := Fill(heightMap, p, roughness, rand, 0);
      assert CornerDrawsInRange(rand, 0, heightMin, heightMax);
      RunIgnoresPriorGrid(heightMap, Blank(mapSize, heightNil), p, roughness, rand, 0);
      RunWithinBounds(heightMap, p, roughness, rand, 0);
      FillIsRun(heightMap, p, roughness, rand, 0);
      heightMap := g;
      return None;
    }

    /** `convert_to_str`: one string of glyphs per row of the map. */
    method ConvertToStr() returns (err: Option<PyError>)
      modifies this
      ensures mapSize == old(mapSize) && palette == old(palette) && paletteDict == old(paletteDict)
      ensures mapping == old(mapping) && heightMap == old(heightMap)
      ensures (mapStr, err) == GlyphRows(heightMap, |heightMap|)
    {
      var rows;
      rows, err := ConvertRows(heightMap);
      mapStr := rows;
    }

    /** `get_palette_preview`: the colours of the named palette, or of the
        current one when no other is named. `palette` and `mapping` are put
        back, `palette_dict` is not; an unknown name raises `KeyError` and
        leaves `palette` set to it. */
    method GetPalettePreview(name: Option<string>) returns (r: Result<seq<(Rgb, Rgb)>, PyError>)
      requires Valid()
      modifies this
      ensures Valid() && mapSize == old(mapSize) && heightMap == old(heightMap)
      ensures mapStr == old(mapStr) && mapping == old(mapping)
      ensures name.None? || name.value == old(palette) ==>
        r == Ok(old(mapping)) && palette == old(palette) && paletteDict == old(paletteDict)
      ensures name.Some? && name.value != old(palette) ==>
        match LookupPalette(name.value)
        case None => r == Err(KeyError) && palette == name.value && paletteDict == old(paletteDict)
        case Some(pd) => r == Ok(ColourPairs(pd)) && palette == old(palette) && paletteDict == pd
    {
      if name.None? || name.value == palette {
        return Ok(mapping);
      }
      var oldPalette, oldMapping := palette, mapping;
      palette := name.value;
      var result := BuildPalette();
      if result.Err? {
        return result;
      }
      palette := oldPalette;
      mapping := oldMapping;
      return result;
    }

    /** The bytes `save_to_xp` writes once the map has its text form. */
    ghost function XpFile(): Result<seq<Byte>, PyError>
      requires Valid() && IsSquare(heightMap, mapSize) && 1 <= mapSize && IsInt32(mapSize)
      reads this
    {
      ExportFile(heightMap, mapSize, paletteDict, LegacyKinds, legendTemplate,
                 SettingsWrites(Settings(mapSize, palette, randomSeed, heightMax, roughnessText)))
    }

    /** `save_to_xp`, returning the file's bytes: the map is converted to
        text first when it has no text yet (which can fail first); the
        palette file it also writes is `SavePalette`'s. */
    method SaveToXp() returns (r: Result<seq<Byte>, PyError>)
      requires Valid() && IsSquare(heightMap, mapSize) && 1 <= mapSize && IsInt32(mapSize)
      modifies this
      ensures Valid() && mapSize == old(mapSize) && palette == old(palette) && paletteDict == old(paletteDict)
      ensures mapping == old(mapping) && heightMap == old(heightMap)
      ensures |old(mapStr)| > 0 ==> mapStr == old(mapStr) && r == XpFile()
      ensures |old(mapStr)| == 0 ==>
        var conv := GlyphRows(heightMap, |heightMap|);
        mapStr == conv.0 && r == if conv.1.Some? then Err(conv.1.value) else XpFile()
    {
      if |mapStr| == 0 {
        var err := ConvertToStr();
        if err.Some? {
          return Err(err.value);
        }
      }
      r := ExportXp(heightMap, mapSize, paletteDict, LegacyKinds, legendTemplate,
                    SettingsWrites(Settings(mapSize, palette, randomSeed, heightMax, roughnessText)));
    }

    /** `save_palette`, returning the file's name and contents. */
    method SavePalette() returns (fileName: string, text: string)
      ensures fileName == PaletteFileName(palette, paletteDict) && text == PaletteText(paletteDict)
    {
      fileName := PaletteFileName(palette, paletteDict);
      text := BuildPaletteText(paletteDict);
    }

    /** `load_from_xp` on the layers the file holds: nothing happens for a
        file without layers; otherwise the map size becomes the first
        layer's larger side and the map its decoded rows, up to the first
        tile that fails. */
    method LoadFromXp(layers: seq<XLayer>) returns (err: Option<PyError>)
      requires |layers| > 0 ==> LayerOk(layers[0]) && AsciiGlyphs(layers[0])
      modifies this
      ensures palette == old(palette) && paletteDict == old(paletteDict) && mapping == old(mapping)
      ensures mapStr == old(mapStr)
      ensures |layers| == 0 ==> err == None && mapSize == old(mapSize) && heightMap == old(heightMap)
      ensures |layers| > 0 ==>
        mapSize == (if layers[0].width >= layers[0].height then layers[0].width else layers[0].height) &&
        (heightMap, err) == DecodeRows(layers[0], layers[0].width)
    {
      if |layers| == 0 {
        return None;
      }
      var l := layers[0];
      mapSize := if l.width >= l.height then l.width else l.height;
      var rows;
      rows, err := LoadRows(l);
      heightMap := rows;
    }
  }
}
