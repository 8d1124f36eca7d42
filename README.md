# tui-map-generator: the `DiamondSquare` height-map generator in Dafny

This project models the core of tui-map-generator, the `DiamondSquare` class. The class:

- fills a square height map of side `2^k + 1` with the diamond-square algorithm;
- colours the map with a named palette;
- writes the map as a REXPaint `.xp` image with a legend, as a REXPaint palette text and as PNG pixels;
- reads a map back from the first layer of an `.xp` image.

The class exists in two copies:

- `src/tui_map_generator/diamond_square.py`, which the command line uses;
- `tui_map_generator/tui_map_generator.py`, an older copy. It has no palette-size check in `generate`. Its `save_to_xp` writes the glyphs into two map layers and the six setting values from column 15.

The logic both copies share is modelled once. Each copy's class is modelled in its own module.

Modules:

- `Wrappers`, `Errors`: `Option`/`Result`, and the Python exceptions the code can raise: `KeyError`, `ValueError` (`chr` out of range, `randint` with an empty range), `IndexError`, `TypeError` (`ord` of a glyph that is not one character), `AttributeError` (no legend layer loaded), and the `Exception` raised for a palette that is too small.
- `Arith`: integer facts about powers of two, alignment and remainders.
- `Rounding`: `round_and_clamp` over `real`.
- `Palettes`: the palette registry (`PALETTES_DICT`), `build_default_palette`, the name fallback, and the lookup of a height's entry.
- `Stages`, `Terrain`: the diamond-square fill.
  - It is written as specification functions over a grid plus a position in the random stream.
  - It is also written as the imperative methods `SetCorners`, `DiamondStepLoops`, `SquareStepLoops`, `LevelLoop` and `Fill`, each proved equal to its function.
- `Independence`: the fill leaves every cell in `[height_min, height_max]`, and it never depends on what the grid held before.
- `XpCodec`: little-endian int32s, tiles (an int32 glyph plus six colour bytes), layers, files, and a reader proved to invert the writer.
- `XpLayers`:
  - `xp_pos` and column-major tile order;
  - the map layers and their streaming method;
  - the `text_to_tiles` overlay, on an array;
  - the tile-to-height decoding of `load_from_xp`.
- `TextFormats`:
  - `convert_to_str`, with a Python `str` as its sequence of code points;
  - `str` of an integer;
  - the `save_palette` text with a parser that inverts it.
- `XpExport`: the bytes `save_to_xp` writes, as one function, and the method that streams them.
- `MapGenerator`: the class of `diamond_square.py` with its legend dictionary and PNG pixel mapping.
- `LegacyGenerator`: the class of `tui_map_generator.py`.

The model covers these parts of the system:

- **Randomness.** `random.seed(s)` followed by `random.randint(a, b)` calls is a function value.
  - `rng(s)(k, a, b)` is the `k`-th draw after seeding with `s`.
  - The only property used is that a draw lies in `[a, b]`.
  - The fill takes four corner draws in `[height_min, height_max]` (top-left, top-right, bottom-left, bottom-right), then one draw in `{-1, 0, 1}` per cell it writes.
  - The result is therefore a function of the draw stream.
- **Quirks modelled as written:**
  - The square step tests its left and upper neighbours with a strict `> 0`, so a left neighbour in column 0 or an upper neighbour in row 0 is never averaged, and cell `(0, 0)` never feeds a square step. Its right and lower neighbours are tested with `< N`, so column and row `N - 1` are admitted.
  - `generate` throws away the fresh grid of `init_height_map` and fills the old one. `Independence.RunIgnoresPriorGrid` shows this does not change the result.
  - `save_to_xp` in `diamond_square.py` writes a blank glyph into the map layer. Read back with the model's XP reader and decoded as `load_from_xp` decodes a layer, that layer gives `-32` in every cell (`MapGenerator.SavedMapLoadsBlank`).
  - `get_palette_preview` restores `palette` and `mapping` but not `palette_dict`. For an unknown name it raises before restoring anything.
- **Numbers and formats:**
  - Python `float` arithmetic is modelled on `real`.
  - `str(self.roughness)` is an input string (`roughnessText`).
  - `struct.pack("i")` is taken as a little-endian int32.
  - The strings of `convert_to_str` are sequences of code points (`TextFormats.PyStr`), so every code `chr` accepts, lone surrogates included, is representable.

## Model

| member | source | states |
|---|---|---|
| Rounding.RoundAndClamp | src/tui_map_generator/diamond_square.py:175-187 | the result lies in `[height_min, height_max]` whenever `height_min <= height_max` |
| Rounding.RoundHalfUpIsFloorOfHalfMore | src/tui_map_generator/diamond_square.py:176-180 | taking the floor only when it is strictly closer than the ceiling is `floor(v + 0.5)` |
| Rounding.RoundHalfUpNearest | src/tui_map_generator/diamond_square.py:176-180 | the rounded value is within half a unit of `v`, and a tie goes to the ceiling |
| Rounding.RoundAndClampCases | src/tui_map_generator/diamond_square.py:182-187 | an in-range rounded value is kept, a value at or below `height_min` gives `height_min`, one at or above `height_max` gives `height_max` |
| Rounding.TiesRoundUp | src/tui_map_generator/diamond_square.py:176-187 | 2.5 rounds to 3, and -0.5 rounds to 0 and is then clamped to 1 |
| Palettes.StepFits | src/tui_map_generator/diamond_square.py:107 | `S * (255 // S)` stays within 255 |
| Palettes.ShadeIsByte | src/tui_map_generator/diamond_square.py:107-112 | every background component `i * (255 // S) * mask` is a byte |
| Palettes.ShadeMonotone | src/tui_map_generator/diamond_square.py:107-112 | later entries are never darker, component by component |
| Palettes.BuildDefaultPalette | src/tui_map_generator/diamond_square.py:106-114 | exactly `S` entries, entry `i` keyed `chr(65 + i)` with a white foreground and background `i * (255 // S) * mask` |
| Palettes.LookupPalette | src/tui_map_generator/diamond_square.py:45-103 | a palette exists exactly for the registry's names, is well formed and has 4, 8, 16, 32, 64 or 128 entries |
| Palettes.LandscapesWellFormed | src/tui_map_generator/diamond_square.py:47-82 | the three literal `landscape_*` tables are keyed `A`, `B`, ... with byte colours |
| Palettes.ResolvePaletteName | src/tui_map_generator/diamond_square.py:147-150 | a known name is kept and an unknown one selects `landscape_16` |
| Palettes.Find | src/tui_map_generator/diamond_square.py:330 | a dictionary lookup finds an entry with that key, or reports that no entry has it |
| Palettes.FindKeyedFrom | src/tui_map_generator/diamond_square.py:327-330 | in a palette keyed consecutively from code `o`, key `k` finds entry `k - o`, and no other key finds anything |
| Palettes.EntryForHeightIndex | src/tui_map_generator/diamond_square.py:327-330 | height `h` has an entry exactly when `1 <= h <= len(palette)`, and that entry is number `h - 1` |
| Terrain.NeighbourCount | src/tui_map_generator/diamond_square.py:238-251 | the square step averages 1 to 4 neighbours, and 4 exactly when both neighbours on each axis lie strictly inside (index above 0, below `N`) |
| Terrain.Corners | src/tui_map_generator/diamond_square.py:206-209 | the four corner draws keep the grid square and consume four draws |
| Terrain.DiamondStep | src/tui_map_generator/diamond_square.py:216-232 | one diamond-step write keeps the grid square and consumes one draw |
| Terrain.SquareStep | src/tui_map_generator/diamond_square.py:238-254 | one square-step write keeps the grid square and consumes one draw |
| Terrain.RowStartIsResidue | src/tui_map_generator/diamond_square.py:235-236 | a square-step row starts at `(y + half) % chunk` |
| Terrain.ScalarClosedForm | src/tui_map_generator/diamond_square.py:204-257 | after `L` levels the scalar is `roughness / 2^L`, floored at 0.1, and never below 0.1 |
| Terrain.DiamondCell | src/tui_map_generator/diamond_square.py:216-232 | the method writes the centre as the diamond-step function does |
| Terrain.DiamondRowLoop | src/tui_map_generator/diamond_square.py:215-232 | the inner loop's grid and draw count are those of the diamond row function |
| Terrain.DiamondStepLoops | src/tui_map_generator/diamond_square.py:214-232 | the nested diamond loops compute the diamond pass |
| Terrain.SquareCell | src/tui_map_generator/diamond_square.py:238-254 | the method writes the edge cell as the square-step function does |
| Terrain.SquareRowLoop | src/tui_map_generator/diamond_square.py:235-254 | the inner loop's grid and draw count are those of the square row function |
| Terrain.SquareStepLoops | src/tui_map_generator/diamond_square.py:234-254 | the nested square loops compute the square pass |
| Terrain.SetCorners | src/tui_map_generator/diamond_square.py:206-209 | the corner writes compute `Corners` |
| Terrain.LevelLoop | src/tui_map_generator/diamond_square.py:211-257 | the `while chunk_size > 1` loop, halving the chunk and the scalar, computes `Levels` |
| Terrain.Fill | src/tui_map_generator/diamond_square.py:203-259 | `diamond_square` is the corner draws followed by the levels |
| Independence.DiamondRuleIsOk | src/tui_map_generator/diamond_square.py:221-232 | a centre value depends only on its four corners and lies in range |
| Independence.SquareRuleIsOk | src/tui_map_generator/diamond_square.py:238-254 | an edge value depends only on its settled neighbours and lies in range |
| Independence.DiamondPassSettles | src/tui_map_generator/diamond_square.py:214-232 | two runs that agree on the lattice agree on every centre after the diamond pass |
| Independence.SquarePassSettles | src/tui_map_generator/diamond_square.py:234-254 | two runs that agree on lattice and centres agree on every edge after the square pass |
| Independence.LevelsSettle | src/tui_map_generator/diamond_square.py:211-257 | two runs that agree on the top lattice end equal, with every cell in range |
| Independence.CornersSettle | src/tui_map_generator/diamond_square.py:206-209 | from any two grids, the corner draws give the same in-range corners |
| Independence.RunIgnoresPriorGrid | src/tui_map_generator/diamond_square.py:192-201 | the fill's result does not depend on the grid it starts from, so filling the old map equals filling a fresh one |
| Independence.RunWithinBounds | src/tui_map_generator/diamond_square.py:206-257 | after `diamond_square` every cell lies in `[height_min, height_max]` |
| Independence.RunSettles | src/tui_map_generator/diamond_square.py:203-259 | two fills from any grids are equal and in range |
| XpCodec.FromLeBytes | src/tui_map_generator/diamond_square.py:392-395 | reading back `k` little-endian bytes of `u < 256^k` gives `u` |
| XpCodec.LeBytesFrom | src/tui_map_generator/diamond_square.py:392-395 | writing back the value read from a byte string gives that string |
| XpCodec.Int32RoundTrip | src/tui_map_generator/diamond_square.py:392-395 | `struct.pack("i", v)` is inverted by reading a signed int32 |
| XpCodec.Int32Onto | src/tui_map_generator/diamond_square.py:392-395 | every 4-byte string is the packing of some int32 |
| XpCodec.TilesBytesAppend | src/tui_map_generator/diamond_square.py:427-439 | tiles are written one after another, 10 bytes each |
| XpCodec.ParseTileOf | src/tui_map_generator/diamond_square.py:428-439 | a tile's glyph and six colour bytes read back as that tile |
| XpCodec.ParseTilesOf | src/tui_map_generator/diamond_square.py:427-439 | a run of tiles reads back as those tiles |
| XpCodec.ParseLayerOf | src/tui_map_generator/diamond_square.py:425-439 | width, height and tiles of a layer read back as that layer |
| XpCodec.ParseLayersOf | src/tui_map_generator/diamond_square.py:397-439 | consecutive layers read back in order |
| XpCodec.ParseXpOf | src/tui_map_generator/diamond_square.py:392-439 | a file with header `1, layers` reads back as its layers |
| XpLayers.XpPosInverse | src/tui_map_generator/diamond_square.py:479-480 | `xp_pos(x, y) % height == x` and `xp_pos(x, y) // height == y` for `x < height` |
| XpLayers.XpPosInRange | src/tui_map_generator/diamond_square.py:479-480 | positions inside a `width`-by-`height` layer index its tile list |
| XpLayers.ColumnMajorAt | src/tui_map_generator/diamond_square.py:398-401 | cell `height_map[y][x]` is emitted as tile `x * N + y` |
| XpLayers.ColumnMajorCell | src/tui_map_generator/diamond_square.py:398-401 | every emitted tile is some cell `(y, x)` at position `x * N + y` |
| XpLayers.GridTiles | src/tui_map_generator/diamond_square.py:398-410 | the map tiles exist exactly when every height has a glyph and a palette entry, and each is that height's tile |
| XpLayers.GridTilesFirstError | src/tui_map_generator/diamond_square.py:398-410 | the error raised is the first failing cell's, in write order |
| XpLayers.EmitColumn | src/tui_map_generator/diamond_square.py:399-410 | the inner loop appends one column's tile bytes or stops at the column's first error |
| XpLayers.EmitGridLayer | src/tui_map_generator/diamond_square.py:394-410 | the nested loops write exactly the bytes of the map tiles, or raise the first cell's error |
| XpLayers.OverlayTextSpec | src/tui_map_generator/diamond_square.py:443-449 | char `i` lands at `xp_pos(start_y, start_x + i)` carrying the start tile's colours, and every other tile is unchanged |
| XpLayers.OverlayTextHits | src/tui_map_generator/diamond_square.py:444-449 | every written tile takes its character and the start tile's colours |
| XpLayers.OverlayTextKeeps | src/tui_map_generator/diamond_square.py:446-449 | tiles outside the text keep their value |
| XpLayers.TextToTiles | src/tui_map_generator/diamond_square.py:443-449 | the array after the loop is the overlay of the array before |
| XpLayers.WriteTextOk | src/tui_map_generator/diamond_square.py:446-449 | the overlay keeps every tile well formed |
| XpLayers.OverlayAllOk | src/tui_map_generator/diamond_square.py:383-387 | writing all legend texts keeps the tile list's shape and tiles well formed |
| XpLayers.OverlayLoop | src/tui_map_generator/diamond_square.py:383-387 | the legend loop computes the overlay of all texts, or stops with `IndexError` where a text runs off the tile list |
| XpLayers.XpPosInjective | src/tui_map_generator/diamond_square.py:479-480 | two different positions `(x, y)` with `x < height` never share a tile index |
| XpLayers.OverlayAllKeeps | src/tui_map_generator/diamond_square.py:383-449 | after the legend loop, a tile that no text covers keeps its value, and the tile list keeps its length |
| XpLayers.OverlayAllHits | src/tui_map_generator/diamond_square.py:383-449 | when no two texts share a tile, character `i` of text `j` ends at `xp_pos(row, col + i)` with the colours of that text's start tile in the template |
| XpLayers.GlyphHeightOfCode | src/tui_map_generator/diamond_square.py:526 | decoding glyph `64 + h` gives `h` back |
| XpLayers.DecodeRow | src/tui_map_generator/diamond_square.py:506-527 | a decoded row holds each tile's height in order, or the first failing tile's error |
| XpLayers.DecodeRows | src/tui_map_generator/diamond_square.py:504-528 | the rows decoded before the first failure, each a full decoded row |
| XpLayers.LoadRow | src/tui_map_generator/diamond_square.py:505-527 | the inner decode loop computes the decoded row |
| XpLayers.LoadRows | src/tui_map_generator/diamond_square.py:504-528 | the outer decode loop computes the decoded rows |
| XpLayers.DecodeRowsOf | src/tui_map_generator/diamond_square.py:504-528 | a layer whose every tile decodes to the wanted grid's cell decodes to that grid |
| XpLayers.GridLayerOk | src/tui_map_generator/diamond_square.py:394-410 | a written map layer is a well-formed layer |
| XpLayers.GlyphLayerLoads | tui_map_generator/tui_map_generator.py:324-342 | a map layer with the heights' glyphs decodes back to the map |
| XpLayers.SpaceLayerLoads | src/tui_map_generator/diamond_square.py:398-410 | a map layer of blank glyphs decodes to `-32` everywhere |
| TextFormats.DigitsValueOfNatText | src/tui_map_generator/diamond_square.py:386 | the decimal text `str` gives for a natural number reads back as that number |
| TextFormats.TakeNatText | src/tui_map_generator/diamond_square.py:460 | the digits of a number followed by a non-digit parse as that number |
| TextFormats.TakeIntText | src/tui_map_generator/diamond_square.py:386 | `str` of any integer, sign included, parses back as that integer |
| TextFormats.GlyphChar | src/tui_map_generator/diamond_square.py:266 | `chr(64 + h)` succeeds exactly when `0 <= 64 + h <= 0x10FFFF`, and otherwise raises `ValueError`; the code point decodes back to `h` |
| TextFormats.GlyphRow | src/tui_map_generator/diamond_square.py:264-268 | a row's text exists exactly when every glyph code lies in `0 .. 0x10FFFF`, and holds one glyph per height |
| TextFormats.GlyphRows | src/tui_map_generator/diamond_square.py:262-269 | the rows converted before the first failing one, each its row's glyphs |
| TextFormats.GlyphRowsDecode | src/tui_map_generator/diamond_square.py:261-269 | conversion succeeds exactly when every code lies in `0 .. 0x10FFFF`, and then gives one string per row, in row order, each character decoding to its height |
| TextFormats.ConvertRow | src/tui_map_generator/diamond_square.py:264-268 | the inner loop computes the row's glyphs |
| TextFormats.ConvertRows | src/tui_map_generator/diamond_square.py:261-269 | the outer loop computes the map's rows |
| TextFormats.PadColours | src/tui_map_generator/diamond_square.py:465-467 | a line keeps all the palette's colours and is padded with black up to 16, never truncated |
| TextFormats.CellsTextAppend | src/tui_map_generator/diamond_square.py:458-462 | the text of a colour list is the concatenation of its entries' `{r,g,b}\t` |
| TextFormats.PadLine | src/tui_map_generator/diamond_square.py:458-467 | a padded line is the palette's entries followed by `{0,0,0}\t` up to 16 entries |
| TextFormats.BuildLine | src/tui_map_generator/diamond_square.py:458-467 | the loop builds the padded colour line |
| TextFormats.BuildPaletteText | src/tui_map_generator/diamond_square.py:451-473 | the method builds the palette file's text |
| TextFormats.PaletteTextLines | src/tui_map_generator/diamond_square.py:470-473 | the text splits into the fg line six times, then the bg line six times, the last without a newline |
| TextFormats.ParseCellsText | src/tui_map_generator/diamond_square.py:460-462 | a colour line parses back as its colours |
| TextFormats.PaletteTextRoundTrip | src/tui_map_generator/diamond_square.py:451-473 | the palette text parses back as the padded foreground and background colours |
| XpExport.Collect | src/tui_map_generator/diamond_square.py:397-422 | the layers exist exactly when each does, and otherwise the first error is raised |
| XpExport.CollectFirstError | src/tui_map_generator/diamond_square.py:397-422 | the error raised is the first failing layer's |
| XpExport.GridLayersOk | src/tui_map_generator/diamond_square.py:397-422 | every written map layer is well formed |
| XpExport.GridLayerInPalette | src/tui_map_generator/diamond_square.py:398-410 | a map whose heights all have palette entries writes its layer without error |
| XpExport.GridLayersInPalette | src/tui_map_generator/diamond_square.py:397-422 | such a map writes all its layers without error |
| XpExport.GridLayerMissingKey | src/tui_map_generator/diamond_square.py:400-407 | a height above the palette's size makes the colour lookup raise `KeyError` |
| XpExport.ExportLayers | src/tui_map_generator/diamond_square.py:367-439 | the layers written are well formed: the map layers first, then the legend layer |
| XpExport.ExportFileParses | src/tui_map_generator/diamond_square.py:389-439 | a written file needs a template and reads back as the map layers followed by the overlaid template |
| XpExport.OverlayCopy | src/tui_map_generator/diamond_square.py:381-387 | a fresh copy of the template, overlaid, or the overlay's error |
| XpExport.EmitGridLayers | src/tui_map_generator/diamond_square.py:397-422 | the loop over map layers writes exactly their bytes, or stops with the first error |
| XpExport.EmitTiles | src/tui_map_generator/diamond_square.py:427-439 | the legend loop writes exactly the tiles' bytes |
| XpExport.ExportXp | src/tui_map_generator/diamond_square.py:367-439 | the method's bytes or error are those of the file function |
| MapGenerator.Lookup | src/tui_map_generator/diamond_square.py:359-365 | a key has a value exactly when the dictionary holds it |
| MapGenerator.SetEntry | src/tui_map_generator/diamond_square.py:359-365 | assigning a present key keeps the key order, and assigning a new key appends it |
| MapGenerator.SetEntryLookup | src/tui_map_generator/diamond_square.py:359-365 | after `d[key] = value`, `d[key]` is `value` and every other key keeps its value |
| MapGenerator.LegendDictSettles | src/tui_map_generator/diamond_square.py:359-365 | from an empty or already filled legend, the six assignments give exactly the six current entries |
| MapGenerator.LegendWrites | src/tui_map_generator/diamond_square.py:383-387 | entry `j`'s label is written at column 0 and its value at column 17, both on row `4 + j` |
| MapGenerator.LegendLabelsFit | src/tui_map_generator/diamond_square.py:359-365 | every label of the legend dictionary is shorter than the value column 17, so a label never reaches its value |
| MapGenerator.LegendDisjoint | src/tui_map_generator/diamond_square.py:383-387 | with labels no longer than 17 and one row per entry, no two legend texts share a tile |
| MapGenerator.LegendLabelText | src/tui_map_generator/diamond_square.py:383-387 | after the loop, character `i` of label `j` is at column `i` of row `4 + j`, in the colours of the template tile at column 0 of that row |
| MapGenerator.LegendValueText | src/tui_map_generator/diamond_square.py:383-387 | after the loop, character `i` of value `j` is at column `17 + i` of row `4 + j`, in the colours of the template tile at column 17 of that row |
| MapGenerator.PngImageColours | src/tui_map_generator/diamond_square.py:321-330 | the image exists exactly when every height has a palette entry, and pixel `(y, x)` is that entry's background |
| MapGenerator.PaintColumn | src/tui_map_generator/diamond_square.py:325-330 | the inner loop paints one column, or stops with the first cell's error |
| MapGenerator.PaintImage | src/tui_map_generator/diamond_square.py:321-330 | the nested loops paint the image, or raise the first cell's error in the source's order |
| MapGenerator.GeneratedMapSaves | src/tui_map_generator/diamond_square.py:196-200 | for a map whose heights all have palette entries, saving fails only when the legend does not fit the template |
| MapGenerator.SavedMapLoadsBlank | src/tui_map_generator/diamond_square.py:403 | the map layer of a file this `save_to_xp` wrote, read back with `ParseXp` and decoded as `load_from_xp` decodes a layer, gives `-32` in every cell |
| MapGenerator.DiamondSquare.constructor | src/tui_map_generator/diamond_square.py:122-152 | the fields take the arguments, the map is blank and the palette is resolved and built |
| MapGenerator.DiamondSquare.BuildPalette | src/tui_map_generator/diamond_square.py:154-164 | `palette_dict` and `mapping` come from the named palette, or `KeyError` leaves them unchanged |
| MapGenerator.DiamondSquare.Generate | src/tui_map_generator/diamond_square.py:192-206 | an unknown palette raises `KeyError`, a palette with fewer colours than `height_max` raises, and `height_min > height_max` raises `ValueError` at the first `randint`, each before the map changes; otherwise the map is the fill of a fresh map, with every cell in range |
| MapGenerator.DiamondSquare.ConvertToStr | src/tui_map_generator/diamond_square.py:261-269 | `map_str` holds the converted rows, or the rows before the first failing one along with its error |
| MapGenerator.DiamondSquare.GetPalettePreview | src/tui_map_generator/diamond_square.py:289-299 | gives the current or the named palette's colours; `palette` and `mapping` are restored and `palette_dict` is not |
| MapGenerator.DiamondSquare.GenerateLegendDict | src/tui_map_generator/diamond_square.py:359-365 | the legend holds the six current entries |
| MapGenerator.DiamondSquare.SaveToXp | src/tui_map_generator/diamond_square.py:367-441 | the bytes are the file of the map, the palette and the legend entries present when it is called |
| MapGenerator.DiamondSquare.SavePalette | src/tui_map_generator/diamond_square.py:451-477 | the file name `<palette>_<size>_SSiS.txt` and the palette text |
| MapGenerator.DiamondSquare.SaveToPng | src/tui_map_generator/diamond_square.py:318-357 | pixel `(y, x)` is the background of the cell's entry, and the legend is filled; or the first cell's error |
| MapGenerator.DiamondSquare.LoadFromXp | src/tui_map_generator/diamond_square.py:493-528 | without layers nothing changes; otherwise the size is the first layer's larger side and the map its decoded rows |
| LegacyGenerator.SettingsDisjoint | tui_map_generator/tui_map_generator.py:307-313 | with one row per setting, no two settings share a tile |
| LegacyGenerator.SettingsLayerText | tui_map_generator/tui_map_generator.py:299-313 | after the loop, character `i` of setting `j` is at column `15 + i` of row `5 + j`, in the colours of the template tile at column 15 of that row |
| LegacyGenerator.LegacyMapRoundTrip | tui_map_generator/tui_map_generator.py:318-342 | the file reads back with `ParseXp` as three layers, and both map layers, decoded as `load_from_xp` decodes a layer, give the map |
| LegacyGenerator.TallMapFailsToSave | tui_map_generator/tui_map_generator.py:184-189 | with no capacity check, a height above the palette's size makes `save_to_xp` raise `KeyError` |
| LegacyGenerator.DiamondSquare.constructor | tui_map_generator/tui_map_generator.py:119-151 | the fields take the arguments, the map is blank and the palette is resolved and built |
| LegacyGenerator.DiamondSquare.BuildPalette | tui_map_generator/tui_map_generator.py:153-160 | `palette_dict` and `mapping` come from the named palette, or `KeyError` leaves them unchanged |
| LegacyGenerator.DiamondSquare.Generate | tui_map_generator/tui_map_generator.py:184-194 | with no palette-size check, an unknown palette raises `KeyError` and `height_min > height_max` raises `ValueError` at the first `randint`, both before the map changes; otherwise the map is the fill of a fresh map with every cell in range |
| LegacyGenerator.DiamondSquare.ConvertToStr | tui_map_generator/tui_map_generator.py:241-250 | `map_str` holds the converted rows, or the rows before the first failing one along with its error |
| LegacyGenerator.DiamondSquare.GetPalettePreview | tui_map_generator/tui_map_generator.py:270-280 | gives the current or the named palette's colours; `palette` and `mapping` are restored and `palette_dict` is not |
| LegacyGenerator.DiamondSquare.SaveToXp | tui_map_generator/tui_map_generator.py:290-351 | the map is converted to text first when it has none, and the bytes are the three-layer file with the settings overlay |
| LegacyGenerator.DiamondSquare.SavePalette | tui_map_generator/tui_map_generator.py:353-377 | the file name `<palette>_<size>_SSiS.txt` and the palette text |
| LegacyGenerator.DiamondSquare.LoadFromXp | tui_map_generator/tui_map_generator.py:396-438 | without layers nothing changes; otherwise the size is the first layer's larger side and the map its decoded rows |

## Left out

- The Mersenne Twister behind `random.seed` and `random.randint` is not modelled. The stream of draws is a parameter, and the only assumption is that each draw lies in its range.
- Python `float` arithmetic is modelled on `real`, so float rounding in `sum / 4 + k * scalar` is not captured. `str(self.roughness)` is taken as a given string.
- Console output is left out: the Rich console, `print_height_map`, and the `Segment`/`Style` objects. `mapping` is a list of colour pairs.
- `save_to_json` is left out, because it is JSON formatting and file output only.
- File I/O, `Path` handling and `map_name` are left out. The methods return the bytes or the text that would be written.
- When `save_to_xp` raises inside `with open(file_name, "wb")` (a `KeyError`, `ValueError` or `AttributeError`), the source leaves a truncated file behind. It holds the header and the tiles written before the failing cell, and it replaces any earlier file of that name. `ExportFile` returns only the error, so that partial file is not modelled.
- In `save_to_png`, the `Image.resize` call and the PNG metadata are left out. The image is modelled up to the pixel mapping.
- `pyrexpaint.load` is a foreign parser and is not modelled.
  - The round-trip lemmas read files back with the model's own reader `XpCodec.ParseXp`, which stands in for it.
  - The legend template and the layers of a loaded file are inputs.
  - `TemplateOk` requires every template glyph to be one non-NUL character, as `ord` needs.
  - `AsciiGlyphs` requires glyph codes below 128, where cp437 is the identity. The rest of cp437 is not modelled.
- `struct.pack("i")` uses the platform's byte order; the model fixes it as little-endian.
- The colour catalogue that `load_from_xp` builds (`colors_map`, `p`) is never used, so it is not modelled. Nor are the `image_layers` and `xp_layer` attributes that method stores.
- The strings `convert_to_str` builds are sequences of code points rather than Dafny `string`s, because `chr` can return a lone surrogate, which a Dafny `char` cannot hold.
- The palette file that the older `save_to_xp` writes as a side effect is `LegacyGenerator.DiamondSquare.SavePalette`. It is not repeated in `SaveToXp`'s result.
- The command-line layer in `src/tui_map_generator/__main__.py` is not part of this model. Its ranges (sizes 9 to 129 of the form `2^k + 1`) appear as the `ValidSize` precondition of `Generate`.
- MapGenerator.DiamondSquare.Generate: requires a square map whose side is `2^k + 1` (at least 2), the sizes the command line offers. Other sides are not modelled. Some of them make the source raise `IndexError`, and others leave cells unwritten.
- LegacyGenerator.DiamondSquare.Generate: requires the same, for the same reason.
- MapGenerator.DiamondSquare.SaveToXp: requires a non-empty square map whose side fits in an int32. The source raises `IndexError` on an empty map at `len(self.height_map[0])`, and `struct.error` on a side beyond int32.
- LegacyGenerator.DiamondSquare.SaveToXp: requires the same.
- MapGenerator.DiamondSquare.SaveToPng: requires a non-empty square map. The source raises `IndexError` on an empty map.
- MapGenerator.DiamondSquare.LoadFromXp: requires the first layer to be well formed with ASCII glyphs. This is the cp437 and `pyrexpaint` restriction above.
- LegacyGenerator.DiamondSquare.LoadFromXp: requires the same.
