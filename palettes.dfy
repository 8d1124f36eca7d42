/** The palette registry shared by both copies of the generator: the
    formula-built ramps, the three hand-made landscape tables, lookup by
    name with its fallback, and lookup of a height's entry by its symbol. */
module Palettes {
  import opened Wrappers

  datatype Rgb = Rgb(r: int, g: int, b: int)

  const White := Rgb(255, 255, 255)
  const Black := Rgb(0, 0, 0)

  predicate IsByte(v: int) { 0 <= v < 256 }

  /** Every component fits the `B` field of `struct.pack`. */
  predicate ByteRgb(c: Rgb) { IsByte(c.r) && IsByte(c.g) && IsByte(c.b) }

  /** One palette entry: the dictionary key (a one-letter symbol) with its colours. */
  datatype Entry = Entry(symbol: char, fg: Rgb, bg: Rgb)

  /** A palette dictionary, in insertion order. */
  type Palette = seq<Entry>

  /** `ord(FIRST_MAP_CHAR)`. */
  const FirstMapCode := 65

  /** `chr(ord(FIRST_MAP_CHAR) + i)`, the key of the entry with 0-based index `i`. */
  function KeyAt(i: nat): char
    requires FirstMapCode + i < 0xD800
  {
    (FirstMapCode + i) as char
  }

  /** The keys are `'A', 'B', ...` in order, as every built-in palette has them. */
  predicate WellKeyed(p: Palette)
  {
    FirstMapCode + |p| <= 0xD800 &&
    forall i :: 0 <= i < |p| ==> p[i].symbol == KeyAt(i)
  }

  predicate ByteColours(p: Palette)
  {
    forall i :: 0 <= i < |p| ==> ByteRgb(p[i].fg) && ByteRgb(p[i].bg)
  }

  /** What every palette of the registry satisfies. */
  predicate WellFormed(p: Palette)
  {
    1 <= |p| && WellKeyed(p) && ByteColours(p)
  }

  /** A hue mask such as `[1, 0, 1]` for magenta. */
  predicate IsMask(m: Rgb)
  {
    (m.r == 0 || m.r == 1) && (m.g == 0 || m.g == 1) && (m.b == 0 || m.b == 1)
  }

  lemma MulMonotone(a: int, b: int, q: int)
    requires 0 <= a <= b && 0 <= q
    ensures 0 <= a * q <= b * q
  {
  }

  /** `255 // shades` shades never pass 255. */
  lemma StepFits(shades: int)
    requires 1 <= shades
    ensures 0 <= 255 / shades && shades * (255 / shades) <= 255
  {
    assert shades * (255 / shades) + 255 % shades == 255;
  }

  /** One channel of a shade: `v * colors[c]` with a 0/1 mask component. */
  function Tint(v: int, m: int): (r: int)
    requires m == 0 || m == 1
    ensures r == if m == 1 then v else 0
  {
    v * m
  }

  /** The background of shade `i` when the ramp advances by `step`. */
  function ShadeBg(i: int, step: int, mask: Rgb): Rgb
    requires IsMask(mask)
  {
    var v := i * step;
    Rgb(Tint(v, mask.r), Tint(v, mask.g), Tint(v, mask.b))
  }

  /** Shade `i` of a ramp of `shades` fits in a byte on every channel. */
  lemma ShadeIsByte(i: int, shades: int, mask: Rgb)
    requires 0 <= i < shades && IsMask(mask)
    ensures ByteRgb(ShadeBg(i, 255 / shades, mask))
  {
    StepFits(shades);
    MulMonotone(i, shades, 255 / shades);
  }

  /** Later shades are at least as bright on every channel. */
  lemma ShadeMonotone(i: int, j: int, shades: int, mask: Rgb)
    requires 0 <= i <= j < shades && IsMask(mask)
    ensures var a, b := ShadeBg(i, 255 / shades, mask), ShadeBg(j, 255 / shades, mask);
      a.r <= b.r && a.g <= b.g && a.b <= b.b
  {
    StepFits(shades);
    MulMonotone(i, j, 255 / shades);
  }

  /** `build_default_palette(no_shades, colors)`: `shades` entries keyed
      `'A'...`, white foreground, background `i * (255 // shades)` on the
      channels the mask selects. */
  function BuildDefaultPalette(shades: int, mask: Rgb): (p: Palette)
    requires 1 <= shades && FirstMapCode + shades <= 0xD800 && IsMask(mask)
    ensures |p| == shades && WellFormed(p)
    ensures forall i :: 0 <= i < shades ==>
      p[i].symbol == KeyAt(i) && p[i].fg == White && p[i].bg == ShadeBg(i, 255 / shades, mask)
    ensures forall i, j :: 0 <= i <= j < shades ==>
      p[i].bg.r <= p[j].bg.r && p[i].bg.g <= p[j].bg.g && p[i].bg.b <= p[j].bg.b
  {
    var p := seq(shades, i requires 0 <= i < shades => Entry(KeyAt(i), White, ShadeBg(i, 255 / shades, mask)));
    assert ByteColours(p) by {
      forall i | 0 <= i < shades
        ensures ByteRgb(p[i].bg)
      {
        ShadeIsByte(i, shades, mask);
      }
    }
    assert forall i, j :: 0 <= i <= j < shades ==>
      p[i].bg.r <= p[j].bg.r && p[i].bg.g <= p[j].bg.g && p[i].bg.b <= p[j].bg.b by {
      forall i, j | 0 <= i <= j < shades
        ensures p[i].bg.r <= p[j].bg.r && p[i].bg.g <= p[j].bg.g && p[i].bg.b <= p[j].bg.b
      {
        ShadeMonotone(i, j, shades, mask);
      }
    }
    p
  }

  const Landscape4: Palette := [
    Entry('A', White, Rgb(0, 0, 255)),
    Entry('B', White, Rgb(215, 175, 0)),
    Entry('C', White, Rgb(0, 191, 0)),
    Entry('D', Black, Rgb(255, 255, 255))
  ]

  const Landscape8: Palette := [
    Entry('A', White, Rgb(0, 0, 63)),
    Entry('B', White, Rgb(0, 0, 255)),
    Entry('C', White, Rgb(215, 175, 0)),
    Entry('D', White, Rgb(0, 191, 0)),
    Entry('E', White, Rgb(0, 63, 0)),
    Entry('F', White, Rgb(138, 117, 88)),
    Entry('G', Black, Rgb(85, 85, 85)),
    Entry('H', Black, Rgb(255, 255, 255))
  ]

  const Landscape16: Palette := [
    Entry('A', White, Rgb(0, 0, 63)),
    Entry('B', White, Rgb(0, 0, 127)),
    Entry('C', White, Rgb(0, 0, 191)),
    Entry('D', White, Rgb(0, 0, 255)),
    Entry('E', White, Rgb(215, 175, 0)),
    Entry('F', White, Rgb(0, 191, 0)),
    Entry('G', White, Rgb(0, 127, 0)),
    Entry('H', White, Rgb(0, 63, 0)),
    Entry('I', White, Rgb(81, 69, 52)),
    Entry('J', White, Rgb(100, 85, 64)),
    Entry('K', White, Rgb(119, 101, 76)),
    Entry('L', White, Rgb(138, 117, 88)),
    Entry('M', Black, Rgb(85, 85, 85)),
    Entry('N', Black, Rgb(135, 135, 135)),
    Entry('O', Black, Rgb(150, 150, 150)),
    Entry('P', Black, Rgb(255, 255, 255))
  ]

  /** The keys of `PALETTES_DICT`, in the order `build_default_palettes` inserts them. */
  const PaletteNames: seq<string> := [
    "landscape_4", "landscape_8", "landscape_16",
    "grey_16", "red_16", "green_16", "blue_16", "yellow_16", "magenta_16", "cyan_16",
    "grey_32", "grey_64", "grey_128"
  ]

  /** `COLOR_PALETTE`, the name used when the requested one is unknown. */
  const DefaultPalette := "landscape_16"

  /** `PALETTES_DICT[name]`, or `None` where Python raises `KeyError`. */
  function LookupPalette(name: string): (r: Option<Palette>)
    ensures r.Some? <==> name in PaletteNames
    ensures r.Some? ==> WellFormed(r.value) && |r.value| in {4, 8, 16, 32, 64, 128}
  {
    LandscapesWellFormed();
    if name == "landscape_4" then Some(Landscape4)
    else if name == "landscape_8" then Some(Landscape8)
    else if name == "landscape_16" then Some(Landscape16)
    else if name == "grey_16" then Some(BuildDefaultPalette(16, Rgb(1, 1, 1)))
    else if name == "red_16" then Some(BuildDefaultPalette(16, Rgb(1, 0, 0)))
    else if name == "green_16" then Some(BuildDefaultPalette(16, Rgb(0, 1, 0)))
    else if name == "blue_16" then Some(BuildDefaultPalette(16, Rgb(0, 0, 1)))
    else if name == "yellow_16" then Some(BuildDefaultPalette(16, Rgb(1, 1, 0)))
    else if name == "magenta_16" then Some(BuildDefaultPalette(16, Rgb(1, 0, 1)))
    else if name == "cyan_16" then Some(BuildDefaultPalette(16, Rgb(0, 1, 1)))
    else if name == "grey_32" then Some(BuildDefaultPalette(32, Rgb(1, 1, 1)))
    else if name == "grey_64" then Some(BuildDefaultPalette(64, Rgb(1, 1, 1)))
    else if name == "grey_128" then Some(BuildDefaultPalette(128, Rgb(1, 1, 1)))
    else None
  }

  lemma LandscapesWellFormed()
    ensures WellFormed(Landscape4) && WellFormed(Landscape8) && WellFormed(Landscape16)
  {
    Landscape4WellFormed();
    Landscape8WellFormed();
    Landscape16WellFormed();
  }

  lemma Landscape4WellFormed()
    ensures WellFormed(Landscape4)
  {
  }

  lemma Landscape8WellFormed()
    ensures WellFormed(Landscape8)
  {
  }

  lemma Landscape16WellFormed()
    ensures WellFormed(Landscape16)
  {
  }

  /** The constructor's choice of palette: the requested name when the
      registry has it, `landscape_16` otherwise (never an error). */
  function ResolvePaletteName(name: string): (r: string)
    ensures LookupPalette(r).Some?
    ensures name in PaletteNames ==> r == name
    ensures name !in PaletteNames ==> LookupPalette(r) == Some(Landscape16)
  {
    if name in PaletteNames then name else DefaultPalette
  }

  /** `palette_dict[key]`: the entry stored under `key`, `None` for `KeyError`. */
  function Find(p: Palette, key: char): (r: Option<Entry>)
    ensures r.Some? ==> r.value in p && r.value.symbol == key
    ensures r.None? ==> forall e :: e in p ==> e.symbol != key
    decreases |p|
  {
    if |p| == 0 then None
    else if p[0].symbol == key then Some(p[0])
    else Find(p[1..], key)
  }

  /** `-1 + ord(FIRST_MAP_CHAR) + h`, the code point that stands for height `h`. */
  function GlyphCode(h: int): int
  {
    FirstMapCode - 1 + h
  }

  /** The largest argument `chr` accepts. */
  const MaxCodePoint := 0x10FFFF

  /** `chr(-1 + ord(FIRST_MAP_CHAR) + h)`, the symbol that stands for height
      `h`. `None` where `chr` raises (a negative code) and for codes beyond
      the surrogate range, which no palette uses as a key. */
  function SymbolFor(h: int): Option<char>
  {
    if 0 <= GlyphCode(h) < 0xD800 then Some(GlyphCode(h) as char) else None
  }

  /** `palette_dict[chr(-1 + ord('A') + h)]`. */
  function EntryForHeight(p: Palette, h: int): Option<Entry>
  {
    match SymbolFor(h)
    case None => None
    case Some(key) => Find(p, key)
  }

  /** Keys run `o, o+1, ...` from code point `o`. */
  predicate KeyedFrom(p: Palette, o: int)
  {
    0 <= o && o + |p| <= 0xD800 &&
    forall i :: 0 <= i < |p| ==> p[i].symbol == (o + i) as char
  }

  lemma {:induction false} FindKeyedFrom(p: Palette, o: int, k: int)
    requires KeyedFrom(p, o) && 0 <= k < 0xD800
    ensures Find(p, k as char) == if o <= k < o + |p| then Some(p[k - o]) else None
    decreases |p|
  {
    if |p| > 0 && p[0].symbol != k as char {
      assert KeyedFrom(p[1..], o + 1) by {
        forall i | 0 <= i < |p[1..]|
          ensures p[1..][i].symbol == (o + 1 + i) as char
        {
          assert p[1..][i] == p[i + 1];
        }
      }
      FindKeyedFrom(p[1..], o + 1, k);
    }
  }

  /** Height `h` has an entry exactly when `1 <= h <= |p|`, and it is the
      `h`-th one: heights are 1-based, the palette's index 0-based. */
  lemma EntryForHeightIndex(p: Palette, h: int)
    requires WellKeyed(p)
    ensures EntryForHeight(p, h) == if 1 <= h <= |p| then Some(p[h - 1]) else None
  {
    assert KeyedFrom(p, FirstMapCode);
    if 0 <= GlyphCode(h) < 0xD800 {
      FindKeyedFrom(p, FirstMapCode, GlyphCode(h));
    }
  }

  /** `mapping` of `build_palette`, abstracted to the (foreground, background)
      pair of each entry in palette order; the console style objects are not
      modelled. */
  function ColourPairs(p: Palette): (r: seq<(Rgb, Rgb)>)
    ensures |r| == |p|
    ensures forall i :: 0 <= i < |p| ==> r[i] == (p[i].fg, p[i].bg)
  {
    seq(|p|, i requires 0 <= i < |p| => (p[i].fg, p[i].bg))
  }
}
