/** The text the generator produces: decimal numbers (`str` of an int), the
    glyph rows of `convert_to_str` and the REXPaint palette file of
    `save_palette`. Each format comes with the reader that takes it apart
    again, and the round trip is proved. */
module TextFormats {
  import opened Wrappers
  import opened Errors
  import opened Palettes
  import opened Terrain

  // ---------------------------------------------------------------------
  // Decimal numbers.
  // ---------------------------------------------------------------------

  predicate IsDigit(c: char)
  {
    '0' <= c <= '9'
  }

  predicate AllDigits(s: string)
  {
    forall i :: 0 <= i < |s| ==> IsDigit(s[i])
  }

  function DigitChar(d: int): (c: char)
    requires 0 <= d < 10
    ensures IsDigit(c) && c as int - '0' as int == d
  {
    ('0' as int + d) as char
  }

  /** `str(n)` for `n >= 0`: its digits, most significant first. */
  function NatText(n: nat): (s: string)
    ensures |s| >= 1 && AllDigits(s)
    decreases n
  {
    if n < 10 then [DigitChar(n)] else NatText(n / 10) + [DigitChar(n % 10)]
  }

  /** `str(v)` of a Python `int`. */
  function IntText(v: int): string
  {
    if v < 0 then "-" + NatText(-v) else NatText(v)
  }

  /** The number a string of digits denotes. */
  function DigitsValue(s: string): nat
    requires AllDigits(s)
    decreases |s|
  {
    if |s| == 0 then 0 else DigitsValue(s[..|s| - 1]) * 10 + (s[|s| - 1] as int - '0' as int)
  }

  lemma {:induction false} DigitsValueOfNatText(n: nat)
    ensures DigitsValue(NatText(n)) == n
    decreases n
  {
    if n >= 10 {
      var s := NatText(n);
      assert s[..|s| - 1] == NatText(n / 10);
      DigitsValueOfNatText(n / 10);
    }
  }

  /** The number of digits at the head of `s`. */
  function DigitRun(s: string): (k: nat)
    ensures k <= |s| && AllDigits(s[..k])
    ensures k < |s| ==> !IsDigit(s[k])
    decreases |s|
  {
    if |s| == 0 || !IsDigit(s[0]) then 0
    else
      var k := DigitRun(s[1..]);
      assert s[..1 + k] == [s[0]] + s[1..][..k];
      1 + k
  }

  lemma {:induction false} DigitRunAppend(d: string, rest: string)
    requires AllDigits(d) && (|rest| == 0 || !IsDigit(rest[0]))
    ensures DigitRun(d + rest) == |d|
    decreases |d|
  {
    if |d| > 0 {
      assert (d + rest)[1..] == d[1..] + rest;
      DigitRunAppend(d[1..], rest);
    } else {
      assert d + rest == rest;
    }
  }

  /** Reads the digits at the head of `s`: their number and the text after
      them, or `None` when no digit comes first. */
  function TakeNat(s: string): (r: Option<(nat, string)>)
    ensures r.Some? ==> |r.value.1| < |s|
  {
    var k := DigitRun(s);
    if k == 0 then None else Some((DigitsValue(s[..k]), s[k..]))
  }

  /** Reads an optional minus sign and the digits after it from the head of
      `s`, as `int()` would: the number and the text after it, or `None`
      when no digit comes first. */
  function TakeInt(s: string): (r: Option<(int, string)>)
    ensures r.Some? ==> |r.value.1| < |s|
  {
    if |s| > 0 && s[0] == '-' then
      match TakeNat(s[1..])
      case None => None
      case Some((n, rest)) => Some((-(n as int), rest))
    else
      match TakeNat(s)
      case None => None
      case Some((n, rest)) => Some((n as int, rest))
  }

  lemma TakeNatText(n: nat, rest: string)
    requires |rest| == 0 || !IsDigit(rest[0])
    ensures TakeNat(NatText(n) + rest) == Some((n, rest))
  {
    var d := NatText(n);
    DigitRunAppend(d, rest);
    assert (d + rest)[..|d|] == d && (d + rest)[|d|..] == rest;
    DigitsValueOfNatText(n);
  }

  lemma HeadTail(ch: char, u: string)
    ensures ([ch] + u)[0] == ch && ([ch] + u)[1..] == u
  {
  }

  lemma TakeIntNegative(s: string, n: nat, rest: string)
    requires |s| > 0 && s[0] == '-' && TakeNat(s[1..]) == Some((n, rest))
    ensures TakeInt(s) == Some((-(n as int), rest))
  {
  }

  /** The text of a number reads back as that number, whatever follows it
      as long as it does not begin with a digit. */
  lemma TakeIntText(v: int, rest: string)
    requires |rest| == 0 || !IsDigit(rest[0])
    ensures TakeInt(IntText(v) + rest) == Some((v, rest))
  {
    if v < 0 {
      var u := NatText(-v) + rest;
      assert IntText(v) + rest == "-" + u;
      HeadTail('-', u);
      TakeNatText(-v, rest);
      TakeIntNegative("-" + u, -v, rest);
    } else {
      var s := NatText(v) + rest;
      TakeNatText(v, rest);
      assert IsDigit(s[0]);
      assert TakeInt(s) == Some((v, rest));
    }
  }

  // ---------------------------------------------------------------------
  // Glyph rows (`convert_to_str`).
  // ---------------------------------------------------------------------

  /** A Python `str` as its sequence of code points. `chr` returns any code
      point in `0 .. 0x10FFFF`, lone surrogates included, which a Dafny `char`
      cannot hold. */
  type PyStr = seq<int>

  /** `chr(-1 + ord(FIRST_MAP_CHAR) + h)`, which raises `ValueError` for a
      code point outside `0 .. 0x10FFFF`. */
  function GlyphChar(h: int): (r: Result<int, PyError>)
    ensures r.Ok? <==> 0 <= GlyphCode(h) <= MaxCodePoint
    ensures r.Err? ==> r.error == ValueError
    ensures r.Ok? ==> 0 <= r.value <= MaxCodePoint && r.value - FirstMapCode + 1 == h
  {
    var code := GlyphCode(h);
    if code < 0 || code > MaxCodePoint then Err(ValueError) else Ok(code)
  }

  /** The glyphs of the first `m` heights of `row`, or the error of the
      first height that has none. */
  function GlyphRow(row: seq<int>, m: int): (r: Result<PyStr, PyError>)
    requires 0 <= m <= |row|
    ensures r.Ok? <==> forall j :: 0 <= j < m ==> 0 <= GlyphCode(row[j]) <= MaxCodePoint
    ensures r.Err? ==> r.error == ValueError
    ensures r.Ok? ==> |r.value| == m && forall j :: 0 <= j < m ==> GlyphChar(row[j]) == Ok(r.value[j])
    decreases m
  {
    if m == 0 then Ok([])
    else match GlyphRow(row, m - 1)
      case Err(e) => Err(e)
      case Ok(s) =>
        match GlyphChar(row[m - 1])
        case Err(e) => Err(e)
        case Ok(c) => Ok(s + [c])
  }

  function RowGlyphs(g: Grid, i: int): Result<PyStr, PyError>
    requires 0 <= i < |g|
  {
    GlyphRow(g[i], |g[i]|)
  }

  /** `map_str` after `convert_to_str` has seen rows `0 .. m-1`: the strings
      of the rows converted before the first row that fails, and its error. */
  function GlyphRows(g: Grid, m: int): (r: (seq<PyStr>, Option<PyError>))
    requires 0 <= m <= |g|
    ensures |r.0| <= m && (r.1.None? ==> |r.0| == m)
    ensures forall i :: 0 <= i < |r.0| ==> RowGlyphs(g, i) == Ok(r.0[i])
    ensures r.1.Some? ==> |r.0| < m && RowGlyphs(g, |r.0|) == Err(r.1.value)
    decreases m
  {
    if m == 0 then ([], None)
    else
      var prev := GlyphRows(g, m - 1);
      if prev.1.Some? then prev
      else match RowGlyphs(g, m - 1)
        case Ok(s) => (prev.0 + [s], None)
        case Err(e) => (prev.0, Some(e))
  }

  /** `convert_to_str` succeeds exactly when every height has a glyph, and
      then each character reads back as its cell's height. */
  lemma GlyphRowsDecode(g: Grid)
    ensures var r := GlyphRows(g, |g|);
      (r.1.None? <==> forall i, j :: 0 <= i < |g| && 0 <= j < |g[i]| ==> 0 <= GlyphCode(g[i][j]) <= MaxCodePoint) &&
      (r.1.None? ==> |r.0| == |g| && forall i, j :: 0 <= i < |g| && 0 <= j < |g[i]| ==>
         |r.0[i]| == |g[i]| && r.0[i][j] - FirstMapCode + 1 == g[i][j])
  {
    var r := GlyphRows(g, |g|);
    if r.1.Some? {
      var i := |r.0|;
      assert !(forall j :: 0 <= j < |g[i]| ==> 0 <= GlyphCode(g[i][j]) <= MaxCodePoint);
    } else {
      forall i, j | 0 <= i < |g| && 0 <= j < |g[i]|
        ensures 0 <= GlyphCode(g[i][j]) <= MaxCodePoint && |r.0[i]| == |g[i]| && r.0[i][j] - FirstMapCode + 1 == g[i][j]
      {
        assert RowGlyphs(g, i) == Ok(r.0[i]);
        assert GlyphChar(g[i][j]) == Ok(r.0[i][j]);
      }
    }
  }

  /** One row of `convert_to_str`: `new_row += c` for each height. */
  method ConvertRow(row: seq<int>) returns (r: Result<PyStr, PyError>)
    ensures r == GlyphRow(row, |row|)
  {
    var s := [];
    var j := 0;
    while j < |row|
      invariant 0 <= j <= |row| && GlyphRow(row, j) == Ok(s)
    {
      var code := GlyphCode(row[j]);
      if code < 0 || code > MaxCodePoint {
        return Err(ValueError);
      }
      s := s + [code];
      j := j + 1;
    }
    return Ok(s);
  }

  /** `convert_to_str`: one string per row, in row order. When a height has
      no glyph the rows converted so far stay, as they do in `self.map_str`. */
  method ConvertRows(g: Grid) returns (rows: seq<PyStr>, err: Option<PyError>)
    ensures (rows, err) == GlyphRows(g, |g|)
  {
    rows := [];
    var i := 0;
    while i < |g|
      invariant 0 <= i <= |g| && GlyphRows(g, i) == (rows, None)
    {
      var row := ConvertRow(g[i]);
      if row.Err? {
        GlyphRowsStop(g, i, |g|, rows);
        return rows, Some(row.error);
      }
      rows := rows + [row.value];
      i := i + 1;
    }
    return rows, None;
  }

  lemma {:induction false} GlyphRowsStop(g: Grid, i: int, m: int, rows: seq<PyStr>)
    requires 0 <= i < m <= |g|
    requires GlyphRows(g, i) == (rows, None) && RowGlyphs(g, i).Err?
    ensures GlyphRows(g, m) == (rows, Some(RowGlyphs(g, i).error))
    decreases m
  {
    if m > i + 1 {
      GlyphRowsStop(g, i, m - 1, rows);
    }
  }

  // ---------------------------------------------------------------------
  // The REXPaint palette file (`save_palette`).
  // ---------------------------------------------------------------------

  /** `f"{{{r},{g},{b}}}\t"`: one colour in REXPaint's palette format. */
  function CellText(c: Rgb): string
  {
    "{" + IntText(c.r) + "," + IntText(c.g) + "," + IntText(c.b) + "}\t"
  }

  /** The padding cell `"{0,0,0}\t"`. */
  const PadCell := "{0,0,0}\t"

  lemma PadCellIsBlack()
    ensures CellText(Black) == PadCell
  {
    assert NatText(0) == "0";
  }

  function CellsText(cs: seq<Rgb>): string
    decreases |cs|
  {
    if |cs| == 0 then "" else CellText(cs[0]) + CellsText(cs[1..])
  }

  lemma {:induction false} CellsTextAppend(cs: seq<Rgb>, ds: seq<Rgb>)
    ensures CellsText(cs + ds) == CellsText(cs) + CellsText(ds)
    decreases |cs|
  {
    if |cs| == 0 {
      assert cs + ds == ds;
    } else {
      assert (cs + ds)[1..] == cs[1..] + ds;
      CellsTextAppend(cs[1..], ds);
    }
  }

  function Repeat(s: string, k: nat): string
  {
    if k == 0 then "" else s + Repeat(s, k - 1)
  }

  /** `[x] * k`. */
  function Copies<T>(x: T, k: nat): (r: seq<T>)
    ensures |r| == k && forall i :: 0 <= i < k ==> r[i] == x
  {
    if k == 0 then [] else [x] + Copies(x, k - 1)
  }

  lemma Assoc<T>(a: seq<T>, b: seq<T>, c: seq<T>)
    ensures a + (b + c) == (a + b) + c
  {
  }

  /** REXPaint wants 16 colours on a line. */
  const LineColours := 16

  /** The colours of one palette line: the palette's own, then black up to
      16 when it has fewer; a longer palette is not truncated. */
  function PadColours(cs: seq<Rgb>): (r: seq<Rgb>)
    ensures |r| == if |cs| < LineColours then LineColours else |cs|
    ensures r[..|cs|] == cs && forall i :: |cs| <= i < |r| ==> r[i] == Black
  {
    if |cs| < LineColours then cs + Copies(Black, LineColours - |cs|) else cs
  }

  function Fgs(p: Palette): seq<Rgb>
  {
    seq(|p|, i requires 0 <= i < |p| => p[i].fg)
  }

  function Bgs(p: Palette): seq<Rgb>
  {
    seq(|p|, i requires 0 <= i < |p| => p[i].bg)
  }

  function FgLine(p: Palette): string
  {
    CellsText(PadColours(Fgs(p)))
  }

  function BgLine(p: Palette): string
  {
    CellsText(PadColours(Bgs(p)))
  }

  /** The palette file: the foreground line six times and the background line
      five times, each followed by a newline, then the background line once
      more with no newline after it. */
  function PaletteText(p: Palette): string
  {
    Repeat(FgLine(p) + "\n", 6) + Repeat(BgLine(p) + "\n", 5) + BgLine(p)
  }

  /** `f"{self.palette}_{palette_size}_SSiS.txt"`. */
  function PaletteFileName(name: string, p: Palette): string
  {
    name + "_" + IntText(|p|) + "_SSiS.txt"
  }

  lemma {:induction false} RepeatPadCells(k: nat)
    ensures CellsText(Copies(Black, k)) == Repeat(PadCell, k)
    decreases k
  {
    if k > 0 {
      assert Copies(Black, k)[1..] == Copies(Black, k - 1);
      RepeatPadCells(k - 1);
      PadCellIsBlack();
    }
  }

  lemma CellsTextStep(cs: seq<Rgb>, i: int)
    requires 0 <= i < |cs|
    ensures CellsText(cs[..i + 1]) == CellsText(cs[..i]) + CellText(cs[i])
  {
    CellsTextAppend(cs[..i], [cs[i]]);
    assert cs[..i + 1] == cs[..i] + [cs[i]];
  }

  /** The `"{0,0,0}\t" * (16 - len)` tail completes the padded line. */
  lemma PadLine(cs: seq<Rgb>)
    ensures CellsText(PadColours(cs))
         == CellsText(cs) + (if |cs| < LineColours then Repeat(PadCell, LineColours - |cs|) else "")
  {
    if |cs| < LineColours {
      RepeatPadCells(LineColours - |cs|);
      CellsTextAppend(cs, Copies(Black, LineColours - |cs|));
    }
  }

  /** One palette line, built as `save_palette` builds it: a cell per entry,
      then `"{0,0,0}\t" * (16 - len)` when the palette is short. */
  method BuildLine(cs: seq<Rgb>) returns (line: string)
    ensures line == CellsText(PadColours(cs))
  {
    line := "";
    for i := 0 to |cs|
      invariant line == CellsText(cs[..i])
    {
      CellsTextStep(cs, i);
      line := line + CellText(cs[i]);
    }
    assert cs[..|cs|] == cs;
    PadLine(cs);
    if |cs| < LineColours {
      line := line + Repeat(PadCell, LineColours - |cs|);
    }
  }

  /** `save_palette`'s file contents. */
  method BuildPaletteText(p: Palette) returns (text: string)
    ensures text == PaletteText(p)
  {
    var fgLine := BuildLine(Fgs(p));
    var bgLine := BuildLine(Bgs(p));
    text := Repeat(fgLine + "\n", 6) + Repeat(bgLine + "\n", 5) + bgLine;
  }

  // Reading the palette file back.

  predicate NoNewline(s: string)
  {
    '\n' !in s
  }

  /** `text.split("\n")`. */
  function SplitLines(s: string): (r: seq<string>)
    ensures |r| >= 1
    decreases |s|
  {
    if |s| == 0 then [""]
    else
      var rest := SplitLines(s[1..]);
      if s[0] == '\n' then [""] + rest else [[s[0]] + rest[0]] + rest[1..]
  }

  lemma {:induction false} SplitLine(line: string, t: string)
    requires NoNewline(line)
    ensures SplitLines(line + "\n" + t) == [line] + SplitLines(t)
    ensures SplitLines(line) == [line]
    decreases |line|
  {
    if |line| > 0 {
      var s := line + "\n" + t;
      assert s[0] == line[0] != '\n';
      assert s[1..] == line[1..] + "\n" + t;
      assert line[0] in line;
      assert NoNewline(line[1..]) by {
        forall ch | ch in line[1..]
          ensures ch in line
        {
        }
      }
      SplitLine(line[1..], t);
      assert [line[0]] + line[1..] == line;
    } else {
      assert line + "\n" + t == "\n" + t;
      assert ("\n" + t)[1..] == t;
    }
  }

  lemma {:induction false} SplitRepeat(line: string, k: nat, t: string)
    requires NoNewline(line)
    ensures SplitLines(Repeat(line + "\n", k) + t) == Copies(line, k) + SplitLines(t)
    decreases k
  {
    if k > 0 {
      var ln, rest := line + "\n", Repeat(line + "\n", k - 1) + t;
      Assoc(ln, Repeat(ln, k - 1), t);
      SplitLine(line, rest);
      SplitRepeat(line, k - 1, t);
      Assoc([line], Copies(line, k - 1), SplitLines(t));
    } else {
      assert Repeat(line + "\n", k) + t == t;
    }
  }

  lemma NatTextNoNewline(n: nat)
    ensures NoNewline(NatText(n))
  {
  }

  lemma {:induction false} CellsTextNoNewline(cs: seq<Rgb>)
    ensures NoNewline(CellsText(cs))
    decreases |cs|
  {
    if |cs| > 0 {
      var c := cs[0];
      NatTextNoNewline(if c.r < 0 then -c.r else c.r);
      NatTextNoNewline(if c.g < 0 then -c.g else c.g);
      NatTextNoNewline(if c.b < 0 then -c.b else c.b);
      CellsTextNoNewline(cs[1..]);
    }
  }

  /** Reads `"{r,g,b}\t"` from the head of `s`: the colour and what follows. */
  function TakeCell(s: string): (r: Option<(Rgb, string)>)
    ensures r.Some? ==> |r.value.1| < |s|
  {
    if |s| == 0 || s[0] != '{' then None
    else match TakeInt(s[1..])
      case None => None
      case Some((red, s1)) =>
        if |s1| == 0 || s1[0] != ',' then None
        else match TakeInt(s1[1..])
          case None => None
          case Some((green, s2)) =>
            if |s2| == 0 || s2[0] != ',' then None
            else match TakeInt(s2[1..])
              case None => None
              case Some((blue, s3)) =>
                if |s3| < 2 || s3[..2] != "}\t" then None
                else Some((Rgb(red, green, blue), s3[2..]))
  }

  /** The colours of one palette line, or `None` when it is not one. */
  function ParseCells(s: string): Option<seq<Rgb>>
    decreases |s|
  {
    if |s| == 0 then Some([])
    else match TakeCell(s)
      case None => None
      case Some((c, rest)) =>
        match ParseCells(rest)
        case None => None
        case Some(cs) => Some([c] + cs)
  }

  lemma CellParts(a: string, b: string, c: string, rest: string)
    ensures "{" + a + "," + b + "," + c + "}\t" + rest == "{" + (a + ("," + (b + ("," + (c + ("}\t" + rest))))))
  {
  }

  lemma TakeCellText(c: Rgb, rest: string)
    ensures TakeCell(CellText(c) + rest) == Some((c, rest))
  {
    var a, b, cc := IntText(c.r), IntText(c.g), IntText(c.b);
    var tail3 := "}\t" + rest;
    var tail2 := "," + (cc + tail3);
    var tail1 := "," + (b + tail2);
    CellParts(a, b, cc, rest);
    HeadTail('{', a + tail1);
    TakeIntText(c.r, tail1);
    HeadTail(',', b + tail2);
    TakeIntText(c.g, tail2);
    HeadTail(',', cc + tail3);
    TakeIntText(c.b, tail3);
    assert tail3[..2] == "}\t" && tail3[2..] == rest;
  }

  lemma ParseCellsStep(s: string, c: Rgb, rest: string, cs: seq<Rgb>)
    requires |s| > 0 && TakeCell(s) == Some((c, rest)) && ParseCells(rest) == Some(cs)
    ensures ParseCells(s) == Some([c] + cs)
  {
  }

  lemma ParseCellsCons(c: Rgb, cs: seq<Rgb>)
    requires ParseCells(CellsText(cs)) == Some(cs)
    ensures ParseCells(CellsText([c] + cs)) == Some([c] + cs)
  {
    var rest := CellsText(cs);
    var s := CellText(c) + rest;
    assert CellsText([c] + cs) == s by {
      assert ([c] + cs)[0] == c && ([c] + cs)[1..] == cs;
    }
    TakeCellText(c, rest);
    ParseCellsStep(s, c, rest, cs);
  }

  /** A line of cells reads back as its colours. */
  lemma {:induction false} ParseCellsText(cs: seq<Rgb>)
    ensures ParseCells(CellsText(cs)) == Some(cs)
    decreases |cs|
  {
    if |cs| > 0 {
      ParseCellsText(cs[1..]);
      ParseCellsCons(cs[0], cs[1..]);
      assert [cs[0]] + cs[1..] == cs;
    }
  }

  /** The two colour lines of a palette file: twelve lines, the first six
      alike and the last six alike. */
  function ParsePaletteText(text: string): Option<(seq<Rgb>, seq<Rgb>)>
  {
    var lines := SplitLines(text);
    if |lines| != 12 then None
    else if exists i :: 0 <= i < 6 && lines[i] != lines[0] then None
    else if exists i :: 6 <= i < 12 && lines[i] != lines[6] then None
    else match (ParseCells(lines[0]), ParseCells(lines[6]))
      case (Some(fg), Some(bg)) => Some((fg, bg))
      case _ => None
  }

  /** The palette file has twelve lines, six foreground then six background. */
  lemma PaletteTextLines(p: Palette)
    ensures SplitLines(PaletteText(p)) == Copies(FgLine(p), 6) + Copies(BgLine(p), 6)
  {
    var fg, bg := FgLine(p), BgLine(p);
    CellsTextNoNewline(PadColours(Fgs(p)));
    CellsTextNoNewline(PadColours(Bgs(p)));
    SplitRepeat(bg, 5, bg);
    SplitLine(bg, "");
    assert Copies(bg, 5) + [bg] == Copies(bg, 6);
    var tail := Repeat(bg + "\n", 5) + bg;
    SplitRepeat(fg, 6, tail);
    Assoc(Repeat(fg + "\n", 6), Repeat(bg + "\n", 5), bg);
  }

  /** The palette file reads back as the palette's colours, each line padded to 16. */
  lemma PaletteTextRoundTrip(p: Palette)
    ensures ParsePaletteText(PaletteText(p)) == Some((PadColours(Fgs(p)), PadColours(Bgs(p))))
  {
    PaletteTextLines(p);
    var lines := SplitLines(PaletteText(p));
    assert lines[0] == FgLine(p) && lines[6] == BgLine(p);
    assert forall i :: 0 <= i < 6 ==> lines[i] == lines[0];
    assert forall i :: 6 <= i < 12 ==> lines[i] == lines[6];
    ParseCellsText(PadColours(Fgs(p)));
    ParseCellsText(PadColours(Bgs(p)));
  }
}
