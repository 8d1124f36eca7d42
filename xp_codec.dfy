/** The bytes of an uncompressed REXPaint `.xp` image as `save_to_xp` writes
    them: a version and a layer count, then per layer its width, its height
    and its tiles, each tile a 32-bit glyph code and six colour bytes.
    `struct.pack("i", v)` uses the platform's byte order; the model fixes it
    to little-endian. `ParseXp` reads the format back and inverts `XpBytes`. */
module XpCodec {
  import opened Wrappers
  import opened Palettes

  type Byte = b: int | 0 <= b < 256

  const Two31: int := 0x8000_0000
  const Two32: int := 0x1_0000_0000

  /** The range of `struct.pack("i", v)`; outside it Python raises `struct.error`. */
  predicate IsInt32(v: int)
  {
    -Two31 <= v < Two31
  }

  function Pow256(k: nat): (r: nat)
    ensures r >= 1
  {
    if k == 0 then 1 else 256 * Pow256(k - 1)
  }

  /** The `k` least significant base-256 digits of `u`, lowest first. */
  function LeBytes(u: nat, k: nat): (r: seq<Byte>)
    ensures |r| == k
  {
    if k == 0 then [] else [u % 256] + LeBytes(u / 256, k - 1)
  }

  /** The number whose base-256 digits, lowest first, are `bs`. */
  function FromLe(bs: seq<Byte>): nat
  {
    if |bs| == 0 then 0 else bs[0] + 256 * FromLe(bs[1..])
  }

  lemma {:induction false} FromLeBound(bs: seq<Byte>)
    ensures FromLe(bs) < Pow256(|bs|)
  {
    if |bs| > 0 {
      FromLeBound(bs[1..]);
    }
  }

  /** Writing `k` digits and reading them back gives `u` when it fits. */
  lemma {:induction false} FromLeBytes(u: nat, k: nat)
    requires u < Pow256(k)
    ensures FromLe(LeBytes(u, k)) == u
  {
    if k > 0 {
      assert u / 256 < Pow256(k - 1);
      assert LeBytes(u, k)[1..] == LeBytes(u / 256, k - 1);
      FromLeBytes(u / 256, k - 1);
    }
  }

  /** Reading digits and writing them back gives the same digits. */
  lemma {:induction false} LeBytesFrom(bs: seq<Byte>)
    ensures LeBytes(FromLe(bs), |bs|) == bs
  {
    if |bs| > 0 {
      var u := FromLe(bs);
      assert u % 256 == bs[0] && u / 256 == FromLe(bs[1..]);
      LeBytesFrom(bs[1..]);
    }
  }

  /** `struct.pack("i", v)` in little-endian order: two's complement in four bytes. */
  function Int32Le(v: int): (r: seq<Byte>)
    requires IsInt32(v)
    ensures |r| == 4
  {
    LeBytes(if v < 0 then v + Two32 else v, 4)
  }

  /** `struct.unpack("<i", bs)`. */
  function Int32FromLe(bs: seq<Byte>): int
    requires |bs| == 4
  {
    var u := FromLe(bs);
    if u >= Two31 then u - Two32 else u
  }

  /** The four bytes of an int32 determine it ... */
  lemma Int32RoundTrip(v: int)
    requires IsInt32(v)
    ensures Int32FromLe(Int32Le(v)) == v
  {
    assert Pow256(4) == Two32;
    FromLeBytes(if v < 0 then v + Two32 else v, 4);
  }

  /** ... and every four bytes are the encoding of one. */
  lemma Int32Onto(bs: seq<Byte>)
    requires |bs| == 4
    ensures IsInt32(Int32FromLe(bs)) && Int32Le(Int32FromLe(bs)) == bs
  {
    assert Pow256(4) == Two32;
    FromLeBound(bs);
    LeBytesFrom(bs);
  }

  /** A tile as the file stores it: the glyph code and the two colours. */
  datatype XTile = XTile(code: int, fg: Rgb, bg: Rgb)

  /** What `struct.pack` accepts for a tile. */
  predicate TileOk(t: XTile)
  {
    IsInt32(t.code) && ByteRgb(t.fg) && ByteRgb(t.bg)
  }

  /** `struct.pack("i", code)` then `struct.pack("BBBBBB", fg..., bg...)`. */
  function TileBytes(t: XTile): (r: seq<Byte>)
    requires TileOk(t)
    ensures |r| == 10
  {
    Int32Le(t.code) + [t.fg.r, t.fg.g, t.fg.b, t.bg.r, t.bg.g, t.bg.b]
  }

  function TilesBytes(ts: seq<XTile>): (r: seq<Byte>)
    requires forall i :: 0 <= i < |ts| ==> TileOk(ts[i])
    ensures |r| == 10 * |ts|
  {
    if |ts| == 0 then [] else TileBytes(ts[0]) + TilesBytes(ts[1..])
  }

  lemma {:induction false} TilesBytesAppend(ts: seq<XTile>, t: XTile)
    requires forall i :: 0 <= i < |ts| ==> TileOk(ts[i])
    requires TileOk(t)
    ensures TilesBytes(ts + [t]) == TilesBytes(ts) + TileBytes(t)
  {
    if |ts| > 0 {
      assert (ts + [t])[1..] == ts[1..] + [t];
      TilesBytesAppend(ts[1..], t);
    }
  }

  /** A layer: `width` columns of `height` tiles, stored column by column. */
  datatype XLayer = XLayer(width: int, height: int, tiles: seq<XTile>)

  predicate LayerOk(l: XLayer)
  {
    0 <= l.width && 0 <= l.height && IsInt32(l.width) && IsInt32(l.height) &&
    |l.tiles| == l.width * l.height &&
    forall i :: 0 <= i < |l.tiles| ==> TileOk(l.tiles[i])
  }

  function LayerBytes(l: XLayer): seq<Byte>
    requires LayerOk(l)
  {
    Int32Le(l.width) + Int32Le(l.height) + TilesBytes(l.tiles)
  }

  function LayersBytes(ls: seq<XLayer>): seq<Byte>
    requires forall i :: 0 <= i < |ls| ==> LayerOk(ls[i])
  {
    if |ls| == 0 then [] else LayerBytes(ls[0]) + LayersBytes(ls[1..])
  }

  predicate DocOk(ls: seq<XLayer>)
  {
    |ls| < Two31 && forall i :: 0 <= i < |ls| ==> LayerOk(ls[i])
  }

  /** The whole file: version 1, the number of layers, the layers. */
  function XpBytes(ls: seq<XLayer>): seq<Byte>
    requires DocOk(ls)
  {
    Int32Le(1) + Int32Le(|ls|) + LayersBytes(ls)
  }

  // ---------------------------------------------------------------------
  // Reading the format back.
  // ---------------------------------------------------------------------

  function ParseInt32(bs: seq<Byte>): Option<(int, seq<Byte>)>
  {
    if |bs| < 4 then None else Some((Int32FromLe(bs[..4]), bs[4..]))
  }

  function ParseTile(bs: seq<Byte>): Option<(XTile, seq<Byte>)>
  {
    if |bs| < 10 then None
    else Some((XTile(Int32FromLe(bs[..4]), Rgb(bs[4], bs[5], bs[6]), Rgb(bs[7], bs[8], bs[9])), bs[10..]))
  }

  function ParseTiles(bs: seq<Byte>, count: nat): Option<(seq<XTile>, seq<Byte>)>
    decreases count
  {
    if count == 0 then Some(([], bs))
    else match ParseTile(bs)
      case None => None
      case Some((t, rest)) =>
        match ParseTiles(rest, count - 1)
        case None => None
        case Some((ts, rest')) => Some(([t] + ts, rest'))
  }

  function ParseLayer(bs: seq<Byte>): Option<(XLayer, seq<Byte>)>
  {
    match ParseInt32(bs)
    case None => None
    case Some((w, r1)) =>
      match ParseInt32(r1)
      case None => None
      case Some((h, r2)) =>
        if w < 0 || h < 0 then None
        else match ParseTiles(r2, w * h)
          case None => None
          case Some((ts, r3)) => Some((XLayer(w, h, ts), r3))
  }

  function ParseLayers(bs: seq<Byte>, count: nat): Option<(seq<XLayer>, seq<Byte>)>
    decreases count
  {
    if count == 0 then Some(([], bs))
    else match ParseLayer(bs)
      case None => None
      case Some((l, rest)) =>
        match ParseLayers(rest, count - 1)
        case None => None
        case Some((ls, rest')) => Some(([l] + ls, rest'))
  }

  /** A version-1 image with exactly the announced layers and nothing after them. */
  function ParseXp(bs: seq<Byte>): Option<seq<XLayer>>
  {
    match ParseInt32(bs)
    case None => None
    case Some((version, r1)) =>
      match ParseInt32(r1)
      case None => None
      case Some((count, r2)) =>
        if version != 1 || count < 0 then None
        else match ParseLayers(r2, count)
          case Some((ls, rest)) => if |rest| == 0 then Some(ls) else None
          case None => None
  }

  lemma ParseInt32Of(v: int, rest: seq<Byte>)
    requires IsInt32(v)
    ensures ParseInt32(Int32Le(v) + rest) == Some((v, rest))
  {
    var bs := Int32Le(v) + rest;
    assert bs[..4] == Int32Le(v) && bs[4..] == rest;
    Int32RoundTrip(v);
  }

  lemma ParseTileOf(t: XTile, rest: seq<Byte>)
    requires TileOk(t)
    ensures ParseTile(TileBytes(t) + rest) == Some((t, rest))
  {
    var bs := TileBytes(t) + rest;
    assert bs[..4] == Int32Le(t.code) && bs[10..] == rest;
    Int32RoundTrip(t.code);
  }

  lemma {:induction false} ParseTilesOf(ts: seq<XTile>, rest: seq<Byte>)
    requires forall i :: 0 <= i < |ts| ==> TileOk(ts[i])
    ensures ParseTiles(TilesBytes(ts) + rest, |ts|) == Some((ts, rest))
  {
    if |ts| > 0 {
      var tail := TilesBytes(ts[1..]) + rest;
      assert TilesBytes(ts) + rest == TileBytes(ts[0]) + tail;
      ParseTileOf(ts[0], tail);
      ParseTilesOf(ts[1..], rest);
      assert ParseTiles(tail, |ts| - 1) == Some((ts[1..], rest));
      assert [ts[0]] + ts[1..] == ts;
    } else {
      assert TilesBytes(ts) + rest == rest;
    }
  }

  lemma ParseLayerOf(l: XLayer, rest: seq<Byte>)
    requires LayerOk(l)
    ensures ParseLayer(LayerBytes(l) + rest) == Some((l, rest))
  {
    assert LayerBytes(l) + rest == Int32Le(l.width) + (Int32Le(l.height) + (TilesBytes(l.tiles) + rest));
    ParseInt32Of(l.width, Int32Le(l.height) + (TilesBytes(l.tiles) + rest));
    ParseInt32Of(l.height, TilesBytes(l.tiles) + rest);
    ParseTilesOf(l.tiles, rest);
  }

  lemma {:induction false} ParseLayersOf(ls: seq<XLayer>, rest: seq<Byte>)
    requires forall i :: 0 <= i < |ls| ==> LayerOk(ls[i])
    ensures ParseLayers(LayersBytes(ls) + rest, |ls|) == Some((ls, rest))
  {
    if |ls| > 0 {
      var tail := LayersBytes(ls[1..]) + rest;
      assert LayersBytes(ls) + rest == LayerBytes(ls[0]) + tail;
      ParseLayerOf(ls[0], tail);
      ParseLayersOf(ls[1..], rest);
      assert ParseLayers(tail, |ls| - 1) == Some((ls[1..], rest));
      assert [ls[0]] + ls[1..] == ls;
    } else {
      assert LayersBytes(ls) + rest == rest;
    }
  }

  /** Reading back what `save_to_xp` writes gives the layers it wrote. */
  lemma ParseXpOf(ls: seq<XLayer>)
    requires DocOk(ls)
    ensures ParseXp(XpBytes(ls)) == Some(ls)
  {
    assert XpBytes(ls) == Int32Le(1) + (Int32Le(|ls|) + (LayersBytes(ls) + []));
    ParseInt32Of(1, Int32Le(|ls|) + (LayersBytes(ls) + []));
    ParseInt32Of(|ls|, LayersBytes(ls) + []);
    ParseLayersOf(ls, []);
  }
}
