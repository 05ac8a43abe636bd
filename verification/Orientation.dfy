/**
 * Turning a decoded picture the way its orientation tag says, and cutting a rectangle out of it.
 * A picture is a flat buffer of four bytes a pixel, row after row.
 */
module Orientation {
  import opened Options
  import opened Exif

  datatype DecodedRgba = DecodedRgba(width: nat, height: nat, pixels: seq<Byte>)

  const U32_RANGE := 0x1_0000_0000

  /** The buffer holds exactly the pixels of the picture. */
  ghost predicate Packed(p: DecodedRgba) { |p.pixels| == 4 * (p.width * p.height) }

  // --- places in the buffer ---

  function Index(width: nat, x: nat, y: nat): nat { 4 * (y * width + x) }

  lemma Below(width: nat, height: nat, x: nat, y: nat)
    requires x < width && y < height
    ensures Index(width, x, y) + 4 <= 4 * (width * height)
  {
    assert (y + 1) * width <= height * width;
  }

  lemma Apart(width: nat, x: nat, y: nat, x': nat, y': nat)
    requires x < width && x' < width && (x != x' || y != y')
    ensures Index(width, x, y) + 4 <= Index(width, x', y') || Index(width, x', y') + 4 <= Index(width, x, y)
  {
    if y < y' {
      assert (y + 1) * width <= y' * width;
    } else if y' < y {
      assert (y' + 1) * width <= y * width;
    }
  }

  /** The four bytes of a pixel. */
  function Pixel(p: DecodedRgba, x: nat, y: nat): (pixel: seq<Byte>)
    requires Packed(p) && x < p.width && y < p.height
    ensures |pixel| == 4
  {
    Below(p.width, p.height, x, y);
    p.pixels[Index(p.width, x, y)..Index(p.width, x, y) + 4]
  }

  // --- the eight orientations ---

  /** Whether an orientation exchanges the axes, and which of the new axes it then reverses. */
  datatype Turn = Turn(transpose: bool, flipX: bool, flipY: bool)

  function TurnOf(orientation: nat): Turn {
    match orientation
    case 2 => Turn(false, true, false)
    case 3 => Turn(false, true, true)
    case 4 => Turn(false, false, true)
    case 5 => Turn(true, true, true)
    case 6 => Turn(true, true, false)
    case 7 => Turn(true, false, false)
    case 8 => Turn(true, false, true)
    case _ => Turn(false, false, false)
  }

  function Width(orientation: nat, w: nat, h: nat): nat { if TurnOf(orientation).transpose then h else w }

  function Height(orientation: nat, w: nat, h: nat): nat { if TurnOf(orientation).transpose then w else h }

  /** Where a pixel goes. */
  function Place(orientation: nat, w: nat, h: nat, x: nat, y: nat): (place: (nat, nat))
    requires x < w && y < h
    ensures place.0 < Width(orientation, w, h) && place.1 < Height(orientation, w, h)
  {
    match orientation
    case 2 => (w - 1 - x, y)
    case 3 => (w - 1 - x, h - 1 - y)
    case 4 => (x, h - 1 - y)
    case 5 => (h - 1 - y, w - 1 - x)
    case 6 => (h - 1 - y, x)
    case 7 => (y, x)
    case 8 => (y, w - 1 - x)
    case _ => (x, y)
  }

  /** A picture is another one turned: the sizes agree, and every pixel is in its place. */
  ghost predicate Turned(a: DecodedRgba, orientation: nat, b: DecodedRgba) {
    && Packed(a) && Packed(b)
    && b.width == Width(orientation, a.width, a.height) && b.height == Height(orientation, a.width, a.height)
    && forall x: nat, y: nat :: x < a.width && y < a.height ==> InPlace(a, orientation, b, x, y)
  }

  ghost predicate InPlace(a: DecodedRgba, orientation: nat, b: DecodedRgba, x: nat, y: nat)
    requires Packed(a) && Packed(b) && x < a.width && y < a.height
    requires b.width == Width(orientation, a.width, a.height) && b.height == Height(orientation, a.width, a.height)
  {
    var (u, v) := Place(orientation, a.width, a.height, x, y);
    Pixel(b, u, v) == Pixel(a, x, y)
  }

  // --- the code ---

  method ApplyOrientation(decoded: DecodedRgba, orientation: nat) returns (r: DecodedRgba)
    requires Packed(decoded)
    ensures Turned(decoded, orientation, r)
    ensures !(2 <= orientation <= 8) ==> r == decoded
  {
    match orientation {
      case 2 => r := MirrorHorizontally(decoded);
      case 3 => r := TurnHalf(decoded);
      case 4 => r := MirrorVertically(decoded);
      case 5 => r := Transverse(decoded);
      case 6 => r := TurnClockwise(decoded);
      case 7 => r := Transpose(decoded);
      case 8 => r := TurnCounterclockwise(decoded);
      case _ => r := decoded;
    }
  }

  /** Orientation 2. */
  method MirrorHorizontally(decoded: DecodedRgba) returns (r: DecodedRgba)
    requires Packed(decoded)
    ensures Turned(decoded, 2, r)
  {
    hide Copied, Turned;
    var w, h, stride := decoded.width, decoded.height, decoded.width * 4;
    var pixels := new Byte[|decoded.pixels|](_ => 0);
    NothingCopied(decoded, 2, pixels[..]);
    for y := 0 to h
      invariant Copied(decoded, 2, pixels[..], y, 0)
    {
      var srcBase := y * stride;
      var dstBase := y * stride;
      for x := 0 to w
        invariant Copied(decoded, 2, pixels[..], y, x)
      {
        var srcIdx := srcBase + x * 4;
        var dstX := w - 1 - x;
        var dstIdx := dstBase + dstX * 4;
        CopyPixel(decoded, 2, pixels, srcIdx, dstIdx, x, y);
      }
      RowDone(decoded, 2, pixels[..], y);
    }
    r := DecodedRgba(w, h, pixels[..]);
    AllCopied(decoded, 2, r);
  }

  /** Orientation 3. */
  method TurnHalf(decoded: DecodedRgba) returns (r: DecodedRgba)
    requires Packed(decoded)
    ensures Turned(decoded, 3, r)
  {
    hide Copied, Turned;
    var w, h, stride := decoded.width, decoded.height, decoded.width * 4;
    var pixels := new Byte[|decoded.pixels|](_ => 0);
    NothingCopied(decoded, 3, pixels[..]);
    for y := 0 to h
      invariant Copied(decoded, 3, pixels[..], y, 0)
    {
      var srcBase := y * stride;
      var dstY := h - 1 - y;
      var dstBase := dstY * stride;
      for x := 0 to w
        invariant Copied(decoded, 3, pixels[..], y, x)
      {
        var srcIdx := srcBase + x * 4;
        var dstX := w - 1 - x;
        var dstIdx := dstBase + dstX * 4;
        CopyPixel(decoded, 3, pixels, srcIdx, dstIdx, x, y);
      }
      RowDone(decoded, 3, pixels[..], y);
    }
    r := DecodedRgba(w, h, pixels[..]);
    AllCopied(decoded, 3, r);
  }

  /** Orientation 4. */
  method MirrorVertically(decoded: DecodedRgba) returns (r: DecodedRgba)
    requires Packed(decoded)
    ensures Turned(decoded, 4, r)
  {
    hide Copied, Turned;
    var w, h, stride := decoded.width, decoded.height, decoded.width * 4;
    var pixels := new Byte[|decoded.pixels|](_ => 0);
    NothingCopied(decoded, 4, pixels[..]);
    for y := 0 to h
      invariant Copied(decoded, 4, pixels[..], y, 0)
    {
      var srcBase := y * stride;
      var dstY := h - 1 - y;
      var dstBase := dstY * stride;
      for x := 0 to w
        invariant Copied(decoded, 4, pixels[..], y, x)
      {
        var srcIdx := srcBase + x * 4;
        var dstIdx := dstBase + x * 4;
        CopyPixel(decoded, 4, pixels, srcIdx, dstIdx, x, y);
      }
      RowDone(decoded, 4, pixels[..], y);
    }
    r := DecodedRgba(w, h, pixels[..]);
    AllCopied(decoded, 4, r);
  }

  /** Orientation 5. */
  method Transverse(decoded: DecodedRgba) returns (r: DecodedRgba)
    requires Packed(decoded)
    ensures Turned(decoded, 5, r)
  {
    hide Copied, Turned;
    var w, h, stride := decoded.width, decoded.height, decoded.width * 4;
    var newW, newH := h, w;
    var newStride := newW * 4;
    var pixels := new Byte[newW * newH * 4](_ => 0);
    NothingCopied(decoded, 5, pixels[..]);
    for y := 0 to h
      invariant Copied(decoded, 5, pixels[..], y, 0)
    {
      var srcBase := y * stride;
      for x := 0 to w
        invariant Copied(decoded, 5, pixels[..], y, x)
      {
        var srcIdx := srcBase + x * 4;
        var dstX, dstY := h - 1 - y, w - 1 - x;
        var dstIdx := dstY * newStride + dstX * 4;
        CopyPixel(decoded, 5, pixels, srcIdx, dstIdx, x, y);
      }
      RowDone(decoded, 5, pixels[..], y);
    }
    r := DecodedRgba(newW, newH, pixels[..]);
    AllCopied(decoded, 5, r);
  }

  /** Orientation 6. */
  method TurnClockwise(decoded: DecodedRgba) returns (r: DecodedRgba)
    requires Packed(decoded)
    ensures Turned(decoded, 6, r)
  {
    hide Copied, Turned;
    var w, h, stride := decoded.width, decoded.height, decoded.width * 4;
    var newW, newH := h, w;
    var newStride := newW * 4;
    var pixels := new Byte[newW * newH * 4](_ => 0);
    NothingCopied(decoded, 6, pixels[..]);
    for y := 0 to h
      invariant Copied(decoded, 6, pixels[..], y, 0)
    {
      var srcBase := y * stride;
      for x := 0 to w
        invariant Copied(decoded, 6, pixels[..], y, x)
      {
        var srcIdx := srcBase + x * 4;
        var dstX, dstY := h - 1 - y, x;
        var dstIdx := dstY * newStride + dstX * 4;
        CopyPixel(decoded, 6, pixels, srcIdx, dstIdx, x, y);
      }
      RowDone(decoded, 6, pixels[..], y);
    }
    r := DecodedRgba(newW, newH, pixels[..]);
    AllCopied(decoded, 6, r);
  }

  /** Orientation 7. */
  method Transpose(decoded: DecodedRgba) returns (r: DecodedRgba)
    requires Packed(decoded)
    ensures Turned(decoded, 7, r)
  {
    hide Copied, Turned;
    var w, h, stride := decoded.width, decoded.height, decoded.width * 4;
    var newW, newH := h, w;
    var newStride := newW * 4;
    var pixels := new Byte[newW * newH * 4](_ => 0);
    NothingCopied(decoded, 7, pixels[..]);
    for y := 0 to h
      invariant Copied(decoded, 7, pixels[..], y, 0)
    {
      var srcBase := y * stride;
      for x := 0 to w
        invariant Copied(decoded, 7, pixels[..], y, x)
      {
        var srcIdx := srcBase + x * 4;
        var dstX, dstY := y, x;
        var dstIdx := dstY * newStride + dstX * 4;
        CopyPixel(decoded, 7, pixels, srcIdx, dstIdx, x, y);
      }
      RowDone(decoded, 7, pixels[..], y);
    }
    r := DecodedRgba(newW, newH, pixels[..]);
    AllCopied(decoded, 7, r);
  }

  /** Orientation 8. */
  method TurnCounterclockwise(decoded: DecodedRgba) returns (r: DecodedRgba)
    requires Packed(decoded)
    ensures Turned(decoded, 8, r)
  {
    hide Copied, Turned;
    var w, h, stride := decoded.width, decoded.height, decoded.width * 4;
    var newW, newH := h, w;
    var newStride := newW * 4;
    var pixels := new Byte[newW * newH * 4](_ => 0);
    NothingCopied(decoded, 8, pixels[..]);
    for y := 0 to h
      invariant Copied(decoded, 8, pixels[..], y, 0)
    {
      var srcBase := y * stride;
      for x := 0 to w
        invariant Copied(decoded, 8, pixels[..], y, x)
      {
        var srcIdx := srcBase + x * 4;
        var dstX, dstY := y, w - 1 - x;
        var dstIdx := dstY * newStride + dstX * 4;
        CopyPixel(decoded, 8, pixels, srcIdx, dstIdx, x, y);
      }
      RowDone(decoded, 8, pixels[..], y);
    }
    r := DecodedRgba(newW, newH, pixels[..]);
    AllCopied(decoded, 8, r);
  }

  /** Where a pixel stands in the buffer, counted in bytes from the start of its row. */
  predicate StandsAt(width: nat, place: (nat, nat), index: nat) {
    index == place.1 * (width * 4) + place.0 * 4
  }

  lemma IndexOf(width: nat, place: (nat, nat), index: nat)
    requires StandsAt(width, place, index)
    ensures index == Index(width, place.0, place.1)
  {
    assert place.1 * (width * 4) == 4 * (place.1 * width);
  }

  /** Copy the four bytes of a pixel to its place. */
  method CopyPixel(decoded: DecodedRgba, ghost orientation: nat, pixels: array<Byte>, srcIdx: nat, dstIdx: nat,
                   ghost x: nat, ghost y: nat)
    requires Packed(decoded) && x < decoded.width && y < decoded.height
    requires Copied(decoded, orientation, pixels[..], y, x)
    requires StandsAt(decoded.width, (x, y), srcIdx)
    requires StandsAt(Width(orientation, decoded.width, decoded.height),
                      Place(orientation, decoded.width, decoded.height, x, y), dstIdx)
    modifies pixels
    ensures Copied(decoded, orientation, pixels[..], y, x + 1)
  {
    hide Place, Width, Height;
    ghost var w, h, before := decoded.width, decoded.height, pixels[..];
    ghost var place := Place(orientation, w, h, x, y);
    IndexOf(w, (x, y), srcIdx);
    IndexOf(Width(orientation, w, h), place, dstIdx);
    Below(w, h, x, y);
    Below(Width(orientation, w, h), Height(orientation, w, h), place.0, place.1);
    forall c | 0 <= c < 4 {
      pixels[dstIdx + c] := decoded.pixels[srcIdx + c];
    }
    assert pixels[..][dstIdx..dstIdx + 4] == Pixel(decoded, x, y);
    CopyKeeps(decoded, orientation, before, pixels[..], x, y);
  }

  lemma NothingCopied(a: DecodedRgba, orientation: nat, buffer: seq<Byte>)
    requires Packed(a) && |buffer| == |a.pixels|
    ensures Copied(a, orientation, buffer, 0, 0)
  {
    assert Width(orientation, a.width, a.height) * Height(orientation, a.width, a.height) == a.width * a.height;
  }

  /** The rows before y, and the first x pixels of row y, are in their places. */
  ghost predicate Copied(a: DecodedRgba, orientation: nat, buffer: seq<Byte>, y: nat, x: nat)
    requires Packed(a)
  {
    && |buffer| == 4 * (Width(orientation, a.width, a.height) * Height(orientation, a.width, a.height))
    && var b := DecodedRgba(Width(orientation, a.width, a.height), Height(orientation, a.width, a.height), buffer);
       forall i: nat, j: nat :: i < a.width && j < a.height && (j < y || (j == y && i < x)) ==>
         InPlace(a, orientation, b, i, j)
  }

  lemma PlacesDiffer(orientation: nat, w: nat, h: nat, x: nat, y: nat, x': nat, y': nat)
    requires x < w && y < h && x' < w && y' < h && (x != x' || y != y')
    ensures Place(orientation, w, h, x, y) != Place(orientation, w, h, x', y')
  {
  }

  /** A copy of four bytes changes those four only. */
  ghost predicate Patched(before: seq<Byte>, after: seq<Byte>, dst: nat, bytes: seq<Byte>) {
    && |after| == |before| && dst + 4 <= |after| && after[dst..dst + 4] == bytes
    && forall k :: 0 <= k < |after| && !(dst <= k < dst + 4) ==> after[k] == before[k]
  }

  lemma PatchedElsewhere(before: seq<Byte>, after: seq<Byte>, dst: nat, bytes: seq<Byte>, at: nat)
    requires Patched(before, after, dst, bytes) && at + 4 <= |after| && (at + 4 <= dst || dst + 4 <= at)
    ensures after[at..at + 4] == before[at..at + 4]
  {
  }

  lemma CopyKeeps(a: DecodedRgba, orientation: nat, before: seq<Byte>, after: seq<Byte>, x: nat, y: nat)
    requires Packed(a) && x < a.width && y < a.height && Copied(a, orientation, before, y, x)
    requires
      var place := Place(orientation, a.width, a.height, x, y);
      Patched(before, after, Index(Width(orientation, a.width, a.height), place.0, place.1), Pixel(a, x, y))
    ensures Copied(a, orientation, after, y, x + 1)
  {
    hide Place, Index, Patched, Width, Height;
    var w, h := a.width, a.height;
    var newW, newH := Width(orientation, w, h), Height(orientation, w, h);
    assert |after| == |before| by { PatchedLength(before, after, w, h, x, y, orientation, Pixel(a, x, y)); }
    var b, b' := DecodedRgba(newW, newH, before), DecodedRgba(newW, newH, after);
    var here := Place(orientation, w, h, x, y);
    forall i: nat, j: nat | i < w && j < h && (j < y || (j == y && i < x + 1))
      ensures InPlace(a, orientation, b', i, j)
    {
      if i == x && j == y {
        PatchedHere(b, b', here.0, here.1, Pixel(a, x, y));
      } else {
        var there := Place(orientation, w, h, i, j);
        PlacesDiffer(orientation, w, h, x, y, i, j);
        assert InPlace(a, orientation, b, i, j);
        PatchedThere(b, b', here, there, Pixel(a, x, y));
      }
    }
  }

  lemma PatchedLength(before: seq<Byte>, after: seq<Byte>, w: nat, h: nat, x: nat, y: nat, orientation: nat,
                      bytes: seq<Byte>)
    requires x < w && y < h
    requires
      var place := Place(orientation, w, h, x, y);
      Patched(before, after, Index(Width(orientation, w, h), place.0, place.1), bytes)
    ensures |after| == |before|
  {
  }

  lemma PatchedHere(b: DecodedRgba, b': DecodedRgba, u: nat, v: nat, bytes: seq<Byte>)
    requires Packed(b) && Packed(b') && b'.width == b.width && b'.height == b.height && u < b.width && v < b.height
    requires Patched(b.pixels, b'.pixels, Index(b.width, u, v), bytes)
    ensures Pixel(b', u, v) == bytes
  {
  }

  lemma PatchedThere(b: DecodedRgba, b': DecodedRgba, here: (nat, nat), there: (nat, nat), bytes: seq<Byte>)
    requires Packed(b) && Packed(b') && b'.width == b.width && b'.height == b.height && here != there
    requires here.0 < b.width && here.1 < b.height && there.0 < b.width && there.1 < b.height
    requires Patched(b.pixels, b'.pixels, Index(b.width, here.0, here.1), bytes)
    ensures Pixel(b', there.0, there.1) == Pixel(b, there.0, there.1)
  {
    Apart(b.width, here.0, here.1, there.0, there.1);
    Below(b.width, b.height, there.0, there.1);
    PatchedElsewhere(b.pixels, b'.pixels, Index(b.width, here.0, here.1), bytes, Index(b.width, there.0, there.1));
  }

  lemma RowDone(a: DecodedRgba, orientation: nat, buffer: seq<Byte>, y: nat)
    requires Packed(a) && Copied(a, orientation, buffer, y, a.width)
    ensures Copied(a, orientation, buffer, y + 1, 0)
  {
  }

  lemma AllCopied(a: DecodedRgba, orientation: nat, b: DecodedRgba)
    requires Packed(a) && Copied(a, orientation, b.pixels, a.height, 0)
    requires b.width == Width(orientation, a.width, a.height) && b.height == Height(orientation, a.width, a.height)
    ensures Turned(a, orientation, b)
  {
  }

  // --- the group of the orientations ---

  function Encode(t: Turn): (orientation: nat)
    ensures 1 <= orientation <= 8 && TurnOf(orientation) == t
  {
    if t.transpose
    then (if t.flipX then (if t.flipY then 5 else 6) else (if t.flipY then 8 else 7))
    else (if t.flipX then (if t.flipY then 3 else 2) else (if t.flipY then 4 else 1))
  }

  /** One orientation, then another. */
  function Then(first: nat, second: nat): (both: nat)
    ensures 1 <= both <= 8
  {
    var f, s := TurnOf(first), TurnOf(second);
    Encode(Turn(f.transpose != s.transpose,
                s.flipX != (if s.transpose then f.flipY else f.flipX),
                s.flipY != (if s.transpose then f.flipX else f.flipY)))
  }

  /** The orientation that undoes one. */
  function Inverse(orientation: nat): nat {
    if orientation == 6 then 8 else if orientation == 8 then 6 else orientation
  }

  lemma Laws(a: nat, b: nat, c: nat)
    requires 1 <= a <= 8
    ensures Then(Then(a, b), c) == Then(a, Then(b, c)) && Then(1, a) == a == Then(a, 1)
    ensures Then(a, Inverse(a)) == 1 == Then(Inverse(a), a)
    ensures Then(a, a) == 1 <==> a != 6 && a != 8
    ensures Then(6, 6) == 3 && Then(6, 4) == 5 && Then(8, 4) == 7 && Then(4, 6) != Then(6, 4)
  {
  }

  lemma PlaceThen(first: nat, second: nat, w: nat, h: nat, x: nat, y: nat)
    requires x < w && y < h
    ensures Width(Then(first, second), w, h) == Width(second, Width(first, w, h), Height(first, w, h))
    ensures Height(Then(first, second), w, h) == Height(second, Width(first, w, h), Height(first, w, h))
    ensures
      var place := Place(first, w, h, x, y);
      Place(Then(first, second), w, h, x, y) == Place(second, Width(first, w, h), Height(first, w, h), place.0, place.1)
  {
  }

  /** Turning a picture twice is turning it once, by the product: the orientations act on pictures
      like the symmetries of a square. */
  lemma TurnedTwice(a: DecodedRgba, first: nat, b: DecodedRgba, second: nat, c: DecodedRgba)
    requires Turned(a, first, b) && Turned(b, second, c)
    ensures Turned(a, Then(first, second), c)
  {
    hide Pixel, Place, Width, Height, Then;
    SizesThen(first, second, a.width, a.height);
    forall x: nat, y: nat | x < a.width && y < a.height
      ensures InPlace(a, Then(first, second), c, x, y)
    {
      PlaceThen(first, second, a.width, a.height, x, y);
      var place := Place(first, a.width, a.height, x, y);
      assert InPlace(a, first, b, x, y) && InPlace(b, second, c, place.0, place.1);
    }
  }

  lemma SizesThen(first: nat, second: nat, w: nat, h: nat)
    ensures Width(Then(first, second), w, h) == Width(second, Width(first, w, h), Height(first, w, h))
    ensures Height(Then(first, second), w, h) == Height(second, Width(first, w, h), Height(first, w, h))
  {
  }

  /** Pictures with the same pixels are the same. */
  lemma SamePixels(a: DecodedRgba, b: DecodedRgba)
    requires Packed(a) && Packed(b) && a.width == b.width && a.height == b.height
    requires forall x: nat, y: nat :: x < a.width && y < a.height ==> Pixel(a, x, y) == Pixel(b, x, y)
    ensures a == b
  {
    forall k | 0 <= k < |a.pixels|
      ensures a.pixels[k] == b.pixels[k]
    {
      var x, y := Owner(a.width, a.height, k);
      assert Pixel(a, x, y) == Pixel(b, x, y);
      assert a.pixels[k] == Pixel(a, x, y)[k - Index(a.width, x, y)];
    }
  }

  /** The pixel a byte belongs to. */
  lemma Owner(w: nat, h: nat, k: nat) returns (x: nat, y: nat)
    requires k < 4 * (w * h)
    ensures x < w && y < h && Index(w, x, y) <= k < Index(w, x, y) + 4
  {
    var p := k / 4;
    assert p < w * h;
    assert w > 0;
    x, y := p % w, p / w;
    assert p == y * w + x;
    if y >= h {
      Grows(h, y, w);
    }
  }

  lemma Grows(a: nat, b: nat, w: nat)
    requires a <= b
    ensures a * w <= b * w
  {
  }

  /** There is one way to turn a picture. */
  lemma TurnedOneWay(a: DecodedRgba, orientation: nat, b: DecodedRgba, c: DecodedRgba)
    requires Turned(a, orientation, b) && Turned(a, orientation, c)
    ensures b == c
  {
    hide Pixel, Width, Height;
    forall u: nat, v: nat | u < b.width && v < b.height
      ensures Pixel(b, u, v) == Pixel(c, u, v)
    {
      var x, y := Source(orientation, a.width, a.height, u, v);
      assert InPlace(a, orientation, b, x, y) && InPlace(a, orientation, c, x, y);
    }
    SamePixels(b, c);
  }

  lemma Source(orientation: nat, w: nat, h: nat, u: nat, v: nat) returns (x: nat, y: nat)
    requires u < Width(orientation, w, h) && v < Height(orientation, w, h)
    ensures x < w && y < h && Place(orientation, w, h, x, y) == (u, v)
  {
    var place := Place(Inverse(orientation), Width(orientation, w, h), Height(orientation, w, h), u, v);
    x, y := place.0, place.1;
  }

  /** Turning back restores the picture, so turning loses and invents no pixel. */
  lemma TurningBackRestores(a: DecodedRgba, orientation: nat, b: DecodedRgba, c: DecodedRgba)
    requires Turned(a, orientation, b) && Turned(b, Inverse(orientation), c)
    ensures c == a
  {
    TurnedTwice(a, orientation, b, Inverse(orientation), c);
    Laws(Encode(TurnOf(orientation)), 1, 1);
    assert Turned(a, 1, a);
    TurnedOneWay(a, 1, a, c);
  }

  // --- the standard ---

  /** The sides of the upright picture at which the stored picture's first row and first column lie
      (TIFF 6.0, section 8, Orientation). */
  datatype Side = Top | Bottom | Left | Right

  function FirstRowAt(orientation: nat): Side {
    match orientation
    case 3 => Bottom
    case 4 => Bottom
    case 5 => Left
    case 6 => Right
    case 7 => Right
    case 8 => Left
    case _ => Top
  }

  function FirstColumnAt(orientation: nat): Side {
    match orientation
    case 2 => Right
    case 3 => Right
    case 5 => Top
    case 6 => Top
    case 7 => Bottom
    case 8 => Bottom
    case _ => Left
  }

  /** The coordinate of something at a distance from one of two opposite sides. */
  function From(side: Side, distance: nat, size: nat): nat
    requires distance < size
  {
    if side.Top? || side.Left? then distance else size - 1 - distance
  }

  /** Where the standard puts a pixel: row y lies at distance y from the side of the first row, column
      x at distance x from the side of the first column. */
  function StandardPlace(orientation: nat, w: nat, h: nat, x: nat, y: nat): (nat, nat)
    requires x < w && y < h
  {
    var row, column := FirstRowAt(orientation), FirstColumnAt(orientation);
    if row.Top? || row.Bottom? then (From(column, x, w), From(row, y, h)) else (From(row, y, h), From(column, x, w))
  }

  /** A picture is another one turned the way the standard says. */
  ghost predicate StandardTurned(a: DecodedRgba, orientation: nat, b: DecodedRgba) {
    && Packed(a) && Packed(b)
    && b.width == Width(orientation, a.width, a.height) && b.height == Height(orientation, a.width, a.height)
    && forall x: nat, y: nat :: x < a.width && y < a.height ==>
         && var place := StandardPlace(orientation, a.width, a.height, x, y);
            place.0 < b.width && place.1 < b.height && Pixel(b, place.0, place.1) == Pixel(a, x, y)
  }

  /** The code's number for what the standard means by a number. */
  function InCode(orientation: nat): nat {
    if orientation == 5 then 7 else if orientation == 7 then 5 else orientation
  }

  lemma StandardIsInCode(a: DecodedRgba, orientation: nat, b: DecodedRgba)
    ensures StandardTurned(a, orientation, b) <==> Turned(a, InCode(orientation), b)
  {
    hide Pixel;
    assert forall x: nat, y: nat :: x < a.width && y < a.height ==>
      StandardPlace(orientation, a.width, a.height, x, y) == Place(InCode(orientation), a.width, a.height, x, y);
    if Turned(a, InCode(orientation), b) {
      forall x: nat, y: nat | x < a.width && y < a.height
        ensures var place := StandardPlace(orientation, a.width, a.height, x, y);
                Pixel(b, place.0, place.1) == Pixel(a, x, y)
      {
        assert InPlace(a, InCode(orientation), b, x, y);
      }
    }
  }

  /** Turning is undone by the inverse. */
  lemma TurnedBack(a: DecodedRgba, orientation: nat, b: DecodedRgba)
    requires Turned(a, orientation, b)
    ensures Turned(b, Inverse(orientation), a)
  {
    hide Pixel;
    forall u: nat, v: nat | u < b.width && v < b.height
      ensures InPlace(b, Inverse(orientation), a, u, v)
    {
      var x, y := Source(orientation, a.width, a.height, u, v);
      assert InPlace(a, orientation, b, x, y);
    }
  }

  /** The code turns a picture as the standard says exactly for the orientations other than 5 and 7,
      and for pictures that are their own half turn. */
  lemma StandardTurnIff(a: DecodedRgba, orientation: nat, b: DecodedRgba)
    requires 1 <= orientation <= 8 && Turned(a, orientation, b)
    ensures StandardTurned(a, orientation, b) <==> orientation !in {5, 7} || Turned(a, 3, a)
  {
    hide Turned;
    var other := InCode(orientation);
    StandardIsInCode(a, orientation, b);
    if other != orientation {
      if Turned(a, 3, a) {
        TurnedTwice(a, 3, a, orientation, b);
      }
      if Turned(a, other, b) {
        TurnedBack(a, orientation, b);
        TurnedTwice(a, other, b, Inverse(orientation), a);
      }
    }
  }

  /** Two pixels as a row and as a column. */
  function Row(first: seq<Byte>, second: seq<Byte>): DecodedRgba { DecodedRgba(2, 1, first + second) }

  function Column(first: seq<Byte>, second: seq<Byte>): DecodedRgba { DecodedRgba(1, 2, first + second) }

  lemma PairPixels(first: seq<Byte>, second: seq<Byte>)
    requires |first| == 4 && |second| == 4
    ensures Pixel(Row(first, second), 0, 0) == first && Pixel(Row(first, second), 1, 0) == second
    ensures Pixel(Column(first, second), 0, 0) == first && Pixel(Column(first, second), 0, 1) == second
  {
  }

  lemma PairTurned(first: seq<Byte>, second: seq<Byte>)
    requires |first| == 4 && |second| == 4
    ensures Turned(Row(first, second), 5, Column(second, first))
    ensures Turned(Row(first, second), 7, Column(first, second))
  {
    hide Pixel;
    PairPixels(first, second);
    PairPixels(second, first);
  }

  /** Two different pixels side by side: orientation 5 puts the second one on top, the standard the
      first. */
  lemma StandardMissed(first: seq<Byte>, second: seq<Byte>, b: DecodedRgba)
    requires |first| == 4 && |second| == 4 && first != second
    requires Turned(Row(first, second), 5, b)
    ensures b == Column(second, first) && !StandardTurned(Row(first, second), 5, b)
    ensures StandardTurned(Row(first, second), 5, Column(first, second))
  {
    hide Turned, StandardTurned, Pixel;
    var a := Row(first, second);
    PairTurned(first, second);
    TurnedOneWay(a, 5, b, Column(second, first));
    StandardIsInCode(a, 5, Column(first, second));
    StandardIsInCode(a, 5, b);
    PairPixels(first, second);
    PairPixels(second, first);
    if StandardTurned(a, 5, b) {
      TurnedOneWay(a, 7, b, Column(first, second));
    }
  }

  // --- cutting ---

  type U32 = n: nat | n < U32_RANGE

  /** The cut picture, the error, or no return at all. */
  datatype CropResult = Cut(picture: DecodedRgba) | OutOfBounds | Panicked

  /** 32-bit addition where overflow is not checked. */
  function Sum32(a: U32, b: U32): U32 { (a + b) % U32_RANGE }

  predicate Fits(src: DecodedRgba, x: nat, y: nat, w: nat, h: nat) { x + w <= src.width && y + h <= src.height }

  /** A sum overflows, and what is left of it passes for a place inside the picture. */
  predicate Slips(src: DecodedRgba, x: U32, y: U32, w: U32, h: U32) {
    && (x + w >= U32_RANGE || y + h >= U32_RANGE)
    && Sum32(x, w) <= src.width && Sum32(y, h) <= src.height
  }

  function RowStart(src: DecodedRgba, x: U32, y: U32, row: U32): nat { Sum32(y, row) * (src.width * 4) + x * 4 }

  /** Some row ends behind the buffer. */
  ghost predicate Overruns(src: DecodedRgba, x: U32, y: U32, w: U32, h: U32) {
    exists row: U32 :: row < h && RowStart(src, x, y, row) + 4 * w > |src.pixels|
  }

  /** A picture is the rectangle of another one at a place. */
  ghost predicate Cropped(a: DecodedRgba, x: nat, y: nat, b: DecodedRgba) {
    && Packed(a) && Packed(b) && x + b.width <= a.width && y + b.height <= a.height
    && forall i: nat, j: nat :: i < b.width && j < b.height ==> Pixel(b, i, j) == Pixel(a, x + i, y + j)
  }

  function RowOf(b: DecodedRgba, row: nat): (bytes: seq<Byte>)
    requires Packed(b) && row < b.height
    ensures |bytes| == 4 * b.width
  {
    RowInside(b.width, b.height, row);
    b.pixels[4 * (row * b.width)..4 * (row * b.width) + 4 * b.width]
  }

  lemma RowInside(width: nat, height: nat, row: nat)
    requires row < height
    ensures 4 * (row * width) + 4 * width <= 4 * (width * height)
  {
    assert (row + 1) * width <= height * width;
  }

  /** Row by row, a picture is what a buffer holds from the computed starts on. */
  ghost predicate Rows(src: DecodedRgba, x: U32, y: U32, b: DecodedRgba) {
    && Packed(b) && b.height < U32_RANGE
    && forall row: nat :: row < b.height ==>
         && RowStart(src, x, y, row) + 4 * b.width <= |src.pixels|
         && RowOf(b, row) == src.pixels[RowStart(src, x, y, row)..][..4 * b.width]
  }

  /** Cut a rectangle out. `checked` is whether the build stops at an overflow, as debug builds do. */
  method CropRgba(src: DecodedRgba, x: U32, y: U32, w: U32, h: U32, checked: bool) returns (r: CropResult)
    requires Packed(src) && src.width < U32_RANGE && src.height < U32_RANGE
    // A rectangle inside the picture is cut out, always.
    ensures Fits(src, x, y, w, h) ==> r.Cut? && Cropped(src, x, y, r.picture)
    ensures r.Cut? ==> r.picture.width == w && r.picture.height == h && Rows(src, x, y, r.picture)
    // Any other is an error, unless a sum overflows.
    ensures !checked ==> ((r.OutOfBounds? <==> !Fits(src, x, y, w, h)) <==> !Slips(src, x, y, w, h))
    ensures !checked ==> (r.Panicked? <==> Slips(src, x, y, w, h) && Overruns(src, x, y, w, h))
    ensures checked ==> (r.Cut? <==> Fits(src, x, y, w, h))
    ensures checked ==> (r.Panicked? <==> x + w >= U32_RANGE || (x + w <= src.width && y + h >= U32_RANGE))
  {
    hide Rows, Cropped, Overruns;
    if checked && x + w >= U32_RANGE {
      return Panicked;
    }
    if Sum32(x, w) > src.width {
      return OutOfBounds;
    }
    if checked && y + h >= U32_RANGE {
      return Panicked;
    }
    if Sum32(y, h) > src.height {
      return OutOfBounds;
    }
    r := CopyRows(src, x, y, w, h);
    if Fits(src, x, y, w, h) {
      NoOverrun(src, x, y, w, h);
      RowsCropped(src, x, y, r.picture);
    }
  }

  method CopyRows(src: DecodedRgba, x: U32, y: U32, w: U32, h: U32) returns (r: CropResult)
    ensures !r.OutOfBounds? && (r.Panicked? <==> Overruns(src, x, y, w, h))
    ensures r.Cut? ==> r.picture.width == w && r.picture.height == h && Rows(src, x, y, r.picture)
  {
    hide Rows;
    var stride, rowByteLen := src.width * 4, w * 4;
    var pixels: seq<Byte> := [];
    NoRows(src, x, y, w);
    for row := 0 to h
      invariant Rows(src, x, y, DecodedRgba(w, row, pixels))
    {
      var srcOffset := Sum32(y, row) * stride + x * 4;
      assert srcOffset == RowStart(src, x, y, row);
      if srcOffset + rowByteLen > |src.pixels| {
        return Panicked;
      }
      ghost var above := DecodedRgba(w, row, pixels);
      pixels := pixels + src.pixels[srcOffset..srcOffset + rowByteLen];
      NextRow(src, x, y, above, DecodedRgba(w, row + 1, pixels));
    }
    r := Cut(DecodedRgba(w, h, pixels));
    RowsInside(src, x, y, r.picture);
  }

  lemma NoOverrun(src: DecodedRgba, x: U32, y: U32, w: U32, h: U32)
    requires Packed(src) && src.width < U32_RANGE && src.height < U32_RANGE && Fits(src, x, y, w, h)
    ensures !Overruns(src, x, y, w, h)
  {
    forall row: U32 | row < h
      ensures RowStart(src, x, y, row) + 4 * w <= |src.pixels|
    {
      RowFits(src, x, y, w, h, row);
    }
  }

  /** One pixel, and rectangles that begin where 32 bits end: the one without rows is "cut out", the
      other stops the program. */
  lemma CropSlips(src: DecodedRgba)
    requires Packed(src) && src.width == 1 && src.height == 1
    ensures !Fits(src, U32_RANGE - 1, 0, 1, 0) && !Fits(src, U32_RANGE - 1, 0, 1, 1)
    ensures Slips(src, U32_RANGE - 1, 0, 1, 0) && !Overruns(src, U32_RANGE - 1, 0, 1, 0)
    ensures Slips(src, U32_RANGE - 1, 0, 1, 1) && Overruns(src, U32_RANGE - 1, 0, 1, 1)
  {
    assert RowStart(src, U32_RANGE - 1, 0, 0) + 4 > |src.pixels|;
  }

  lemma NoRows(src: DecodedRgba, x: U32, y: U32, w: U32)
    ensures Rows(src, x, y, DecodedRgba(w, 0, []))
  {
  }

  lemma RowsInside(src: DecodedRgba, x: U32, y: U32, b: DecodedRgba)
    requires Rows(src, x, y, b) && b.width < U32_RANGE
    ensures !Overruns(src, x, y, b.width, b.height)
  {
  }

  lemma RowFits(src: DecodedRgba, x: U32, y: U32, w: U32, h: U32, row: U32)
    requires Packed(src) && src.height < U32_RANGE && Fits(src, x, y, w, h) && row < h
    ensures RowStart(src, x, y, row) == 4 * ((y + row) * src.width) + 4 * x
    ensures RowStart(src, x, y, row) + 4 * w <= |src.pixels|
  {
    assert (y + row) * (src.width * 4) == 4 * ((y + row) * src.width);
    RowInside(src.width, src.height, y + row);
  }

  lemma NextRow(src: DecodedRgba, x: U32, y: U32, above: DecodedRgba, b: DecodedRgba)
    requires Rows(src, x, y, above) && b.width == above.width && b.height == above.height + 1 < U32_RANGE
    requires RowStart(src, x, y, above.height) + 4 * b.width <= |src.pixels|
    requires b.pixels == above.pixels + src.pixels[RowStart(src, x, y, above.height)..][..4 * b.width]
    ensures Rows(src, x, y, b)
  {
    hide RowStart, RowOf;
    assert b.width * b.height == above.width * above.height + b.width;
    forall row: nat | row < b.height
      ensures RowOf(b, row) == src.pixels[RowStart(src, x, y, row)..][..4 * b.width]
    {
      if row < above.height {
        UpperRow(above, b, row);
      } else {
        LastRow(above, b);
      }
    }
  }

  lemma UpperRow(above: DecodedRgba, b: DecodedRgba, row: nat)
    requires Packed(above) && Packed(b) && b.width == above.width && b.height == above.height + 1
    requires above.pixels <= b.pixels && row < above.height
    ensures RowOf(b, row) == RowOf(above, row)
  {
    RowInside(above.width, above.height, row);
  }

  lemma LastRow(above: DecodedRgba, b: DecodedRgba)
    requires Packed(above) && Packed(b) && b.width == above.width && b.height == above.height + 1
    requires above.pixels <= b.pixels
    ensures RowOf(b, above.height) == b.pixels[|above.pixels|..]
  {
  }

  /** Where the rectangle fits, its rows are its pixels. */
  lemma RowsCropped(src: DecodedRgba, x: U32, y: U32, b: DecodedRgba)
    requires Packed(src) && src.width < U32_RANGE && src.height < U32_RANGE
    requires Rows(src, x, y, b) && x + b.width <= src.width && y + b.height <= src.height
    ensures Cropped(src, x, y, b)
  {
    hide Pixel, RowStart, RowOf;
    forall i: nat, j: nat | i < b.width && j < b.height
      ensures Pixel(b, i, j) == Pixel(src, x + i, y + j)
    {
      RowFits(src, x, y, b.width, b.height, j);
      PixelInRow(b, i, j);
      PixelAt(src, x, y, b.width, i, j);
    }
  }

  lemma PixelInRow(b: DecodedRgba, i: nat, j: nat)
    requires Packed(b) && i < b.width && j < b.height
    ensures Pixel(b, i, j) == RowOf(b, j)[4 * i..4 * i + 4]
  {
    RowInside(b.width, b.height, j);
  }

  lemma PixelAt(src: DecodedRgba, x: nat, y: nat, w: nat, i: nat, j: nat)
    requires Packed(src) && i < w && x + w <= src.width && y + j < src.height
    requires 4 * ((y + j) * src.width) + 4 * x + 4 * w <= |src.pixels|
    ensures Pixel(src, x + i, y + j) == src.pixels[4 * ((y + j) * src.width) + 4 * x..][..4 * w][4 * i..4 * i + 4]
  {
    hide Index;
    IndexSum(src.width, x, y + j, i);
    SubSlice(src.pixels, 4 * ((y + j) * src.width) + 4 * x, 4 * w, 4 * i);
  }

  lemma IndexSum(width: nat, x: nat, y: nat, i: nat)
    ensures Index(width, x + i, y) == 4 * (y * width) + 4 * x + 4 * i
  {
  }

  lemma SubSlice(bytes: seq<Byte>, start: nat, length: nat, from: nat)
    requires from + 4 <= length && start + length <= |bytes|
    ensures bytes[start..][..length][from..from + 4] == bytes[start + from..start + from + 4]
  {
  }

  /** Where a rectangle lands when its picture is turned. */
  function RectangleAt(orientation: nat, w: nat, h: nat, x: nat, y: nat, cw: nat, ch: nat): (place: (nat, nat))
    requires x + cw <= w && y + ch <= h
  {
    var t := TurnOf(orientation);
    var (u, v) := if t.transpose then (y, x) else (x, y);
    var (cu, cv) := if t.transpose then (ch, cw) else (cw, ch);
    (if t.flipX then Width(orientation, w, h) - u - cu else u,
     if t.flipY then Height(orientation, w, h) - v - cv else v)
  }

  /** Cutting then turning is turning then cutting where the rectangle landed. */
  lemma CropCommutes(a: DecodedRgba, orientation: nat, x: nat, y: nat, cut: DecodedRgba, cutTurned: DecodedRgba,
                     turned: DecodedRgba)
    requires Cropped(a, x, y, cut) && Turned(cut, orientation, cutTurned) && Turned(a, orientation, turned)
    ensures
      var place := RectangleAt(orientation, a.width, a.height, x, y, cut.width, cut.height);
      Cropped(turned, place.0, place.1, cutTurned)
  {
    hide Pixel;
    var place := RectangleAt(orientation, a.width, a.height, x, y, cut.width, cut.height);
    forall u: nat, v: nat | u < cutTurned.width && v < cutTurned.height
      ensures Pixel(cutTurned, u, v) == Pixel(turned, place.0 + u, place.1 + v)
    {
      var i, j := Source(orientation, cut.width, cut.height, u, v);
      assert InPlace(cut, orientation, cutTurned, i, j) && InPlace(a, orientation, turned, x + i, y + j);
    }
  }
}
