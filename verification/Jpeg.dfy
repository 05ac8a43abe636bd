/** The marker segments of a JPEG file, and the two readers that walk them. */
module Jpeg {
  import opened Options
  import opened Exif

  const APP1: Byte := 0xE1

  /** A segment before the one a reader looks for: a bare marker or one with a length. */
  datatype Segment = Bare(marker: Byte) | Sized(marker: Byte, body: seq<Byte>)

  predicate IsBare(marker: Byte) { 0xD0 <= marker <= 0xD8 }

  predicate EndsMetadata(marker: Byte) { marker == 0xD9 || marker == 0xDA }

  predicate IsFrame(marker: Byte) { 0xC0 <= marker <= 0xC2 }

  /** The markers the orientation reader, or else the size reader, stops at. */
  predicate Sought(size: bool, marker: Byte) { if size then IsFrame(marker) else marker == APP1 }

  ghost predicate Passable(size: bool, s: Segment) {
    match s
    case Bare(marker) => IsBare(marker)
    case Sized(marker, body) =>
      !IsBare(marker) && !EndsMetadata(marker) && !Sought(size, marker) && |body| + 2 < 0x1_0000
  }

  function Print(s: Segment): (bytes: seq<Byte>)
    ensures |bytes| == match s case Bare(_) => 2 case Sized(_, body) => 4 + |body|
  {
    match s
    case Bare(marker) => [0xFF, marker]
    case Sized(marker, body) => [0xFF, marker] + Bytes(false, |body| + 2, 2) + body
  }

  function PrintAll(segments: seq<Segment>): seq<Byte> {
    if segments == [] then [] else Print(segments[0]) + PrintAll(segments[1..])
  }

  /** The length field of a segment, which counts itself. */
  function Length(bytes: seq<Byte>, pos: nat): nat
    requires pos + 4 <= |bytes|
  {
    Number(false, Slice(bytes, pos + 2, 2))
  }

  // --- walking to the segment ---

  /** What a walk over the segments comes to: the place of the segment it looks for, if the file
      has one before its metadata ends. A reader gives up when fewer than a few bytes are left. */
  function Find(size: bool, least: nat, bytes: seq<Byte>, pos: nat): (found: Option<nat>)
    requires least >= 4
    ensures found.Some? ==> found.value + least <= |bytes|
    decreases |bytes| - pos
  {
    if pos + least > |bytes| || bytes[pos] != 0xFF then None
    else
      var marker := bytes[pos + 1];
      if Sought(size, marker) then Some(pos)
      else if EndsMetadata(marker) then None
      else if IsBare(marker) then Find(size, least, bytes, pos + 2)
      else if Length(bytes, pos) < 2 then None
      else Find(size, least, bytes, pos + 2 + Length(bytes, pos))
  }

  lemma Splits(bytes: seq<Byte>, pos: nat, a: seq<Byte>, b: seq<Byte>)
    requires pos <= |bytes| && bytes[pos..] == a + b
    ensures pos + |a| <= |bytes| && Slice(bytes, pos, |a|) == a && bytes[pos + |a|..] == b
  {
  }

  lemma Within(bytes: seq<Byte>, pos: nat, length: nat, i: nat, n: nat)
    requires pos + length <= |bytes| && i + n <= length
    ensures Slice(bytes, pos, length)[i..i + n] == Slice(bytes, pos + i, n)
  {
    var whole := Slice(bytes, pos, length);
    var part := whole[i..i + n];
    assert forall k :: 0 <= k < n ==> part[k] == whole[i + k] == bytes[pos + i + k];
  }

  /** A printed segment is passed over in one step. */
  lemma FindPasses(size: bool, least: nat, bytes: seq<Byte>, pos: nat, s: Segment)
    requires least >= 4 && Passable(size, s) && pos + |Print(s)| + least <= |bytes|
    requires Slice(bytes, pos, |Print(s)|) == Print(s)
    ensures Find(size, least, bytes, pos) == Find(size, least, bytes, pos + |Print(s)|)
  {
    hide Bytes, Number;
    var p := Slice(bytes, pos, |Print(s)|);
    assert bytes[pos] == p[0] == 0xFF && bytes[pos + 1] == p[1] == s.marker;
    if s.Sized? {
      Within(bytes, pos, |p|, 2, 2);
      assert p[2..4] == Bytes(false, |s.body| + 2, 2);
      assert Power(2) == 0x1_0000;
      NumberInverse(false, |s.body| + 2, 2);
    }
  }

  lemma FindHere(size: bool, least: nat, bytes: seq<Byte>, pos: nat)
    requires least >= 4
    ensures Find(size, least, bytes, pos).Some? ==> pos + least <= |bytes| && bytes[pos] == 0xFF
    ensures pos + least <= |bytes| && bytes[pos] == 0xFF && Sought(size, bytes[pos + 1]) ==>
              Find(size, least, bytes, pos) == Some(pos)
  {
  }

  lemma {:induction false} FindPrinted(size: bool, least: nat, bytes: seq<Byte>, pos: nat, segments: seq<Segment>,
                                       tail: seq<Byte>)
    requires least >= 4 && |tail| >= least && tail[0] == 0xFF && Sought(size, tail[1])
    requires forall s :: s in segments ==> Passable(size, s)
    requires pos <= |bytes| && bytes[pos..] == PrintAll(segments) + tail
    ensures Find(size, least, bytes, pos) == Some(|bytes| - |tail|)
    decreases |segments|
  {
    hide Find, Print, Sought, Passable;
    if segments == [] {
      assert bytes[pos..] == tail && bytes[pos] == tail[0] && bytes[pos + 1] == tail[1];
      FindHere(size, least, bytes, pos);
    } else {
      var first := Print(segments[0]);
      assert bytes[pos..] == first + (PrintAll(segments[1..]) + tail);
      Splits(bytes, pos, first, PrintAll(segments[1..]) + tail);
      FindPrinted(size, least, bytes, pos + |first|, segments[1..], tail);
      FindPasses(size, least, bytes, pos, segments[0]);
    }
  }

  /** Conversely, what a walk passed over are printed segments. */
  lemma {:induction false} FoundIsPrinted(size: bool, least: nat, bytes: seq<Byte>, pos: nat)
    returns (segments: seq<Segment>)
    requires least >= 4 && Find(size, least, bytes, pos).Some?
    ensures forall s :: s in segments ==> Passable(size, s)
    ensures
      var at := Find(size, least, bytes, pos).value;
      && pos <= at && bytes[pos..at] == PrintAll(segments)
      && bytes[at] == 0xFF && Sought(size, bytes[at + 1])
    decreases |bytes| - pos
  {
    hide Find, Print, Sought, Passable;
    FindHere(size, least, bytes, pos);
    if Sought(size, bytes[pos + 1]) {
      segments := [];
    } else {
      var s := SegmentAt(size, least, bytes, pos);
      var rest := FoundIsPrinted(size, least, bytes, pos + |Print(s)|);
      var at := Find(size, least, bytes, pos).value;
      segments := [s] + rest;
      assert segments[1..] == rest;
      assert bytes[pos..at] == Slice(bytes, pos, |Print(s)|) + bytes[pos + |Print(s)|..at];
    }
  }

  lemma Joins(bytes: seq<Byte>, pos: nat, body: nat)
    requires pos + 4 + body <= |bytes|
    ensures Slice(bytes, pos, 4 + body)
            == [bytes[pos], bytes[pos + 1]] + Slice(bytes, pos + 2, 2) + bytes[pos + 4..pos + 4 + body]
  {
  }

  lemma FindStep(size: bool, least: nat, bytes: seq<Byte>, pos: nat)
    requires least >= 4 && Find(size, least, bytes, pos).Some? && !Sought(size, bytes[pos + 1])
    ensures !EndsMetadata(bytes[pos + 1]) && pos + 4 <= |bytes| && bytes[pos] == 0xFF
    ensures IsBare(bytes[pos + 1]) ==> Find(size, least, bytes, pos) == Find(size, least, bytes, pos + 2)
    ensures !IsBare(bytes[pos + 1]) ==>
              && Length(bytes, pos) >= 2
              && Find(size, least, bytes, pos) == Find(size, least, bytes, pos + 2 + Length(bytes, pos))
  {
  }

  lemma SegmentAt(size: bool, least: nat, bytes: seq<Byte>, pos: nat) returns (s: Segment)
    requires least >= 4 && Find(size, least, bytes, pos).Some? && !Sought(size, bytes[pos + 1])
    ensures Passable(size, s) && |Print(s)| > 0
    ensures pos + |Print(s)| <= |bytes| && Slice(bytes, pos, |Print(s)|) == Print(s)
    ensures Find(size, least, bytes, pos) == Find(size, least, bytes, pos + |Print(s)|)
  {
    hide Find, Bytes, Number;
    FindStep(size, least, bytes, pos);
    var marker := bytes[pos + 1];
    if IsBare(marker) {
      s := Bare(marker);
      assert Slice(bytes, pos, 2) == [0xFF, marker];
    } else {
      FindHere(size, least, bytes, pos + 2 + Length(bytes, pos));
      s := SizedAt(size, bytes, pos);
    }
  }

  lemma SizedAt(size: bool, bytes: seq<Byte>, pos: nat) returns (s: Segment)
    requires pos + 4 <= |bytes| && bytes[pos] == 0xFF && 2 <= Length(bytes, pos) <= |bytes| - pos - 2
    requires var m := bytes[pos + 1]; !IsBare(m) && !EndsMetadata(m) && !Sought(size, m)
    ensures s.Sized? && Passable(size, s) && |Print(s)| == 2 + Length(bytes, pos)
    ensures Slice(bytes, pos, |Print(s)|) == Print(s)
  {
    hide Bytes, Number, IsBare, EndsMetadata, Sought;
    var length := Length(bytes, pos);
    s := Sized(bytes[pos + 1], bytes[pos + 4..pos + 2 + length]);
    BytesOfNumber(false, Slice(bytes, pos + 2, 2));
    assert Power(2) == 0x1_0000;
    Joins(bytes, pos, |s.body|);
  }

  // --- the orientation reader ---

  /** What the Exif segment at a place says. */
  function ExifAt(bytes: seq<Byte>, pos: nat): Option<nat>
    requires pos + 4 <= |bytes|
  {
    var length := Length(bytes, pos);
    if length < 2 || pos + 2 + length > |bytes| then None
    else
      var payload := bytes[pos + 4..pos + 2 + length];
      if |payload| < 6 || payload[0..6] != EXIF then None else TiffOrientation(payload[6..])
  }

  method ReadExifOrientation(bytes: seq<Byte>) returns (r: Option<nat>)
    ensures r == Orientation(bytes)
  {
    hide Number, TiffOrientation;
    if |bytes| < 2 || bytes[0] != 0xFF || bytes[1] != 0xD8 {
      return None;
    }
    var pos := 2;
    while pos + 3 < |bytes|
      invariant pos >= 2
      invariant Find(false, 4, bytes, pos) == Find(false, 4, bytes, 2)
      decreases |bytes| - pos
    {
      if bytes[pos] != 0xFF {
        return None;
      }
      var marker := bytes[pos + 1];
      if marker == APP1 {
        var length := Length(bytes, pos);
        if length < 2 || pos + 2 + length > |bytes| {
          return None;
        }
        var payload := bytes[pos + 4..pos + 2 + length];
        if |payload| < 6 || payload[0..6] != EXIF {
          return None;
        }
        r := ParseTiffOrientation(payload[6..]);
        return;
      } else if EndsMetadata(marker) {
        return None;
      } else if IsBare(marker) {
        pos := pos + 2;
      } else {
        var length := Length(bytes, pos);
        if length < 2 {
          return None;
        }
        pos := pos + 2 + length;
      }
    }
    return None;
  }

  function Orientation(bytes: seq<Byte>): Option<nat> {
    if |bytes| < 2 || bytes[0..2] != SOI then None
    else
      var found := Find(false, 4, bytes, 2);
      if found.None? then None else ExifAt(bytes, found.value)
  }

  /** A JPEG file with an Exif segment after some others. */
  datatype File = File(segments: seq<Segment>, tiff: seq<Byte>, rest: seq<Byte>)

  ghost predicate WellFormed(f: File) {
    (forall s :: s in f.segments ==> Passable(false, s)) && |f.tiff| + 8 < 0x1_0000
  }

  function PrintFile(f: File): seq<Byte> {
    SOI + PrintAll(f.segments) + ([0xFF, APP1] + Bytes(false, |f.tiff| + 8, 2) + EXIF + f.tiff + f.rest)
  }

  lemma PrintedIsRead(f: File)
    requires WellFormed(f)
    ensures Orientation(PrintFile(f)) == TiffOrientation(f.tiff)
  {
    hide Find, Print, PrintAll, ExifAt, TiffOrientation, Bytes;
    var size := Bytes(false, |f.tiff| + 8, 2);
    var tail := [0xFF, APP1] + size + EXIF + f.tiff + f.rest;
    var bytes, at := PrintFile(f), 2 + |PrintAll(f.segments)|;
    assert bytes[0..2] == SOI && bytes[2..] == PrintAll(f.segments) + tail;
    Splits(bytes, 2, PrintAll(f.segments), tail);
    FindPrinted(false, 4, bytes, 2, f.segments, tail);
    ExifPrinted(bytes, at, size, f.tiff, f.rest);
  }

  lemma ExifPrinted(bytes: seq<Byte>, at: nat, size: seq<Byte>, tiff: seq<Byte>, rest: seq<Byte>)
    requires at <= |bytes| && bytes[at..] == [0xFF, APP1] + size + EXIF + tiff + rest
    requires |tiff| + 8 < 0x1_0000 && size == Bytes(false, |tiff| + 8, 2)
    ensures ExifAt(bytes, at) == TiffOrientation(tiff)
  {
    hide Bytes, Number, TiffOrientation;
    var tail := bytes[at..];
    assert Power(2) == 0x1_0000;
    NumberInverse(false, |tiff| + 8, 2);
    assert Slice(bytes, at + 2, 2) == tail[2..4] == size;
    var payload := bytes[at + 4..at + 2 + (|tiff| + 8)];
    assert payload == tail[4..|tiff| + 10] == EXIF + tiff;
  }

  /** The whole way: segments, byte order, directory, entries, value. */
  lemma PrintedOrientationIsRead(segments: seq<Segment>, t: Tiff, rest: seq<Byte>)
    requires Printable(t) && WellFormed(File(segments, PrintTiff(t), rest))
    ensures Orientation(PrintFile(File(segments, PrintTiff(t), rest))) == Valid(t.value)
  {
    PrintedIsRead(File(segments, PrintTiff(t), rest));
    PrintedTiffIsRead(t);
  }

  /** The reader returns an orientation exactly for the files that print as such a file whose TIFF
      block has it. */
  lemma OrientationIff(bytes: seq<Byte>, n: nat)
    ensures Orientation(bytes) == Some(n) <==>
            exists f :: WellFormed(f) && bytes == PrintFile(f) && TiffOrientation(f.tiff) == Some(n)
  {
    forall f | WellFormed(f) && bytes == PrintFile(f) && TiffOrientation(f.tiff) == Some(n)
      ensures Orientation(bytes) == Some(n)
    {
      PrintedIsRead(f);
    }
    if Orientation(bytes) == Some(n) {
      var f := FileOf(bytes);
      assert WellFormed(f) && bytes == PrintFile(f) && TiffOrientation(f.tiff) == Some(n);
    }
  }

  lemma FileOf(bytes: seq<Byte>) returns (f: File)
    requires Orientation(bytes).Some?
    ensures WellFormed(f) && bytes == PrintFile(f) && TiffOrientation(f.tiff) == Orientation(bytes)
  {
    hide Find, Print, PrintAll, TiffOrientation, Bytes, Number, Passable;
    var segments := FoundIsPrinted(false, 4, bytes, 2);
    var at := Find(false, 4, bytes, 2).value;
    var length := Length(bytes, at);
    var payload, rest := bytes[at + 4..at + 2 + length], bytes[at + 2 + length..];
    f := File(segments, payload[6..], rest);
    BytesOfNumber(false, Slice(bytes, at + 2, 2));
    assert Power(2) == 0x1_0000;
    PrefixThen(payload, EXIF);
    var tail := [0xFF, APP1] + Bytes(false, |f.tiff| + 8, 2) + EXIF + f.tiff + rest;
    TailOf(bytes, at, payload, rest, tail, f.tiff);
    ThreeParts(bytes, at);
  }

  lemma PrefixThen(s: seq<Byte>, prefix: seq<Byte>)
    requires |prefix| <= |s| && s[0..|prefix|] == prefix
    ensures s == prefix + s[|prefix|..]
  {
  }

  lemma ThreeParts(bytes: seq<Byte>, at: nat)
    requires 2 <= at <= |bytes|
    ensures bytes == bytes[0..2] + bytes[2..at] + bytes[at..]
  {
  }

  lemma TailOf(bytes: seq<Byte>, at: nat, payload: seq<Byte>, rest: seq<Byte>, tail: seq<Byte>, tiff: seq<Byte>)
    requires at + 4 <= |bytes| && bytes[at] == 0xFF && bytes[at + 1] == APP1
    requires at + 4 + |payload| <= |bytes| && payload == bytes[at + 4..at + 4 + |payload|] == EXIF + tiff
    requires rest == bytes[at + 4 + |payload|..]
    requires tail == [0xFF, APP1] + Slice(bytes, at + 2, 2) + EXIF + tiff + rest
    ensures bytes[at..] == tail
  {
    assert bytes[at..] == bytes[at..at + 2] + Slice(bytes, at + 2, 2) + payload + rest;
    assert bytes[at..at + 2] == [0xFF, APP1];
  }

  // --- the size reader ---

  const PNG: seq<Byte> := [0x89, 0x50, 0x4E, 0x47, 0x0D, 0x0A, 0x1A, 0x0A]
  const IHDR: seq<Byte> := [0x49, 0x48, 0x44, 0x52]

  datatype Size = Size(width: nat, height: nat)

  function PngSize(bytes: seq<Byte>): Option<Size>
    requires |bytes| >= 24
  {
    if Number(false, bytes[8..12]) == 13 && bytes[12..16] == IHDR
    then Some(Size(Number(false, bytes[16..20]), Number(false, bytes[20..24])))
    else None
  }

  /** What the frame segment at a place says. */
  function FrameAt(bytes: seq<Byte>, pos: nat): Option<Size>
    requires pos + 8 <= |bytes|
  {
    var length := Length(bytes, pos);
    if length < 7 || pos + 2 + length > |bytes| then None
    else Some(Size(Number(false, Slice(bytes, pos + 7, 2)), Number(false, Slice(bytes, pos + 5, 2))))
  }

  function Dimensions(bytes: seq<Byte>): Option<Size> {
    if |bytes| >= 24 && bytes[0..8] == PNG then PngSize(bytes)
    else if |bytes| < 2 || bytes[0..2] != SOI then None
    else
      var found := Find(true, 8, bytes, 2);
      if found.None? then None else FrameAt(bytes, found.value)
  }

  method ReadImageDimensions(bytes: seq<Byte>) returns (r: Option<Size>)
    ensures r == Dimensions(bytes)
  {
    hide Number;
    if |bytes| >= 24 && bytes[0..8] == PNG {
      if Number(false, bytes[8..12]) == 13 && bytes[12..16] == IHDR {
        return Some(Size(Number(false, bytes[16..20]), Number(false, bytes[20..24])));
      }
      return None;
    }
    if |bytes| < 2 || bytes[0] != 0xFF || bytes[1] != 0xD8 {
      return None;
    }
    var pos := 2;
    while pos + 7 < |bytes|
      invariant pos >= 2
      invariant Find(true, 8, bytes, pos) == Find(true, 8, bytes, 2)
      decreases |bytes| - pos
    {
      if bytes[pos] != 0xFF {
        return None;
      }
      var marker := bytes[pos + 1];
      if IsFrame(marker) {
        var length := Length(bytes, pos);
        if length < 7 || pos + 2 + length > |bytes| {
          return None;
        }
        var height := Number(false, Slice(bytes, pos + 5, 2));
        var width := Number(false, Slice(bytes, pos + 7, 2));
        return Some(Size(width, height));
      } else if EndsMetadata(marker) {
        return None;
      } else if IsBare(marker) {
        pos := pos + 2;
      } else {
        var length := Length(bytes, pos);
        if length < 2 {
          return None;
        }
        pos := pos + 2 + length;
      }
    }
    return None;
  }

  /** A JPEG file whose first frame segment states a size: the precision, the height, the width,
      the components. */
  datatype Picture = Picture(segments: seq<Segment>, marker: Byte, precision: Byte, size: Size, components: seq<Byte>,
                             rest: seq<Byte>)

  ghost predicate Drawable(p: Picture) {
    && (forall s :: s in p.segments ==> Passable(true, s)) && IsFrame(p.marker)
    && p.size.width < 0x1_0000 && p.size.height < 0x1_0000 && |p.components| + 7 < 0x1_0000
  }

  function PrintFrame(p: Picture): seq<Byte> {
    [0xFF, p.marker] + Bytes(false, |p.components| + 7, 2) + [p.precision]
    + Bytes(false, p.size.height, 2) + Bytes(false, p.size.width, 2) + p.components + p.rest
  }

  function PrintPicture(p: Picture): seq<Byte> { SOI + PrintAll(p.segments) + PrintFrame(p) }

  lemma PrintedSizeIsRead(p: Picture)
    requires Drawable(p)
    ensures Dimensions(PrintPicture(p)) == Some(p.size)
  {
    hide Find, Print, PrintAll, FrameAt, Bytes;
    var bytes, at, tail := PrintPicture(p), 2 + |PrintAll(p.segments)|, PrintFrame(p);
    assert bytes[0..2] == SOI && bytes[2..] == PrintAll(p.segments) + tail && bytes[0..8][0] == 0xFF;
    Splits(bytes, 2, PrintAll(p.segments), tail);
    FindPrinted(true, 8, bytes, 2, p.segments, tail);
    FramePrinted(bytes, at, p);
  }

  lemma FramePrinted(bytes: seq<Byte>, at: nat, p: Picture)
    requires Drawable(p) && at <= |bytes| && bytes[at..] == PrintFrame(p)
    ensures at + 9 <= |bytes| && FrameAt(bytes, at) == Some(p.size)
  {
    hide Bytes, Number, PrintAll, Print;
    var tail := PrintFrame(p);
    assert Power(2) == 0x1_0000;
    NumberInverse(false, |p.components| + 7, 2);
    NumberInverse(false, p.size.height, 2);
    NumberInverse(false, p.size.width, 2);
    Within(bytes, at, |tail|, 2, 2);
    Within(bytes, at, |tail|, 5, 2);
    Within(bytes, at, |tail|, 7, 2);
    assert Slice(bytes, at, |tail|) == tail;
    assert tail[2..4] == Bytes(false, |p.components| + 7, 2);
    assert tail[5..7] == Bytes(false, p.size.height, 2);
    assert tail[7..9] == Bytes(false, p.size.width, 2);
  }

  /** For a file that starts like a JPEG, the reader returns a size exactly when it prints as a
      picture of that size. */
  lemma DimensionsIff(bytes: seq<Byte>, size: Size)
    requires |bytes| >= 2 && bytes[0..2] == SOI
    ensures Dimensions(bytes) == Some(size) <==> exists p :: Drawable(p) && bytes == PrintPicture(p) && p.size == size
  {
    forall p | Drawable(p) && bytes == PrintPicture(p) && p.size == size
      ensures Dimensions(bytes) == Some(size)
    {
      PrintedSizeIsRead(p);
    }
    if Dimensions(bytes) == Some(size) {
      assert |bytes| >= 24 ==> bytes[0..8][0] == bytes[0..2][0] == 0xFF;
      var p := PictureOf(bytes, size);
      assert Drawable(p) && bytes == PrintPicture(p) && p.size == size;
    }
  }

  lemma PictureOf(bytes: seq<Byte>, size: Size) returns (p: Picture)
    requires |bytes| >= 2 && bytes[0..2] == SOI && Find(true, 8, bytes, 2).Some?
    requires FrameAt(bytes, Find(true, 8, bytes, 2).value) == Some(size)
    ensures Drawable(p) && bytes == PrintPicture(p) && p.size == size
  {
    hide Find, Print, PrintAll, Bytes, Number;
    var segments := FoundIsPrinted(true, 8, bytes, 2);
    var at := Find(true, 8, bytes, 2).value;
    var length := Length(bytes, at);
    p := Picture(segments, bytes[at + 1], bytes[at + 4], size, bytes[at + 9..at + 2 + length],
                 bytes[at + 2 + length..]);
    assert Power(2) == 0x1_0000;
    BytesOfNumber(false, Slice(bytes, at + 2, 2));
    BytesOfNumber(false, Slice(bytes, at + 5, 2));
    BytesOfNumber(false, Slice(bytes, at + 7, 2));
    FrameJoins(bytes, at, length);
    ThreeParts(bytes, at);
  }

  lemma FrameJoins(bytes: seq<Byte>, at: nat, length: nat)
    requires length >= 7 && at + 2 + length <= |bytes|
    ensures bytes[at..]
            == [bytes[at], bytes[at + 1]] + Slice(bytes, at + 2, 2) + [bytes[at + 4]] + Slice(bytes, at + 5, 2)
                           + Slice(bytes, at + 7, 2) + bytes[at + 9..at + 2 + length] + bytes[at + 2 + length..]
  {
  }
}
