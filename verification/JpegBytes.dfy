/** What the two JPEG readers find, byte by byte. */
module JpegBytes {
  import opened Options
  import opened Exif
  import opened Jpeg

  /** A segment without a length field. */
  ghost predicate BareAt(bytes: seq<Byte>, pos: nat)
    requires pos + 4 <= |bytes|
  {
    bytes[pos + 1] in {0xD0, 0xD1, 0xD2, 0xD3, 0xD4, 0xD5, 0xD6, 0xD7, 0xD8}
  }

  ghost function LengthAt(bytes: seq<Byte>, pos: nat): nat
    requires pos + 4 <= |bytes|
  {
    TwoLowFirst(bytes[pos + 3], bytes[pos + 2])
  }

  /** What a reader is after: the frame header, or the first application segment. */
  ghost predicate SoughtAt(size: bool, bytes: seq<Byte>, pos: nat)
    requires pos + 4 <= |bytes|
  {
    if size then bytes[pos + 1] in {0xC0, 0xC1, 0xC2} else bytes[pos + 1] == 0xE1
  }

  /** A segment that is passed over: not that one, not the end of the image and not the start of the
      scan. */
  ghost predicate PassedAt(size: bool, bytes: seq<Byte>, pos: nat)
    requires pos + 4 <= |bytes|
  {
    && !SoughtAt(size, bytes, pos) && bytes[pos + 1] != 0xD9 && bytes[pos + 1] != 0xDA
    && (BareAt(bytes, pos) || LengthAt(bytes, pos) >= 2)
  }

  ghost function NextAt(bytes: seq<Byte>, pos: nat): nat
    requires pos + 4 <= |bytes|
  {
    if BareAt(bytes, pos) then pos + 2 else pos + 2 + LengthAt(bytes, pos)
  }

  /** The places of segments one after the other, each with enough bytes left for the reader, up to the
      one it is after. */
  ghost predicate Segments(size: bool, bytes: seq<Byte>, places: seq<nat>) {
    && places != []
    && (forall i :: 0 <= i < |places| ==>
          places[i] + (if size then 8 else 4) <= |bytes| && bytes[places[i]] == 0xFF)
    && (forall i :: 0 <= i < |places| - 1 ==>
          PassedAt(size, bytes, places[i]) && places[i + 1] == NextAt(bytes, places[i]))
    && SoughtAt(size, bytes, places[|places| - 1])
  }

  lemma MarkersSpelled(size: bool, bytes: seq<Byte>, pos: nat)
    requires pos + 4 <= |bytes|
    ensures IsBare(bytes[pos + 1]) <==> BareAt(bytes, pos)
    ensures Sought(size, bytes[pos + 1]) <==> SoughtAt(size, bytes, pos)
    ensures EndsMetadata(bytes[pos + 1]) <==> bytes[pos + 1] == 0xD9 || bytes[pos + 1] == 0xDA
    ensures Length(bytes, pos) == LengthAt(bytes, pos)
  {
    hide Number;
    NumberOfTwo(false, Slice(bytes, pos + 2, 2));
  }

  lemma {:induction false} FindSpelled(size: bool, bytes: seq<Byte>, pos: nat) returns (places: seq<nat>)
    requires Find(size, if size then 8 else 4, bytes, pos).Some?
    ensures Segments(size, bytes, places) && places[0] == pos
    ensures places[|places| - 1] == Find(size, if size then 8 else 4, bytes, pos).value
    decreases |bytes| - pos
  {
    hide Sought, IsBare, EndsMetadata, Number, BareAt, SoughtAt, LengthAt;
    MarkersSpelled(size, bytes, pos);
    if SoughtAt(size, bytes, pos) {
      places := [pos];
    } else {
      var rest := FindSpelled(size, bytes, NextAt(bytes, pos));
      places := [pos] + rest;
      OneMorePlace(size, bytes, pos, rest);
    }
  }

  lemma OneMorePlace(size: bool, bytes: seq<Byte>, pos: nat, rest: seq<nat>)
    requires pos + (if size then 8 else 4) <= |bytes| && bytes[pos] == 0xFF && PassedAt(size, bytes, pos)
    requires Segments(size, bytes, rest) && rest[0] == NextAt(bytes, pos)
    ensures Segments(size, bytes, [pos] + rest) && ([pos] + rest)[|rest|] == rest[|rest| - 1]
  {
    hide PassedAt, NextAt, SoughtAt;
    var places := [pos] + rest;
    assert forall i :: 0 < i < |places| ==> places[i] == rest[i - 1];
  }

  lemma {:induction false} SegmentsFound(size: bool, bytes: seq<Byte>, places: seq<nat>)
    requires Segments(size, bytes, places)
    ensures Find(size, if size then 8 else 4, bytes, places[0]) == Some(places[|places| - 1])
    decreases |places|
  {
    hide Sought, IsBare, EndsMetadata, Number, BareAt, SoughtAt, LengthAt;
    MarkersSpelled(size, bytes, places[0]);
    if |places| > 1 {
      var rest := places[1..];
      assert forall i :: 0 <= i < |rest| ==> rest[i] == places[i + 1];
      SegmentsFound(size, bytes, rest);
    }
  }

  /** The file starts like a JPEG file. */
  ghost predicate StartsJpeg(bytes: seq<Byte>) { |bytes| >= 2 && bytes[0] == 0xFF && bytes[1] == 0xD8 }

  lemma StartSpelled(bytes: seq<Byte>)
    requires |bytes| >= 2
    ensures bytes[0..2] == SOI <==> StartsJpeg(bytes)
  {
    assert bytes[0..2] == [bytes[0], bytes[1]];
  }

  /** An application segment with an Exif block. */
  ghost predicate ExifSegmentAt(bytes: seq<Byte>, at: nat)
    requires at + 4 <= |bytes|
  {
    && LengthAt(bytes, at) >= 8 && at + 2 + LengthAt(bytes, at) <= |bytes|
    && bytes[at + 4] == 0x45 && bytes[at + 5] == 0x78 && bytes[at + 6] == 0x69 && bytes[at + 7] == 0x66
    && bytes[at + 8] == 0 && bytes[at + 9] == 0
  }

  lemma ExifSpelled(bytes: seq<Byte>, at: nat, n: nat)
    requires at + 4 <= |bytes|
    ensures ExifAt(bytes, at) == Some(n) <==>
            ExifSegmentAt(bytes, at) && TiffOrientation(bytes[at + 10..at + 2 + LengthAt(bytes, at)]) == Some(n)
  {
    hide Number, TiffOrientation;
    MarkersSpelled(false, bytes, at);
    var length := LengthAt(bytes, at);
    if length >= 8 && at + 2 + length <= |bytes| {
      var payload := bytes[at + 4..at + 2 + length];
      assert payload[0..6]
             == [bytes[at + 4], bytes[at + 5], bytes[at + 6], bytes[at + 7], bytes[at + 8], bytes[at + 9]];
      assert payload[6..] == bytes[at + 10..at + 2 + length];
    }
  }

  /** The reader returns an orientation exactly for the files whose first application segment, after
      segments that are passed over, is an Exif block that states it. */
  lemma OrientationIffBytes(bytes: seq<Byte>, n: nat)
    ensures Orientation(bytes) == Some(n) <==>
            StartsJpeg(bytes) && exists places ::
              && Segments(false, bytes, places) && places[0] == 2
              && var at := places[|places| - 1];
                 ExifSegmentAt(bytes, at) && TiffOrientation(bytes[at + 10..at + 2 + LengthAt(bytes, at)]) == Some(n)
  {
    hide Find, ExifAt, TiffOrientation, LengthAt, ExifSegmentAt;
    if |bytes| >= 2 {
      StartSpelled(bytes);
      forall places | Segments(false, bytes, places) && places[0] == 2
        ensures Find(false, 4, bytes, 2) == Some(places[|places| - 1])
      {
        SegmentsFound(false, bytes, places);
      }
      if StartsJpeg(bytes) && Find(false, 4, bytes, 2).Some? {
        var places := FindSpelled(false, bytes, 2);
        ExifSpelled(bytes, places[|places| - 1], n);
      }
    }
  }

  /** A frame header with a size: after its length and precision the height and then the width, high
      byte first. */
  ghost predicate FrameSays(bytes: seq<Byte>, at: nat, width: nat, height: nat)
    requires at + 8 <= |bytes|
  {
    && LengthAt(bytes, at) >= 7 && at + 2 + LengthAt(bytes, at) <= |bytes|
    && height == TwoLowFirst(bytes[at + 6], bytes[at + 5]) && width == TwoLowFirst(bytes[at + 8], bytes[at + 7])
  }

  lemma FrameSpelled(bytes: seq<Byte>, at: nat, width: nat, height: nat)
    requires at + 8 <= |bytes|
    ensures FrameAt(bytes, at) == Some(Size(width, height)) <==> FrameSays(bytes, at, width, height)
  {
    hide Number;
    MarkersSpelled(true, bytes, at);
    if at + 9 <= |bytes| {
      NumberOfTwo(false, Slice(bytes, at + 5, 2));
      NumberOfTwo(false, Slice(bytes, at + 7, 2));
    }
  }

  /** The file starts like a PNG file with room for its header. */
  ghost predicate StartsPng(bytes: seq<Byte>) {
    && |bytes| >= 24
    && bytes[0] == 0x89 && bytes[1] == 0x50 && bytes[2] == 0x4E && bytes[3] == 0x47
    && bytes[4] == 0x0D && bytes[5] == 0x0A && bytes[6] == 0x1A && bytes[7] == 0x0A
  }

  /** Its first chunk is a header of 13 bytes, which begins with width and height. */
  ghost predicate HeaderSays(bytes: seq<Byte>, width: nat, height: nat)
    requires |bytes| >= 24
  {
    && bytes[8] == 0 && bytes[9] == 0 && bytes[10] == 0 && bytes[11] == 13
    && bytes[12] == 0x49 && bytes[13] == 0x48 && bytes[14] == 0x44 && bytes[15] == 0x52
    && width == FourLowFirst(bytes[19], bytes[18], bytes[17], bytes[16])
    && height == FourLowFirst(bytes[23], bytes[22], bytes[21], bytes[20])
  }

  lemma PngSpelled(bytes: seq<Byte>, width: nat, height: nat)
    requires |bytes| >= 24
    ensures bytes[0..8] == PNG <==> StartsPng(bytes)
    ensures PngSize(bytes) == Some(Size(width, height)) <==> HeaderSays(bytes, width, height)
  {
    hide Number;
    var b := bytes;
    assert b[0..8] == [b[0], b[1], b[2], b[3], b[4], b[5], b[6], b[7]];
    assert b[12..16] == [b[12], b[13], b[14], b[15]];
    NumberOfFour(false, b[8..12]);
    NumberOfFour(false, b[16..20]);
    NumberOfFour(false, b[20..24]);
  }

  /** The reader returns a size exactly for the PNG files whose header says so and the JPEG files whose
      first frame header, after segments that are passed over, does. */
  lemma DimensionsIffBytes(bytes: seq<Byte>, width: nat, height: nat)
    ensures Dimensions(bytes) == Some(Size(width, height)) <==>
            if StartsPng(bytes) then HeaderSays(bytes, width, height)
            else StartsJpeg(bytes) && exists places ::
              && Segments(true, bytes, places) && places[0] == 2
              && FrameSays(bytes, places[|places| - 1], width, height)
  {
    hide Find, FrameAt, PngSize, LengthAt, FrameSays, HeaderSays, StartsPng;
    if |bytes| >= 24 {
      PngSpelled(bytes, width, height);
    }
    assert StartsPng(bytes) ==> |bytes| >= 24 by { PngIsLong(bytes); }
    if !StartsPng(bytes) && |bytes| >= 2 {
      StartSpelled(bytes);
      forall places | Segments(true, bytes, places) && places[0] == 2
        ensures Find(true, 8, bytes, 2) == Some(places[|places| - 1])
      {
        SegmentsFound(true, bytes, places);
      }
      if StartsJpeg(bytes) && Find(true, 8, bytes, 2).Some? {
        var places := FindSpelled(true, bytes, 2);
        FrameSpelled(bytes, places[|places| - 1], width, height);
      }
    }
  }

  lemma PngIsLong(bytes: seq<Byte>)
    ensures StartsPng(bytes) ==> |bytes| >= 24
  {
  }
}
