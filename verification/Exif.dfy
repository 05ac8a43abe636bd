/**
 * Reading the orientation and the size of a picture from its first bytes: the marker segments of
 * a JPEG file (Annex B of ITU-T T.81) and the TIFF structure inside its Exif segment (section 2
 * of TIFF 6.0). The readers take any bytes at all.
 */
module Exif {
  import opened Options

  type Byte = x: int | 0 <= x < 256

  const ORIENTATION_TAG := 0x0112
  const SHORT := 3
  const TIFF_MAGIC := 0x002A
  const EXIF: seq<Byte> := [0x45, 0x78, 0x69, 0x66, 0, 0]
  const SOI: seq<Byte> := [0xFF, 0xD8]

  // --- numbers ---

  function BigEndian(s: seq<Byte>): nat {
    if s == [] then 0 else 256 * BigEndian(s[..|s| - 1]) + s[|s| - 1]
  }

  function Reversed(s: seq<Byte>): (r: seq<Byte>)
    ensures |r| == |s|
  {
    if s == [] then [] else Reversed(s[1..]) + [s[0]]
  }

  /** A number in the byte order of the file. */
  function Number(little: bool, s: seq<Byte>): nat { BigEndian(if little then Reversed(s) else s) }

  function BigEndianBytes(n: nat, width: nat): (s: seq<Byte>)
    ensures |s| == width
  {
    if width == 0 then [] else BigEndianBytes(n / 256, width - 1) + [n % 256]
  }

  function Bytes(little: bool, n: nat, width: nat): (s: seq<Byte>)
    ensures |s| == width
  {
    if little then Reversed(BigEndianBytes(n, width)) else BigEndianBytes(n, width)
  }

  function Power(width: nat): nat { if width == 0 then 1 else 256 * Power(width - 1) }

  lemma {:induction false} BigEndianInverse(n: nat, width: nat)
    requires n < Power(width)
    ensures BigEndian(BigEndianBytes(n, width)) == n
  {
    if width > 0 {
      BigEndianInverse(n / 256, width - 1);
      var s := BigEndianBytes(n, width);
      assert s[..|s| - 1] == BigEndianBytes(n / 256, width - 1);
    }
  }

  lemma {:induction false} BytesInverse(s: seq<Byte>)
    ensures BigEndian(s) < Power(|s|) && BigEndianBytes(BigEndian(s), |s|) == s
  {
    if s != [] {
      BytesInverse(s[..|s| - 1]);
      assert BigEndian(s) / 256 == BigEndian(s[..|s| - 1]) && BigEndian(s) % 256 == s[|s| - 1];
    }
  }

  lemma {:induction false} ReversedTwice(s: seq<Byte>)
    ensures Reversed(Reversed(s)) == s
  {
    if s != [] {
      ReversedTwice(s[1..]);
      ReversedSnoc(Reversed(s[1..]), s[0]);
    }
  }

  lemma {:induction false} ReversedSnoc(s: seq<Byte>, b: Byte)
    ensures Reversed(s + [b]) == [b] + Reversed(s)
  {
    if s == [] {
      assert s + [b] == [b];
    } else {
      assert (s + [b])[1..] == s[1..] + [b];
      ReversedSnoc(s[1..], b);
    }
  }

  /** Printing and reading a number are inverse, in both byte orders. */
  lemma NumberInverse(little: bool, n: nat, width: nat)
    requires n < Power(width)
    ensures Number(little, Bytes(little, n, width)) == n
  {
    BigEndianInverse(n, width);
    ReversedTwice(BigEndianBytes(n, width));
  }

  lemma BytesOfNumber(little: bool, s: seq<Byte>)
    ensures Number(little, s) < Power(|s|) && Bytes(little, Number(little, s), |s|) == s
  {
    var t := if little then Reversed(s) else s;
    BytesInverse(t);
    ReversedTwice(s);
  }

  // --- the TIFF structure ---

  /** The stretch of some length at some place. */
  function Slice(data: seq<Byte>, at: nat, length: nat): (s: seq<Byte>)
    requires at + length <= |data|
    ensures |s| == length
  {
    data[at..at + length]
  }

  function Order(little: bool): seq<Byte> { if little then [0x49, 0x49] else [0x4D, 0x4D] }

  function EntryAt(data: seq<Byte>, ifd: nat, i: nat): (entry: seq<Byte>)
    requires ifd + 2 + 12 * i + 12 <= |data|
    ensures |entry| == 12
  {
    Slice(data, ifd + 2 + 12 * i, 12)
  }

  function Tag(little: bool, entry: seq<Byte>): nat
    requires |entry| == 12
  {
    Number(little, entry[0..2])
  }

  /** The value of an orientation entry: one SHORT from 1 to 8. */
  function OrientationOf(little: bool, entry: seq<Byte>): Option<nat>
    requires |entry| == 12
  {
    if Number(little, entry[2..4]) != SHORT || Number(little, entry[4..8]) != 1 then None
    else
      var value := Number(little, entry[8..10]);
      if 1 <= value <= 8 then Some(value) else None
  }

  /** The answer from the entries of the first directory from the i-th on. */
  function ScanEntries(little: bool, data: seq<Byte>, ifd: nat, i: nat, count: nat): Option<nat>
    decreases count - i
  {
    if i >= count || ifd + 2 + 12 * i + 12 > |data| then None
    else
      var entry := EntryAt(data, ifd, i);
      if Tag(little, entry) != ORIENTATION_TAG then ScanEntries(little, data, ifd, i + 1, count)
      else OrientationOf(little, entry)
  }

  function TiffOrientation(data: seq<Byte>): Option<nat> {
    if |data| < 8 || (data[0..2] != Order(true) && data[0..2] != Order(false)) then None
    else
      var little := data[0..2] == Order(true);
      var ifd := Number(little, data[4..8]);
      if Number(little, data[2..4]) != TIFF_MAGIC || ifd + 2 > |data| then None
      else ScanEntries(little, data, ifd, 0, Number(little, Slice(data, ifd, 2)))
  }

  /** What it means for a TIFF block to state an orientation, without scanning: the first entry
      with the tag is the k-th. */
  ghost predicate TiffStates(data: seq<Byte>, little: bool, k: nat, n: nat) {
    && |data| >= 8 && data[0..2] == Order(little) && Number(little, data[2..4]) == TIFF_MAGIC
    && var ifd := Number(little, data[4..8]);
       && ifd + 2 <= |data| && k < Number(little, Slice(data, ifd, 2)) && ifd + 2 + 12 * k + 12 <= |data|
       && FirstOrientation(little, data, ifd, k, n)
  }

  ghost predicate FirstOrientation(little: bool, data: seq<Byte>, ifd: nat, k: nat, n: nat)
    requires ifd + 2 + 12 * k + 12 <= |data|
  {
    && (forall i: nat :: i < k ==> Tag(little, EntryAt(data, ifd, i)) != ORIENTATION_TAG)
    && Tag(little, EntryAt(data, ifd, k)) == ORIENTATION_TAG
    && OrientationOf(little, EntryAt(data, ifd, k)) == Some(n)
  }

  method ParseTiffOrientation(data: seq<Byte>) returns (r: Option<nat>)
    ensures r == TiffOrientation(data)
  {
    if |data| < 8 {
      return None;
    }
    var little;
    if data[0..2] == Order(true) {
      little := true;
    } else if data[0..2] == Order(false) {
      little := false;
    } else {
      return None;
    }
    if Number(little, data[2..4]) != TIFF_MAGIC {
      return None;
    }
    var ifd := Number(little, data[4..8]);
    if ifd + 2 > |data| {
      return None;
    }
    var count := Number(little, Slice(data, ifd, 2));
    for i := 0 to count
      invariant ScanEntries(little, data, ifd, i, count) == TiffOrientation(data)
    {
      if ifd + 2 + 12 * i + 12 > |data| {
        return None;
      }
      var entry := EntryAt(data, ifd, i);
      if Tag(little, entry) == ORIENTATION_TAG {
        return OrientationOf(little, entry);
      }
    }
    return None;
  }

  /** The reader finds an orientation exactly when the block states one. */
  lemma TiffOrientationIff(data: seq<Byte>, n: nat)
    ensures TiffOrientation(data) == Some(n) <==> exists little, k :: TiffStates(data, little, k, n)
  {
    if |data| >= 8 && TiffOrientation(data) == Some(n) {
      var little := data[0..2] == Order(true);
      var ifd := Number(little, data[4..8]);
      var k := ScanFinds(little, data, ifd, 0, Number(little, Slice(data, ifd, 2)), n);
      assert TiffStates(data, little, k, n);
    }
    forall little, k | TiffStates(data, little, k, n)
      ensures TiffOrientation(data) == Some(n)
    {
      assert Order(true)[0] != Order(false)[0];
      var ifd := Number(little, data[4..8]);
      ScanReaches(little, data, ifd, 0, Number(little, Slice(data, ifd, 2)), k, n);
    }
  }

  lemma {:induction false} ScanFinds(little: bool, data: seq<Byte>, ifd: nat, from: nat, count: nat, n: nat)
    returns (k: nat)
    requires ScanEntries(little, data, ifd, from, count) == Some(n)
    requires forall i: nat :: i < from && ifd + 2 + 12 * i + 12 <= |data| ==>
               Tag(little, EntryAt(data, ifd, i)) != ORIENTATION_TAG
    ensures from <= k < count && ifd + 2 + 12 * k + 12 <= |data| && FirstOrientation(little, data, ifd, k, n)
    decreases count - from
  {
    if Tag(little, EntryAt(data, ifd, from)) != ORIENTATION_TAG {
      k := ScanFinds(little, data, ifd, from + 1, count, n);
    } else {
      k := from;
    }
  }

  lemma {:induction false} ScanReaches(little: bool, data: seq<Byte>, ifd: nat, from: nat, count: nat, k: nat, n: nat)
    requires from <= k < count && ifd + 2 + 12 * k + 12 <= |data| && FirstOrientation(little, data, ifd, k, n)
    ensures ScanEntries(little, data, ifd, from, count) == Some(n)
    decreases k - from
  {
    if from < k {
      ScanReaches(little, data, ifd, from + 1, count, k, n);
    }
  }

  // --- the same byte by byte ---

  function TwoLowFirst(a: nat, b: nat): nat { a + 256 * b }

  function FourLowFirst(a: nat, b: nat, c: nat, d: nat): nat { a + 256 * b + 65536 * c + 16777216 * d }

  /** The i-th entry of a directory carries the orientation tag. */
  ghost predicate TaggedAt(little: bool, data: seq<Byte>, ifd: nat, i: nat)
    requires ifd + 2 + 12 * i + 12 <= |data|
  {
    var at := ifd + 2 + 12 * i;
    if little then data[at] == 0x12 && data[at + 1] == 0x01 else data[at] == 0x01 && data[at + 1] == 0x12
  }

  /** A block that starts with "II" states an orientation: every number has its low byte first. */
  ghost predicate StatedLowFirst(data: seq<Byte>, k: nat, n: nat) {
    && |data| >= 8 && data[0] == 0x49 && data[1] == 0x49 && data[2] == 0x2A && data[3] == 0
    && var ifd := FourLowFirst(data[4], data[5], data[6], data[7]);
       && ifd + 2 <= |data| && k < TwoLowFirst(data[ifd], data[ifd + 1])
       && ifd + 2 + 12 * k + 12 <= |data|
       && (forall i: nat :: i < k ==> !TaggedAt(true, data, ifd, i)) && TaggedAt(true, data, ifd, k)
       && LowValueAt(data, ifd + 2 + 12 * k, n)
  }

  ghost predicate LowValueAt(data: seq<Byte>, at: nat, n: nat)
    requires at + 12 <= |data|
  {
    && data[at + 2] == 3 && data[at + 3] == 0
    && data[at + 4] == 1 && data[at + 5] == 0 && data[at + 6] == 0 && data[at + 7] == 0
    && data[at + 8] == n && data[at + 9] == 0 && n in {1, 2, 3, 4, 5, 6, 7, 8}
  }

  /** One that starts with "MM": high byte first. */
  ghost predicate StatedHighFirst(data: seq<Byte>, k: nat, n: nat) {
    && |data| >= 8 && data[0] == 0x4D && data[1] == 0x4D && data[2] == 0 && data[3] == 0x2A
    && var ifd := FourLowFirst(data[7], data[6], data[5], data[4]);
       && ifd + 2 <= |data| && k < TwoLowFirst(data[ifd + 1], data[ifd])
       && ifd + 2 + 12 * k + 12 <= |data|
       && (forall i: nat :: i < k ==> !TaggedAt(false, data, ifd, i)) && TaggedAt(false, data, ifd, k)
       && HighValueAt(data, ifd + 2 + 12 * k, n)
  }

  ghost predicate HighValueAt(data: seq<Byte>, at: nat, n: nat)
    requires at + 12 <= |data|
  {
    && data[at + 2] == 0 && data[at + 3] == 3
    && data[at + 4] == 0 && data[at + 5] == 0 && data[at + 6] == 0 && data[at + 7] == 1
    && data[at + 8] == 0 && data[at + 9] == n && n in {1, 2, 3, 4, 5, 6, 7, 8}
  }

  lemma BigEndianOfTwo(s: seq<Byte>)
    requires |s| == 2
    ensures BigEndian(s) == TwoLowFirst(s[1], s[0])
  {
    assert s[..1] == [s[0]] && [s[0]][..0] == [];
    assert BigEndian([s[0]]) == s[0] + 0;
  }

  lemma NumberOfTwo(little: bool, s: seq<Byte>)
    requires |s| == 2
    ensures Number(little, s) == if little then TwoLowFirst(s[0], s[1]) else TwoLowFirst(s[1], s[0])
  {
    assert s[1..] == [s[1]] && s[1..][1..] == [];
    assert Reversed(s[1..]) == [s[1]];
    assert Reversed(s) == [s[1], s[0]];
    BigEndianOfTwo(s);
    BigEndianOfTwo([s[1], s[0]]);
  }

  lemma BigEndianOfFour(s: seq<Byte>)
    requires |s| == 4
    ensures BigEndian(s) == FourLowFirst(s[3], s[2], s[1], s[0])
  {
    assert s[..3][..2] == s[..2];
    BigEndianOfTwo(s[..2]);
    assert BigEndian(s[..3]) == 256 * BigEndian(s[..2]) + s[2];
  }

  lemma ReversedFour(s: seq<Byte>)
    requires |s| == 4
    ensures Reversed(s) == [s[3], s[2], s[1], s[0]]
  {
    assert s[1..][1..] == s[2..] && s[2..][1..] == s[3..] && s[3..][1..] == [];
    assert Reversed(s[3..]) == [s[3]];
    assert Reversed(s[2..]) == [s[3], s[2]];
    assert Reversed(s[1..]) == [s[3], s[2], s[1]];
  }

  lemma NumberOfFour(little: bool, s: seq<Byte>)
    requires |s| == 4
    ensures Number(little, s)
            == if little then FourLowFirst(s[0], s[1], s[2], s[3]) else FourLowFirst(s[3], s[2], s[1], s[0])
  {
    BigEndianOfFour(s);
    ReversedFour(s);
    BigEndianOfFour([s[3], s[2], s[1], s[0]]);
  }

  /** A number of two bytes is spelled in one way. */
  lemma TwoBytes(little: bool, s: seq<Byte>, low: Byte, high: Byte)
    requires |s| == 2
    ensures Number(little, s) == TwoLowFirst(low, high) <==>
            if little then s[0] == low && s[1] == high else s[0] == high && s[1] == low
  {
    hide Number;
    NumberOfTwo(little, s);
  }

  lemma OneInFour(little: bool, s: seq<Byte>)
    requires |s| == 4
    ensures Number(little, s) == 1 <==>
            s[1] == s[2] == 0 && if little then s[0] == 1 && s[3] == 0 else s[0] == 0 && s[3] == 1
  {
    hide Number;
    NumberOfFour(little, s);
  }

  lemma TagSpelled(little: bool, data: seq<Byte>, ifd: nat, i: nat)
    requires ifd + 2 + 12 * i + 12 <= |data|
    ensures Tag(little, EntryAt(data, ifd, i)) == ORIENTATION_TAG <==> TaggedAt(little, data, ifd, i)
  {
    hide Number;
    TwoBytes(little, EntryAt(data, ifd, i)[0..2], 0x12, 0x01);
  }

  lemma ValueSpelled(little: bool, data: seq<Byte>, ifd: nat, i: nat, n: nat)
    requires ifd + 2 + 12 * i + 12 <= |data|
    ensures OrientationOf(little, EntryAt(data, ifd, i)) == Some(n) <==>
            if little then LowValueAt(data, ifd + 2 + 12 * i, n) else HighValueAt(data, ifd + 2 + 12 * i, n)
  {
    hide Number, TwoLowFirst;
    var entry, at := EntryAt(data, ifd, i), ifd + 2 + 12 * i;
    EntryBytes(data, ifd, i);
    TwoBytes(little, entry[2..4], 3, 0);
    assert TwoLowFirst(3, 0) == 3 by { LowByteOnly(3); }
    OneInFour(little, entry[4..8]);
    if 1 <= n <= 8 {
      TwoBytes(little, entry[8..10], n, 0);
      LowByteOnly(n);
    }
  }

  lemma LowByteOnly(n: nat)
    ensures TwoLowFirst(n, 0) == n
  {
  }

  lemma EntryBytes(data: seq<Byte>, ifd: nat, i: nat)
    requires ifd + 2 + 12 * i + 12 <= |data|
    ensures forall j :: 0 <= j < 12 ==> EntryAt(data, ifd, i)[j] == data[ifd + 2 + 12 * i + j]
  {
  }

  lemma HeaderSpelled(data: seq<Byte>, little: bool)
    requires |data| >= 8
    ensures data[0..2] == Order(little) <==> data[0] == data[1] == if little then 0x49 else 0x4D
    ensures Number(little, data[2..4]) == TIFF_MAGIC <==>
            if little then data[2] == 0x2A && data[3] == 0 else data[2] == 0 && data[3] == 0x2A
    ensures Number(little, data[4..8])
            == if little then FourLowFirst(data[4], data[5], data[6], data[7])
               else FourLowFirst(data[7], data[6], data[5], data[4])
  {
    hide Number;
    TwoBytes(little, data[2..4], 0x2A, 0);
    NumberOfFour(little, data[4..8]);
    assert data[0..2] == [data[0], data[1]];
  }

  lemma FirstSpelled(data: seq<Byte>, little: bool, ifd: nat, k: nat, n: nat)
    requires ifd + 2 + 12 * k + 12 <= |data|
    ensures FirstOrientation(little, data, ifd, k, n) <==>
            && (forall i: nat :: i < k ==> !TaggedAt(little, data, ifd, i)) && TaggedAt(little, data, ifd, k)
            && if little then LowValueAt(data, ifd + 2 + 12 * k, n) else HighValueAt(data, ifd + 2 + 12 * k, n)
  {
    hide Tag, OrientationOf, EntryAt, TaggedAt;
    forall i: nat | i <= k
      ensures Tag(little, EntryAt(data, ifd, i)) == ORIENTATION_TAG <==> TaggedAt(little, data, ifd, i)
    {
      TagSpelled(little, data, ifd, i);
    }
    ValueSpelled(little, data, ifd, k, n);
  }

  lemma StatesSpelled(data: seq<Byte>, little: bool, k: nat, n: nat)
    ensures TiffStates(data, little, k, n) <==>
            if little then StatedLowFirst(data, k, n) else StatedHighFirst(data, k, n)
  {
    hide Number, FirstOrientation, Order, TaggedAt, LowValueAt, HighValueAt, FourLowFirst, TwoLowFirst;
    if |data| >= 8 {
      HeaderSpelled(data, little);
      var ifd := Number(little, data[4..8]);
      if ifd + 2 <= |data| {
        NumberOfTwo(little, Slice(data, ifd, 2));
        if ifd + 2 + 12 * k + 12 <= |data| {
          FirstSpelled(data, little, ifd, k, n);
        }
      }
    }
  }

  /** The reader finds an orientation exactly when the bytes state one, in the order that the first two
      of them announce. */
  lemma OrientationInBytes(data: seq<Byte>, n: nat)
    ensures TiffOrientation(data) == Some(n) <==>
            exists k: nat :: StatedLowFirst(data, k, n) || StatedHighFirst(data, k, n)
  {
    hide TiffOrientation, TiffStates, StatedLowFirst, StatedHighFirst;
    TiffOrientationIff(data, n);
    forall little: bool, k: nat
      ensures TiffStates(data, little, k, n) <==>
              if little then StatedLowFirst(data, k, n) else StatedHighFirst(data, k, n)
    {
      StatesSpelled(data, little, k, n);
    }
    if k: nat :| StatedLowFirst(data, k, n) || StatedHighFirst(data, k, n) {
      assert TiffStates(data, StatedLowFirst(data, k, n), k, n);
    }
  }

  // --- a printer ---

  /** A TIFF block: some bytes before the directory, the entries before the one that states the
      orientation, that entry's value and padding, and whatever follows. */
  datatype Tiff = Tiff(little: bool, gap: seq<Byte>, before: seq<seq<Byte>>, value: nat, padding: seq<Byte>,
                       count: nat, after: seq<Byte>)

  ghost predicate Printable(t: Tiff) {
    && |t.gap| + 8 < 0x1_0000_0000 && t.value < 0x1_0000 && |t.padding| == 2 && |t.before| < t.count < 0x1_0000
    && forall entry :: entry in t.before ==> |entry| == 12 && Tag(t.little, entry) != ORIENTATION_TAG
  }

  function Concat(parts: seq<seq<Byte>>): seq<Byte> {
    if parts == [] then [] else parts[0] + Concat(parts[1..])
  }

  function PrintEntry(t: Tiff): seq<Byte> {
    Bytes(t.little, ORIENTATION_TAG, 2) + Bytes(t.little, SHORT, 2) + Bytes(t.little, 1, 4)
    + Bytes(t.little, t.value, 2) + t.padding
  }

  function PrintDirectory(t: Tiff): seq<Byte> {
    Bytes(t.little, t.count, 2) + (Concat(t.before) + (PrintEntry(t) + t.after))
  }

  function PrintTiff(t: Tiff): seq<Byte> {
    Order(t.little) + Bytes(t.little, TIFF_MAGIC, 2) + Bytes(t.little, |t.gap| + 8, 4) + (t.gap + PrintDirectory(t))
  }

  function Valid(value: nat): Option<nat> { if 1 <= value <= 8 then Some(value) else None }

  /** The reader inverts the printer, in both byte orders. */
  lemma PrintedTiffIsRead(t: Tiff)
    requires Printable(t)
    ensures TiffOrientation(PrintTiff(t)) == Valid(t.value)
  {
    hide Bytes, Number, ScanEntries, PrintDirectory, OrientationOf;
    var data, ifd := PrintTiff(t), |t.gap| + 8;
    assert Power(2) == 0x1_0000 && Power(4) == 0x1_0000_0000;
    NumberInverse(t.little, TIFF_MAGIC, 2);
    NumberInverse(t.little, ifd, 4);
    NumberInverse(t.little, t.count, 2);
    assert data[0..2] == Order(t.little) && Order(true)[0] != Order(false)[0];
    assert data[2..4] == Bytes(t.little, TIFF_MAGIC, 2);
    assert data[4..8] == Bytes(t.little, ifd, 4);
    assert data[ifd..] == PrintDirectory(t);
    DirectoryIsRead(data, ifd, t);
  }

  lemma DirectoryIsRead(data: seq<Byte>, ifd: nat, t: Tiff)
    requires Printable(t) && ifd <= |data| && data[ifd..] == PrintDirectory(t)
    ensures ifd + 2 <= |data| && Slice(data, ifd, 2) == Bytes(t.little, t.count, 2)
    ensures ScanEntries(t.little, data, ifd, 0, t.count) == Valid(t.value)
  {
    hide Bytes, Number, ScanEntries, OrientationOf, Tag, Concat, PrintEntry;
    var entries := Concat(t.before) + (PrintEntry(t) + t.after);
    assert Slice(data, ifd, 2) == data[ifd..][..2] == Bytes(t.little, t.count, 2);
    assert data[ifd + 2..] == data[ifd..][2..] == entries;
    ScanPrinted(t, data, ifd, 0);
  }

  lemma {:induction false} ScanPrinted(t: Tiff, data: seq<Byte>, ifd: nat, i: nat)
    requires Printable(t) && i <= |t.before| && ifd + 2 + 12 * i <= |data|
    requires data[ifd + 2 + 12 * i..] == Concat(t.before[i..]) + (PrintEntry(t) + t.after)
    ensures ScanEntries(t.little, data, ifd, i, t.count) == Valid(t.value)
    decreases |t.before| - i
  {
    hide Bytes, Number, OrientationOf, Tag, PrintEntry, Concat, EntryAt, Valid;
    var here := ifd + 2 + 12 * i;
    var tail := PrintEntry(t) + t.after;
    EntryPrinted(t);
    if i == |t.before| {
      ConcatFrom(t.before, i);
      FirstEntry(data, ifd, i, PrintEntry(t), t.after);
    } else {
      ConcatFrom(t.before, i);
      assert t.before[i] in t.before;
      FirstEntry(data, ifd, i, t.before[i], Concat(t.before[i + 1..]) + tail);
      ScanPrinted(t, data, ifd, i + 1);
    }
  }

  lemma ConcatFrom(parts: seq<seq<Byte>>, i: nat)
    requires i <= |parts|
    ensures i == |parts| ==> forall tail: seq<Byte> :: Concat(parts[i..]) + tail == tail
    ensures i < |parts| ==>
              forall tail: seq<Byte> :: Concat(parts[i..]) + tail == parts[i] + (Concat(parts[i + 1..]) + tail)
  {
    if i < |parts| {
      assert parts[i..][1..] == parts[i + 1..];
    }
  }

  lemma FirstEntry(data: seq<Byte>, ifd: nat, i: nat, entry: seq<Byte>, rest: seq<Byte>)
    requires ifd + 2 + 12 * i <= |data| && |entry| == 12 && data[ifd + 2 + 12 * i..] == entry + rest
    ensures ifd + 2 + 12 * i + 12 <= |data| && EntryAt(data, ifd, i) == entry
    ensures data[ifd + 2 + 12 * (i + 1)..] == rest
  {
    var here := ifd + 2 + 12 * i;
    assert EntryAt(data, ifd, i) == data[here..][..12] == entry;
    assert data[here + 12..] == data[here..][12..] == rest;
  }

  lemma EntryPrinted(t: Tiff)
    requires Printable(t)
    ensures |PrintEntry(t)| == 12 && Tag(t.little, PrintEntry(t)) == ORIENTATION_TAG
    ensures OrientationOf(t.little, PrintEntry(t)) == Valid(t.value)
  {
    hide Bytes, Number;
    var entry := PrintEntry(t);
    assert Power(2) == 0x1_0000 && Power(4) == 0x1_0000_0000;
    NumberInverse(t.little, ORIENTATION_TAG, 2);
    NumberInverse(t.little, SHORT, 2);
    NumberInverse(t.little, 1, 4);
    NumberInverse(t.little, t.value, 2);
    assert entry[0..2] == Bytes(t.little, ORIENTATION_TAG, 2);
    assert entry[2..4] == Bytes(t.little, SHORT, 2);
    assert entry[4..8] == Bytes(t.little, 1, 4);
    assert entry[8..10] == Bytes(t.little, t.value, 2);
  }
}
