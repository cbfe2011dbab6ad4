/** The `.MS-LUT ` container sniffer (`parse_ms_lut_header`): recognises the
    magic, reads the version, derives grid size, channel count and payload
    offset from the file length, and samples the first rows to decide whether
    records are stored B, G, R. */
module MsLut {
  import opened Common
  import opened Decoder

  /** The eight bytes ".MS-LUT " that open every container. */
  const Magic: seq<Byte> := [0x2E, 0x4D, 0x53, 0x2D, 0x4C, 0x55, 0x54, 0x20]

  predicate HasMagic(data: seq<Byte>)
  {
    StartsWith(data, Magic)
  }

  /** Grid sizes of the brute-force search, in the order they are tried. */
  const Sizes: seq<nat> := [17, 32, 33, 21, 16, 25, 20, 64]

  /** Channel counts tried for each grid size, in order. */
  const ChannelCounts: seq<nat> := [3, 4]

  lemma SearchRanges()
    ensures forall i :: 0 <= i < |Sizes| ==> 16 <= Sizes[i] <= 64 && Cube(Sizes[i]) >= 4096
    ensures forall j :: 0 <= j < |ChannelCounts| ==> ChannelCounts[j] == 3 || ChannelCounts[j] == 4
  {
  }

  /** A (size, channels) pair explains a file of `fileSize` bytes when the
      bytes left over for a header number between 0 and 4095. */
  predicate Fits(fileSize: nat, size: nat, channels: nat)
  {
    0 <= fileSize - Cube(size) * channels < 4096
  }

  /** Position (a, b) of the nested search comes before position (i, j). */
  predicate Before(a: nat, b: nat, i: nat, j: nat)
  {
    a < i || (a == i && b < j)
  }

  /** The first channel index from `from` on whose count fits with `size`. */
  function FirstChannel(fileSize: nat, size: nat, from: nat): (r: Option<nat>)
    requires from <= |ChannelCounts|
    ensures r.Some? ==> from <= r.value < |ChannelCounts| && Fits(fileSize, size, ChannelCounts[r.value])
    ensures r.Some? ==> forall b :: from <= b < r.value ==> !Fits(fileSize, size, ChannelCounts[b])
    ensures r.None? ==> forall b :: from <= b < |ChannelCounts| ==> !Fits(fileSize, size, ChannelCounts[b])
    decreases |ChannelCounts| - from
  {
    if from == |ChannelCounts| then None
    else if Fits(fileSize, size, ChannelCounts[from]) then Some(from)
    else FirstChannel(fileSize, size, from + 1)
  }

  /** The brute-force search: the first (size index, channel index) pair, in
      the nested order sizes-then-channels from size index `from` on, that fits. */
  function FirstFit(fileSize: nat, from: nat): (r: Option<(nat, nat)>)
    requires from <= |Sizes|
    ensures r.Some? ==>
      from <= r.value.0 < |Sizes| && r.value.1 < |ChannelCounts| &&
      Fits(fileSize, Sizes[r.value.0], ChannelCounts[r.value.1])
    ensures r.Some? ==> forall a, b ::
      from <= a < |Sizes| && 0 <= b < |ChannelCounts| && Before(a, b, r.value.0, r.value.1) ==>
      !Fits(fileSize, Sizes[a], ChannelCounts[b])
    ensures r.None? ==> forall a, b ::
      from <= a < |Sizes| && 0 <= b < |ChannelCounts| ==> !Fits(fileSize, Sizes[a], ChannelCounts[b])
    decreases |Sizes| - from
  {
    if from == |Sizes| then None
    else
      match FirstChannel(fileSize, Sizes[from], 0)
      case Some(j) => Some((from, j))
      case None => FirstFit(fileSize, from + 1)
  }

  /** Grid size, channel count and payload offset of a container. */
  datatype Geometry = Geometry(lutSize: nat, channels: nat, dataOffset: nat)

  /** The two container sizes recognised outright; each profile's payload
      ends exactly at the end of the file. */
  function ExactProfile(fileSize: nat): (r: Option<Geometry>)
    ensures r.Some? ==> r.value.dataOffset + Cube(r.value.lutSize) * r.value.channels == fileSize
    ensures r.Some? ==> Fits(fileSize, r.value.lutSize, r.value.channels)
  {
    if fileSize == 14855 then Some(Geometry(17, 3, 116))
    else if fileSize == 98480 then Some(Geometry(32, 3, 176))
    else None
  }

  /** The last-resort grid size, chosen by banding the file size; it is one
      of the sizes the search tries. */
  function BandedSize(fileSize: nat): (size: nat)
    ensures size in Sizes
  {
    if fileSize <= 16000 then 17
    else if fileSize <= 30000 then 21
    else if fileSize <= 100000 then 32
    else 33
  }

  /** The banded size never shrinks as the file grows. */
  lemma BandedSizeMonotone(small: nat, large: nat)
    requires small <= large
    ensures BandedSize(small) <= BandedSize(large)
  {
  }

  /** Geometry from the brute-force search, or from size banding when no pair fits. */
  function SearchGeometry(fileSize: nat): (g: Geometry)
    ensures 16 <= g.lutSize <= 64 && (g.channels == 3 || g.channels == 4)
    ensures g.dataOffset <= fileSize
    ensures fileSize > 0 ==> g.dataOffset < fileSize
    ensures FirstFit(fileSize, 0).Some? ==>
      g.lutSize == Sizes[FirstFit(fileSize, 0).value.0] &&
      g.channels == ChannelCounts[FirstFit(fileSize, 0).value.1]
    ensures FirstFit(fileSize, 0).Some? ==>
      Fits(fileSize, g.lutSize, g.channels) && g.dataOffset + Cube(g.lutSize) * g.channels == fileSize
    ensures FirstFit(fileSize, 0).None? ==>
      g.lutSize == BandedSize(fileSize) && g.channels == 3 &&
      g.dataOffset == (if fileSize >= Cube(g.lutSize) * 3 then fileSize - Cube(g.lutSize) * 3 else 0)
  {
    match FirstFit(fileSize, 0)
    case Some((i, j)) =>
      SearchRanges();
      var size, ch := Sizes[i], ChannelCounts[j];
      Geometry(size, ch, fileSize - Cube(size) * ch)
    case None =>
      var size := BandedSize(fileSize);
      SearchRanges();
      var offset := fileSize - Cube(size) * 3;
      Geometry(size, 3, if offset < 0 then 0 else offset)
  }

  /** The exact-size fast paths give what the brute-force search would have
      given for those lengths. */
  lemma {:induction false} ExactProfilesMatchSearch(fileSize: nat)
    ensures ExactProfile(fileSize).Some? ==> ExactProfile(fileSize).value == SearchGeometry(fileSize)
  {
    if fileSize == 14855 {
      assert FirstChannel(fileSize, Sizes[0], 0) == Some(0);
      assert FirstFit(fileSize, 0) == Some((0, 0));
    } else if fileSize == 98480 {
      assert FirstChannel(fileSize, Sizes[0], 1) == None;
      assert FirstChannel(fileSize, Sizes[0], 0) == None;
      assert FirstChannel(fileSize, Sizes[1], 0) == Some(0);
      assert FirstFit(fileSize, 1) == Some((1, 0));
      assert FirstFit(fileSize, 0) == Some((1, 0));
    }
  }

  /** The geometry `parse_ms_lut_header` settles on: the exact profiles, then
      the search. It is the search result for every length. */
  function MagicGeometry(fileSize: nat): (g: Geometry)
    ensures g == SearchGeometry(fileSize)
  {
    ExactProfilesMatchSearch(fileSize);
    match ExactProfile(fileSize)
    case Some(p) => p
    case None => SearchGeometry(fileSize)
  }

  /** The bytes at position k (0 or 2) of each of the first `rows` records that
      has three bytes inside the blob, as the sampling loop collects them. */
  function Sampled(data: seq<Byte>, offset: nat, channels: nat, rows: nat, k: nat): (s: seq<Byte>)
    requires k < 3
    ensures |s| <= rows
    ensures rows > 0 && offset + (rows - 1) * channels + 3 <= |data| ==>
      |s| == rows && s[rows - 1] == data[offset + (rows - 1) * channels + k]
  {
    if rows == 0 then []
    else
      var idx := offset + (rows - 1) * channels;
      Sampled(data, offset, channels, rows - 1, k) + (if idx + 3 <= |data| then [data[idx + k]] else [])
  }

  /** The byte order `parse_ms_lut_header` reports: BGR when the third byte
      rises more than the first over the sampled rows; the filename hint only
      when fewer than two rows were sampled; RGB when four records do not fit
      after the offset. For records of three or more bytes and grid size two
      or more, that is the comparison of the first and last of min(4, n) rows,
      and the name never matters. */
  function ByteOrder(data: seq<Byte>, offset: nat, channels: nat, lutSize: nat, filename: string): (bgr: bool)
    ensures channels >= 3 && lutSize >= 2 ==>
      (bgr <==>
        offset + channels * 4 <= |data| &&
        var last := offset + (Min(4, lutSize) - 1) * channels;
        last + 2 < |data| &&
        data[last + 2] as int - data[offset + 2] as int > data[last] as int - data[offset] as int)
  {
    if offset + channels * 4 <= |data| then
      var rows := Min(4, lutSize);
      var b0 := Sampled(data, offset, channels, rows, 0);
      var b2 := Sampled(data, offset, channels, rows, 2);
      var bgr :=
        if |b0| >= 2 && |b2| >= 2 then b2[|b2| - 1] as int - b2[0] as int > b0[|b0| - 1] as int - b0[0] as int
        else Contains(AsciiLower(filename), RgbaHint);
      if channels >= 3 then
        AllRowsSampled(data, offset, channels, rows, 0);
        AllRowsSampled(data, offset, channels, rows, 2);
        bgr
      else bgr
    else false
  }

  /** When four records fit after the offset and records are at least three
      bytes apart, every one of the first `rows` (at most four) is sampled. */
  lemma {:induction false} AllRowsSampled(data: seq<Byte>, offset: nat, channels: nat, rows: nat, k: nat)
    requires k < 3 && channels >= 3 && rows <= 4
    requires offset + channels * 4 <= |data|
    ensures |Sampled(data, offset, channels, rows, k)| == rows
    ensures forall r :: 0 <= r < rows ==>
      offset + r * channels + k < |data| &&
      Sampled(data, offset, channels, rows, k)[r] == data[offset + r * channels + k]
  {
    if rows > 0 {
      AllRowsSampled(data, offset, channels, rows - 1, k);
      var idx := offset + (rows - 1) * channels;
      assert idx + 3 <= offset + channels * 4 by {
        assert (rows - 1) * channels <= 3 * channels;
      }
    }
  }

  /** A test pattern whose first byte strictly rises over the sampled rows and
      whose third byte stays constant is detected as RGB. */
  lemma AscendingRedIsRgb(data: seq<Byte>, offset: nat, channels: nat, lutSize: nat, filename: string)
    requires channels >= 3 && lutSize >= 2 && offset + channels * 4 <= |data|
    requires forall r :: 0 <= r < Min(4, lutSize) - 1 ==>
      data[offset + r * channels] < data[offset + (r + 1) * channels]
    requires forall r :: 0 <= r < Min(4, lutSize) ==>
      data[offset + r * channels + 2] == data[offset + 2]
    ensures !ByteOrder(data, offset, channels, lutSize, filename)
  {
    var rows := Min(4, lutSize);
    var last := offset + (rows - 1) * channels;
    assert data[last + 2] == data[offset + 2];
    assert data[offset] < data[last] by {
      var r := 0;
      while r < rows - 1
        invariant 0 <= r <= rows - 1
        invariant r > 0 ==> data[offset] < data[offset + r * channels]
      {
        r := r + 1;
      }
    }
  }

  /** The outcome of `parse_ms_lut_header`: no magic (the caller treats the
      blob as a raw dump), a container too short for the version field (the
      unpack raises), or the version and the header. */
  datatype HeaderResult = NoMagic | Truncated | Parsed(version: nat, header: Header)

  function MsLutHeader(data: seq<Byte>, filename: string): (r: HeaderResult)
    ensures r.NoMagic? <==> !HasMagic(data)
    ensures r.Truncated? <==> HasMagic(data) && |data| < 12
    ensures r.Parsed? ==>
      16 <= r.header.lutSize <= 64 && (r.header.channels == 3 || r.header.channels == 4) &&
      r.header.dataOffset < |data|
  {
    if !HasMagic(data) then NoMagic
    else if |data| < 12 then Truncated
    else
      var g := MagicGeometry(|data|);
      Parsed(LeUint(data[8..12]), Header(g.lutSize, g.dataOffset, g.channels,
        ByteOrder(data, g.dataOffset, g.channels, g.lutSize, filename)))
  }

  /** Whatever a container holds, its geometry is the brute-force result for
      its length: the offsets stored at 0x20 and 0x28 play no part. */
  lemma GeometryFromLengthOnly(data: seq<Byte>, filename: string)
    requires MsLutHeader(data, filename).Parsed?
    ensures var h := MsLutHeader(data, filename).header;
      Geometry(h.lutSize, h.channels, h.dataOffset) == SearchGeometry(|data|)
  {
  }

  /** The filename fallback of the byte-order test is unreachable for
      containers: every container grid size is at least 16. */
  lemma ContainerByteOrderIgnoresFilename(data: seq<Byte>, name1: string, name2: string)
    requires HasMagic(data) && |data| >= 12
    ensures MsLutHeader(data, name1) == MsLutHeader(data, name2)
  {
    var g := MagicGeometry(|data|);
    assert ByteOrder(data, g.dataOffset, g.channels, g.lutSize, name1) ==
      ByteOrder(data, g.dataOffset, g.channels, g.lutSize, name2);
  }

  /** A fitting pair with no fitting pair before it is the search result. */
  lemma FirstFitIs(fileSize: nat, i: nat, j: nat)
    requires i < |Sizes| && j < |ChannelCounts| && Fits(fileSize, Sizes[i], ChannelCounts[j])
    requires forall a, b :: 0 <= a < |Sizes| && 0 <= b < |ChannelCounts| && Before(a, b, i, j) ==>
      !Fits(fileSize, Sizes[a], ChannelCounts[b])
    ensures FirstFit(fileSize, 0) == Some((i, j))
  {
    var r := FirstFit(fileSize, 0);
    assert r.Some?;
    var (a, b) := r.value;
    assert !Before(a, b, i, j);
    assert !Before(i, j, a, b);
  }

  /** The nested brute-force loop: sizes outermost, channel counts innermost,
      stopping at the first pair that leaves 0..4095 header bytes. */
  method BruteForceSearch(fileSize: nat) returns (found: bool, lutSize: nat, channels: nat, dataOffset: nat)
    ensures found <==> FirstFit(fileSize, 0).Some?
    ensures found ==>
      lutSize == Sizes[FirstFit(fileSize, 0).value.0] &&
      channels == ChannelCounts[FirstFit(fileSize, 0).value.1] &&
      dataOffset + Cube(lutSize) * channels == fileSize
  {
    found := false;
    lutSize, channels, dataOffset := 0, 3, 0;
    ghost var si, ci := 0, 0;
    var i := 0;
    while i < |Sizes|
      invariant 0 <= i <= |Sizes|
      invariant !found
      invariant forall a, b :: 0 <= a < i && 0 <= b < |ChannelCounts| ==> !Fits(fileSize, Sizes[a], ChannelCounts[b])
    {
      var size := Sizes[i];
      var j := 0;
      while j < |ChannelCounts|
        invariant 0 <= j <= |ChannelCounts|
        invariant !found
        invariant forall b :: 0 <= b < j ==> !Fits(fileSize, size, ChannelCounts[b])
      {
        var ch := ChannelCounts[j];
        var payload := Cube(size) * ch;
        var headerSize := fileSize - payload;
        if 0 <= headerSize < 4096 {
          lutSize, channels, dataOffset := size, ch, headerSize;
          found := true;
          si, ci := i, j;
          break;
        }
        j := j + 1;
      }
      if found {
        break;
      }
      i := i + 1;
    }
    if found {
      FirstFitIs(fileSize, si, ci);
    }
  }

  /** `parse_ms_lut_header`: magic check, version, the 0x20/0x28 offset
      candidates, the exact profiles, the brute-force search, size banding and
      byte-order sampling, in the order the source runs them. */
  method ParseMsLutHeader(data: seq<Byte>, filename: string) returns (r: HeaderResult)
    ensures r == MsLutHeader(data, filename)
    ensures r.Parsed? ==>
      Geometry(r.header.lutSize, r.header.channels, r.header.dataOffset) == SearchGeometry(|data|)
  {
    if !StartsWith(data, Magic) {
      return NoMagic;
    }
    if |data| < 12 {
      return Truncated;
    }
    var version := LeUint(data[8..12]);

    var dataOffset: int := 0;
    var lutSize: nat := 0;
    var channels: nat := 3;

    if |data| > 0x30 {
      var possibleOffsets: seq<nat> := [];
      var off1 := LeUint(data[0x20..0x28]);
      if 0 < off1 < |data| {
        possibleOffsets := possibleOffsets + [off1];
      }
      var off2 := LeUint(data[0x28..0x30]);
      if 0 < off2 < |data| {
        possibleOffsets := possibleOffsets + [off2];
      }
      if |possibleOffsets| > 0 {
        dataOffset := possibleOffsets[0];
      }
    }

    var fileSize := |data|;
    if fileSize == 14855 {
      lutSize, channels, dataOffset := 17, 3, 116;
    } else if fileSize == 98480 {
      lutSize, channels, dataOffset := 32, 3, 176;
    } else {
      var found, size, ch, offset := BruteForceSearch(fileSize);
      if found {
        lutSize, channels, dataOffset := size, ch, offset;
      } else {
        lutSize := BandedSize(fileSize);
        channels := 3;
        dataOffset := fileSize - Cube(lutSize) * channels;
        if dataOffset < 0 {
          dataOffset := 0;
        }
      }
    }
    ExactProfilesMatchSearch(fileSize);

    var isBgr := DetectByteOrder(data, dataOffset, channels, lutSize, filename);
    r := Parsed(version, Header(lutSize, dataOffset, channels, isBgr));
  }

  /** The sampling loop of `parse_ms_lut_header`: bytes 0 and 2 of each of
      the first `rows` records that lie wholly inside the blob. */
  method SampleRows(data: seq<Byte>, dataOffset: nat, channels: nat, rows: nat)
    returns (b0Vals: seq<Byte>, b2Vals: seq<Byte>)
    ensures b0Vals == Sampled(data, dataOffset, channels, rows, 0)
    ensures b2Vals == Sampled(data, dataOffset, channels, rows, 2)
  {
    b0Vals, b2Vals := [], [];
    for r := 0 to rows
      invariant b0Vals == Sampled(data, dataOffset, channels, r, 0)
      invariant b2Vals == Sampled(data, dataOffset, channels, r, 2)
    {
      var idx := dataOffset + r * channels;
      if idx + 3 <= |data| {
        b0Vals := b0Vals + [data[idx]];
        b2Vals := b2Vals + [data[idx + 2]];
      }
    }
  }

  /** The byte-order decision of `parse_ms_lut_header`. */
  method DetectByteOrder(data: seq<Byte>, dataOffset: nat, channels: nat, lutSize: nat, filename: string)
    returns (isBgr: bool)
    ensures isBgr == ByteOrder(data, dataOffset, channels, lutSize, filename)
  {
    isBgr := false;
    var fileSize := |data|;
    if dataOffset + channels * 4 <= fileSize {
      var b0Vals, b2Vals := SampleRows(data, dataOffset, channels, Min(4, lutSize));
      if |b0Vals| >= 2 && |b2Vals| >= 2 {
        var b0Diff := b0Vals[|b0Vals| - 1] as int - b0Vals[0] as int;
        var b2Diff := b2Vals[|b2Vals| - 1] as int - b2Vals[0] as int;
        isBgr := b2Diff > b0Diff;
      } else {
        isBgr := Contains(AsciiLower(filename), RgbaHint);
      }
    }
  }
}
