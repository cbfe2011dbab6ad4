/** One file's conversion, as `convert_bin_to_cube` runs it between reading the
    bytes and writing the `.cube` text: the text short-circuit, the container
    sniffer or the raw-dump resolver, the decoder and the normalizer. */
module Convert {
  import opened Common
  import opened Decoder
  import opened Normalizer
  import opened MsLut
  import opened RawDump

  /** "LUT_3D_SIZE" and "TITLE" as ASCII bytes. */
  const LutSizeTag: seq<Byte> := [0x4C, 0x55, 0x54, 0x5F, 0x33, 0x44, 0x5F, 0x53, 0x49, 0x5A, 0x45]
  const TitleTag: seq<Byte> := [0x54, 0x49, 0x54, 0x4C, 0x45]

  /** `bytes.isascii()`: every byte is below 0x80 (true of the empty string). */
  predicate IsAscii(s: seq<Byte>)
  {
    forall i :: 0 <= i < |s| ==> s[i] < 0x80
  }

  /** `s.decode('ascii', errors='ignore')`: the bytes below 0x80, in order. */
  function AsciiDecodeIgnore(s: seq<Byte>): (r: seq<Byte>)
    ensures IsAscii(r)
    ensures |r| <= |s|
    ensures IsAscii(s) ==> r == s
  {
    if s == [] then []
    else (if s[0] < 0x80 then [s[0]] else []) + AsciiDecodeIgnore(s[1..])
  }

  lemma {:induction false} AsciiDecodeIgnoreConcat(a: seq<Byte>, b: seq<Byte>)
    ensures AsciiDecodeIgnore(a + b) == AsciiDecodeIgnore(a) + AsciiDecodeIgnore(b)
    decreases |a|
  {
    if a == [] {
      assert a + b == b;
    } else {
      assert (a + b)[1..] == a[1..] + b;
      AsciiDecodeIgnoreConcat(a[1..], b);
      var first := if a[0] < 0x80 then [a[0]] else [];
      calc {
        AsciiDecodeIgnore(a + b);
        first + AsciiDecodeIgnore(a[1..] + b);
        first + (AsciiDecodeIgnore(a[1..]) + AsciiDecodeIgnore(b));
        (first + AsciiDecodeIgnore(a[1..])) + AsciiDecodeIgnore(b);
      }
    }
  }

  /** A non-ASCII byte is always dropped: the decoded text is shorter. */
  lemma {:induction false} AsciiDecodeDropsNonAscii(s: seq<Byte>)
    requires !IsAscii(s)
    ensures |AsciiDecodeIgnore(s)| < |s|
    decreases |s|
  {
    if s[0] < 0x80 {
      assert !IsAscii(s[1..]) by {
        var j :| 0 <= j < |s| && s[j] >= 0x80;
        assert s[1..][j - 1] == s[j];
      }
      AsciiDecodeDropsNonAscii(s[1..]);
    }
  }

  /** `isascii()` holds exactly when decoding with errors ignored drops nothing. */
  lemma AsciiExactlyWhenNothingDropped(s: seq<Byte>)
    ensures IsAscii(s) <==> AsciiDecodeIgnore(s) == s
  {
    if !IsAscii(s) {
      AsciiDecodeDropsNonAscii(s);
    }
  }

  /** The blob is already a `.cube` text: its first 20 bytes are ASCII and its
      first 500 bytes, with non-ASCII bytes dropped, mention LUT_3D_SIZE or TITLE. */
  predicate IsAlreadyText(data: seq<Byte>)
  {
    var text := AsciiDecodeIgnore(Take(data, 500));
    IsAscii(Take(data, 20)) && (Contains(text, LutSizeTag) || Contains(text, TitleTag))
  }

  /** What the format sniffer decides about a blob. */
  datatype Sniffed = AlreadyText | Undeterminable | Guess(header: Header)

  function Sniff(data: seq<Byte>, filename: string): (s: Sniffed)
    ensures s.AlreadyText? <==> IsAlreadyText(data)
    ensures s.Undeterminable? <==> !IsAlreadyText(data) && HasMagic(data) && |data| < 12
    ensures s.Guess? ==> (s.header.channels == 3 || s.header.channels == 4) && s.header.dataOffset <= |data|
    ensures s.Guess? && !HasMagic(data) ==> s.header == RawHeader(|data|, filename)
  {
    if IsAlreadyText(data) then AlreadyText
    else
      match MsLutHeader(data, filename)
      case NoMagic => Guess(RawHeader(|data|, filename))
      case Truncated => Undeterminable
      case Parsed(_, h) => Guess(h)
  }

  /** The result of converting one file: copied verbatim, converted to an
      n x n x n table, or failed. */
  datatype Outcome = Copied(bytes: seq<Byte>) | Converted(lutSize: nat, table: seq<Rgb>) | Failed

  function ConvertOne(data: seq<Byte>, filename: string): (r: Outcome)
    ensures r.Copied? <==> IsAlreadyText(data)
    ensures r.Copied? ==> r.bytes == data
    ensures r.Converted? ==>
      r.lutSize >= 1 && |r.table| == Cube(r.lutSize) &&
      forall i :: 0 <= i < |r.table| ==> UnitEntry(r.table[i])
  {
    match Sniff(data, filename)
    case AlreadyText => Copied(data)
    case Undeterminable => Failed
    case Guess(h) =>
      var entries := Decoded(data, h);
      match Normalized(entries, h.lutSize)
      case None => Failed
      case Some(table) =>
        NormalizedInUnit(entries, h.lutSize);
        assert h.lutSize >= 1 by {
          CubeOfAtMostOne(h.lutSize);
        }
        Converted(h.lutSize, table)
  }

  /** A conversion fails exactly when a container is too short for its version
      field or the decode recovered no entries or fewer than 90 % of n^3. */
  lemma FailureCases(data: seq<Byte>, filename: string)
    ensures ConvertOne(data, filename).Failed? <==>
      Sniff(data, filename).Undeterminable? ||
      (Sniff(data, filename).Guess? &&
       TooFew(|Decoded(data, Sniff(data, filename).header)|, Sniff(data, filename).header.lutSize))
  {
  }

  /** A converted table starts with every decoded entry unchanged; the rest is
      the identity ramp for n >= 2, whatever the byte order. The truncation
      step never applies, since the decoder yields at most n^3 entries. */
  lemma ConvertedTable(data: seq<Byte>, filename: string)
    requires ConvertOne(data, filename).Converted?
    ensures Sniff(data, filename).Guess?
    ensures var h := Sniff(data, filename).header;
      var entries := Decoded(data, h);
      var t := ConvertOne(data, filename).table;
      |entries| <= |t| &&
      (forall i :: 0 <= i < |entries| ==> t[i] == entries[i]) &&
      (forall i :: |entries| <= i < |t| ==> h.lutSize >= 2 && t[i] == IdentityRamp(i, h.lutSize))
  {
  }

  /** A tag found in the ASCII first 20 bytes is found at the same position
      once the first 500 bytes are decoded with errors ignored: nothing before
      it is dropped. */
  lemma TagSurvivesDecode(data: seq<Byte>, tag: seq<Byte>, i: nat)
    requires IsAscii(Take(data, 20))
    requires i + |tag| <= 20 && OccursAt(data, tag, i)
    ensures OccursAt(AsciiDecodeIgnore(Take(data, 500)), tag, i)
  {
    var head := Take(data, 500);
    var k := Min(|data|, 20);
    var front, back := head[..k], head[k..];
    assert front == Take(data, 20);
    assert head == front + back;
    AsciiDecodeIgnoreConcat(front, back);
    assert front[i..i + |tag|] == data[i..i + |tag|];
  }

  /** The text test runs first: a blob whose first 20 bytes are ASCII and
      hold LUT_3D_SIZE or TITLE is copied, whatever the rest of it holds. */
  lemma TextBeforeMagic(data: seq<Byte>, filename: string, tag: seq<Byte>, i: nat)
    requires tag == LutSizeTag || tag == TitleTag
    requires IsAscii(Take(data, 20))
    requires i + |tag| <= 20 && OccursAt(data, tag, i)
    ensures ConvertOne(data, filename) == Copied(data)
  {
    TagSurvivesDecode(data, tag, i);
  }

  /** A blob that opens with the container magic and then TITLE is a valid
      container as far as the sniffer goes, yet it is copied as text. */
  lemma MagicThenTitleIsCopied(data: seq<Byte>, filename: string)
    requires HasMagic(data) && OccursAt(data, TitleTag, 8) && IsAscii(Take(data, 20))
    ensures MsLutHeader(data, filename).Parsed?
    ensures ConvertOne(data, filename) == Copied(data)
  {
    TextBeforeMagic(data, filename, TitleTag, 8);
  }

  /** A blob shorter than "TITLE" is never taken for text. */
  lemma ShortBlobIsNotText(data: seq<Byte>)
    requires |data| < |TitleTag|
    ensures !IsAlreadyText(data)
  {
    var text := AsciiDecodeIgnore(Take(data, 500));
    assert forall i: nat :: !OccursAt(text, TitleTag, i);
    assert forall i: nat :: !OccursAt(text, LutSizeTag, i);
  }

  /** A 14855-byte container is the 17-point profile at offset 116 and yields
      exactly 4913 decoded entries, with no padding. */
  lemma Profile17(data: seq<Byte>, filename: string)
    requires |data| == 14855 && HasMagic(data) && !IsAlreadyText(data)
    ensures var h := Sniff(data, filename).header;
      h.lutSize == 17 && h.channels == 3 && h.dataOffset == 116 &&
      ConvertOne(data, filename) == Converted(17, Decoded(data, h)) &&
      |Decoded(data, h)| == 4913
  {
    var h := Sniff(data, filename).header;
    assert RecordCount(14855, 116, 3, 4913) == 4913;
    NormalizeFullTable(Decoded(data, h), 17);
  }

  /** A 98480-byte container is the 32-point profile at offset 176 and yields
      exactly 32768 decoded entries. */
  lemma Profile32(data: seq<Byte>, filename: string)
    requires |data| == 98480 && HasMagic(data) && !IsAlreadyText(data)
    ensures var h := Sniff(data, filename).header;
      h.lutSize == 32 && h.channels == 3 && h.dataOffset == 176 &&
      ConvertOne(data, filename) == Converted(32, Decoded(data, h)) &&
      |Decoded(data, h)| == 32768
  {
    var h := Sniff(data, filename).header;
    assert RecordCount(98480, 176, 3, 32768) == 32768;
    NormalizeFullTable(Decoded(data, h), 32);
  }

  /** A 16384-byte raw dump is a 16-point four-channel table at offset 0, BGR
      unless the name carries the ".rgb." hint. */
  lemma RawDump16(data: seq<Byte>, filename: string)
    requires |data| == 16384 && !HasMagic(data) && !IsAlreadyText(data)
    requires !Contains(AsciiLower(filename), RgbHint)
    ensures Sniff(data, filename) == Guess(Header(16, 0, 4, true))
    ensures ConvertOne(data, filename) == Converted(16, Decoded(data, Header(16, 0, 4, true)))
    ensures |Decoded(data, Header(16, 0, 4, true))| == 4096
  {
    var h := Header(16, 0, 4, true);
    assert RecordCount(16384, 0, 4, 4096) == 4096;
    NormalizeFullTable(Decoded(data, h), 16);
  }

  /** `convert_bin_to_cube` between reading the bytes and writing the output. */
  method ConvertBinToCube(data: seq<Byte>, filename: string) returns (r: Outcome)
    ensures r == ConvertOne(data, filename)
  {
    if IsAscii(Take(data, 20)) {
      var textStart := AsciiDecodeIgnore(Take(data, 500));
      if Contains(textStart, LutSizeTag) || Contains(textStart, TitleTag) {
        return Copied(data);
      }
    }

    var parsed := ParseMsLutHeader(data, filename);
    var header: Header;
    match parsed {
      case Truncated =>
        return Failed;
      case NoMagic =>
        header := RawHeader(|data|, filename);
      case Parsed(_, h) =>
        header := h;
    }

    var lutSize := header.lutSize;
    var entries := ExtractLutData(data, header);
    var table := NormalizeEntries(entries, lutSize);
    match table {
      case None =>
        return Failed;
      case Some(t) =>
        return Converted(lutSize, t);
    }
  }
}
