/** The payload decoder (`extract_lut_data`): walks fixed-stride records from the
    data offset and turns the first three bytes of each into an (R, G, B) entry. */
module Decoder {
  import opened Common

  /** What the sniffer hands the decoder: grid size, byte offset of the first
      record, bytes per record, and whether records are stored B, G, R. */
  datatype Header = Header(lutSize: nat, dataOffset: nat, channels: nat, bgr: bool)

  /** One table entry; each component is a byte divided by 255 or a ramp value. */
  datatype Rgb = Rgb(r: real, g: real, b: real)

  predicate InUnit(x: real)
  {
    0.0 <= x <= 1.0
  }

  predicate UnitEntry(c: Rgb)
  {
    InUnit(c.r) && InUnit(c.g) && InUnit(c.b)
  }

  function Channel(v: Byte): (c: real)
    ensures InUnit(c)
  {
    v as real / 255.0
  }

  /** Swaps the first and third components (BGR <-> RGB). */
  function SwapRB(c: Rgb): Rgb
  {
    Rgb(c.b, c.g, c.r)
  }

  /** The entry decoded from the three bytes at `pos`. */
  function RecordAt(data: seq<Byte>, pos: nat, bgr: bool): (c: Rgb)
    requires pos + 3 <= |data|
    ensures UnitEntry(c)
    ensures (if bgr then c.b else c.r) == Channel(data[pos])
    ensures c.g == Channel(data[pos + 1])
    ensures (if bgr then c.r else c.b) == Channel(data[pos + 2])
  {
    var c1, c2, c3 := Channel(data[pos]), Channel(data[pos + 1]), Channel(data[pos + 2]);
    if bgr then Rgb(c3, c2, c1) else Rgb(c1, c2, c3)
  }

  /** Record i is complete when its three bytes lie inside the blob. */
  predicate Readable(size: nat, offset: nat, channels: nat, i: nat)
  {
    offset + i * channels + 3 <= size
  }

  /** Number of entries the decoder produces for a blob of `size` bytes: the
      walk stops at the first incomplete record or after `total` records. */
  function RecordCount(size: nat, offset: nat, channels: nat, total: nat): (k: nat)
    ensures k <= total
    ensures forall i: nat :: i < k ==> Readable(size, offset, channels, i)
    ensures k < total ==> !Readable(size, offset, channels, k)
  {
    if offset + 3 > size then 0
    else if channels == 0 then total
    else
      var fit := (size - offset - 3) / channels + 1;
      assert forall i: nat :: i < fit ==> i * channels <= size - offset - 3 by {
        forall i: nat | i < fit ensures i * channels <= size - offset - 3 {
          MulBelowQuotient(i, size - offset - 3, channels);
        }
      }
      assert fit * channels > size - offset - 3;
      Min(total, fit)
  }

  lemma MulBelowQuotient(i: nat, m: nat, d: nat)
    requires d > 0 && i <= m / d
    ensures i * d <= m
  {
    assert i * d <= (m / d) * d;
  }

  /** A count with RecordCount's two defining properties is RecordCount. */
  lemma {:induction false} RecordCountUnique(size: nat, offset: nat, channels: nat, total: nat, k: nat)
    requires k <= total
    requires forall i: nat :: i < k ==> Readable(size, offset, channels, i)
    requires k < total ==> !Readable(size, offset, channels, k)
    ensures k == RecordCount(size, offset, channels, total)
  {
  }

  /** The entries `extract_lut_data` returns, as a function of the blob and
      header: never more than n^3, one per complete record up to the first
      incomplete one, every component in [0, 1]. */
  function Decoded(data: seq<Byte>, h: Header): (entries: seq<Rgb>)
    ensures |entries| <= Cube(h.lutSize)
    ensures forall i: nat :: i < |entries| ==> Readable(|data|, h.dataOffset, h.channels, i)
    ensures |entries| < Cube(h.lutSize) ==> !Readable(|data|, h.dataOffset, h.channels, |entries|)
    ensures forall i :: 0 <= i < |entries| ==> UnitEntry(entries[i])
  {
    var k := RecordCount(|data|, h.dataOffset, h.channels, Cube(h.lutSize));
    seq(k, i requires 0 <= i < k =>
      assert Readable(|data|, h.dataOffset, h.channels, i);
      RecordAt(data, h.dataOffset + i * h.channels, h.bgr))
  }

  /** Entry i comes from the three bytes at dataOffset + i * channels, with the
      first and third swapped exactly when the header says BGR. */
  lemma DecodedEntry(data: seq<Byte>, h: Header, i: nat)
    requires i < |Decoded(data, h)|
    ensures h.dataOffset + i * h.channels + 3 <= |data|
    ensures var pos := h.dataOffset + i * h.channels;
      Decoded(data, h)[i] == (if h.bgr then SwapRB(RecordAt(data, pos, false)) else RecordAt(data, pos, false))
  {
    var pos := h.dataOffset + i * h.channels;
    assert Readable(|data|, h.dataOffset, h.channels, i);
    assert Decoded(data, h)[i] == RecordAt(data, pos, h.bgr);
  }

  /** Encoding an entry back into bytes in the stored order recovers the record. */
  function EncodeRecord(c: Rgb, bgr: bool): (bytes: seq<real>)
  {
    var first := if bgr then c.b else c.r;
    var third := if bgr then c.r else c.b;
    [first * 255.0, c.g * 255.0, third * 255.0]
  }

  lemma {:induction false} RecordRoundTrip(data: seq<Byte>, pos: nat, bgr: bool)
    requires pos + 3 <= |data|
    ensures EncodeRecord(RecordAt(data, pos, bgr), bgr) ==
      [data[pos] as real, data[pos + 1] as real, data[pos + 2] as real]
  {
    var c := RecordAt(data, pos, bgr);
    assert (if bgr then c.b else c.r) * 255.0 == data[pos] as real;
  }

  /** `extract_lut_data`: walks up to n^3 records of `channels` bytes from the
      data offset and stops at the first one with fewer than three bytes left. */
  method ExtractLutData(data: seq<Byte>, header: Header) returns (entries: seq<Rgb>)
    ensures entries == Decoded(data, header)
  {
    var lutSize := header.lutSize;
    var dataOffset := header.dataOffset;
    var channels := header.channels;
    var isBgr := header.bgr;

    var lutData := if dataOffset <= |data| then data[dataOffset..] else [];
    entries := [];
    var numEntries := Cube(lutSize);

    for i := 0 to numEntries
      invariant |entries| == i
      invariant forall k: nat :: k < i ==>
        Readable(|data|, dataOffset, channels, k) &&
        entries[k] == RecordAt(data, dataOffset + k * channels, isBgr)
    {
      var offset := i * channels;
      if offset + 3 > |lutData| {
        break;
      }
      var v1, v2, v3 := lutData[offset], lutData[offset + 1], lutData[offset + 2];
      var c1, c2, c3 := v1 as real / 255.0, v2 as real / 255.0, v3 as real / 255.0;
      if isBgr {
        entries := entries + [Rgb(c3, c2, c1)];
      } else {
        entries := entries + [Rgb(c1, c2, c3)];
      }
    }
    RecordCountUnique(|data|, dataOffset, channels, numEntries, |entries|);
  }
}
