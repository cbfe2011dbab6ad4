/** The raw-dump resolver of `convert_bin_to_cube`: a blob without the
    container magic is read from offset 0 with a grid size taken from a table
    of known lengths or from a rounded cube root of the length. */
module RawDump {
  import opened Common
  import opened Decoder

  lemma CubeMono(a: nat, b: nat)
    requires a <= b
    ensures Cube(a) <= Cube(b)
  {
    assert a * a <= b * b by {
      assert a * a <= a * b <= b * b;
    }
    assert a * a * a <= b * b * a <= b * b * b;
  }

  lemma CubeStrictMono(a: nat, b: nat)
    requires a < b
    ensures Cube(a) < Cube(b)
  {
    CubeMono(a, b - 1);
    assert Cube(b) == (b - 1) * (b - 1) * (b - 1) + 3 * (b - 1) * (b - 1) + 3 * (b - 1) + 1;
  }

  lemma CubeAtLeastSelf(x: nat)
    ensures Cube(x) >= x
  {
    if x >= 1 {
      CubeMono(1, x);
      assert x * x >= 1 * x;
      assert x * x * x >= 1 * x * 1;
    }
  }

  /** `k` is what `int((m / d) ** (1/3) + 0.5)` yields when the cube root is
      taken exactly: k - 1/2 <= cbrt(m / d) < k + 1/2, multiplied out by 8d. */
  predicate IsRoundedCubeRoot(m: nat, d: nat, k: nat)
  {
    (k == 0 || Cube(2 * k - 1) * d <= 8 * m) && 8 * m < Cube(2 * k + 1) * d
  }

  /** Upward search for the rounded cube root, starting at a candidate `k`
      whose lower bound already holds. */
  function RootSearch(m: nat, d: nat, k: nat): (r: nat)
    requires d > 0
    requires k == 0 || Cube(2 * k - 1) * d <= 8 * m
    ensures IsRoundedCubeRoot(m, d, r)
    decreases 8 * m + 1 - k
  {
    var upper := Cube(2 * k + 1);
    if 8 * m < upper * d then k
    else
      CubeAtLeastSelf(2 * k + 1);
      MulMono(1, d, upper);
      assert k < 8 * m + 1;
      assert 2 * (k + 1) - 1 == 2 * k + 1;
      RootSearch(m, d, k + 1)
  }

  /** Python's `int((m / d) ** (1/3) + 0.5)` on exact reals. */
  function RoundedCubeRoot(m: nat, d: nat): (k: nat)
    requires d > 0
    ensures IsRoundedCubeRoot(m, d, k)
  {
    RootSearch(m, d, 0)
  }

  /** The rounded cube root is unique. */
  lemma {:induction false} RoundedCubeRootUnique(m: nat, d: nat, k1: nat, k2: nat)
    requires d > 0 && IsRoundedCubeRoot(m, d, k1) && IsRoundedCubeRoot(m, d, k2)
    ensures k1 == k2
  {
    if k1 < k2 {
      CubeMono(2 * k1 + 1, 2 * k2 - 1);
      MulMono(Cube(2 * k1 + 1), Cube(2 * k2 - 1), d);
    } else if k2 < k1 {
      CubeMono(2 * k2 + 1, 2 * k1 - 1);
      MulMono(Cube(2 * k2 + 1), Cube(2 * k1 - 1), d);
    }
  }

  /** For a length that is exactly d * k^3, the rounded cube root of
      length / d is k. */
  lemma {:induction false} RoundedCubeRootOfCube(k: nat, d: nat)
    requires d > 0
    ensures RoundedCubeRoot(d * Cube(k), d) == k
  {
    var m := d * Cube(k);
    assert Cube(2 * k) == 8 * Cube(k);
    CubeStrictMono(2 * k, 2 * k + 1);
    if k > 0 {
      CubeMono(2 * k - 1, 2 * k);
    }
    MulMono(if k > 0 then Cube(2 * k - 1) else 0, Cube(2 * k), d);
    assert Cube(2 * k) * d < Cube(2 * k + 1) * d by {
      MulStrict(Cube(2 * k), Cube(2 * k + 1), d);
    }
    assert IsRoundedCubeRoot(m, d, k);
    RoundedCubeRootUnique(m, d, k, RoundedCubeRoot(m, d));
  }

  lemma MulStrict(a: nat, b: nat, d: nat)
    requires a < b && d > 0
    ensures a * d < b * d
  {
  }

  /** The grid sizes and channel counts recognised outright for raw dumps;
      each known length is exactly size^3 records of that many channels. */
  function RawExactSize(fileSize: nat): (r: Option<(nat, nat)>)
    ensures r.Some? ==> r.value.1 * Cube(r.value.0) == fileSize
    ensures r.Some? ==> r.value.0 == 16 || r.value.0 == 32
  {
    if fileSize == 16384 then Some((16, 4))
    else if fileSize == 131072 then Some((32, 4))
    else if fileSize == 98304 then Some((32, 3))
    else if fileSize == 12288 then Some((16, 3))
    else None
  }

  /** The raw-dump header: offset 0, grid size from the table or from the
      cube-root guess (channels forced to 3 on that path), and BGR unless the
      lower-cased name carries ".rgb." without ".rgba.". */
  function RawHeader(fileSize: nat, filename: string): (h: Header)
    ensures h.dataOffset == 0
    ensures RawExactSize(fileSize).Some? ==> RawExactSize(fileSize) == Some((h.lutSize, h.channels))
    ensures RawExactSize(fileSize).None? ==>
      h.channels == 3 &&
      IsRoundedCubeRoot(fileSize, if Cube(RoundedCubeRoot(fileSize, 4)) * 4 == fileSize then 4 else 3, h.lutSize)
    ensures h.channels == 3 || h.channels == 4
    ensures !h.bgr <==> Contains(AsciiLower(filename), RgbHint) && !Contains(AsciiLower(filename), RgbaHint)
  {
    var (lutSize, channels) :=
      match RawExactSize(fileSize)
      case Some(p) => p
      case None =>
        var sizeC4 := RoundedCubeRoot(fileSize, 4);
        if Cube(sizeC4) * 4 == fileSize then (sizeC4, 3)
        else (RoundedCubeRoot(fileSize, 3), 3);
    var lowered := AsciiLower(filename);
    var isBgr := !(Contains(lowered, RgbHint) && !Contains(lowered, RgbaHint));
    Header(lutSize, 0, channels, isBgr)
  }

  /** The four-channel cube-root test succeeds exactly on lengths of the form
      4 * k^3; such a length outside the table still gets three channels. */
  lemma {:induction false} FourChannelShapeReadAsThree(k: nat, filename: string)
    requires RawExactSize(4 * Cube(k)).None?
    ensures RawHeader(4 * Cube(k), filename).lutSize == k
    ensures RawHeader(4 * Cube(k), filename).channels == 3
  {
    RoundedCubeRootOfCube(k, 4);
  }

  lemma OddCube(a: nat)
    ensures Cube(2 * a + 1) == 2 * (4 * a * a * a + 6 * a * a + 3 * a) + 1
  {
  }

  lemma EvenCube(a: nat)
    ensures Cube(2 * a) == 8 * Cube(a)
  {
  }

  /** No positive length is both three times a cube and four times a cube
      (4/3 has no rational cube root), by infinite descent. */
  lemma {:induction false} ThreeCubeNotFourCube(k: nat, j: nat)
    requires 3 * Cube(k) == 4 * Cube(j)
    ensures k == 0
    decreases k
  {
    if k > 0 {
      var a := k / 2;
      OddCube(a);
      assert k == 2 * a;
      EvenCube(a);
      var b := j / 2;
      OddCube(b);
      assert j == 2 * b;
      EvenCube(b);
      assert 3 * Cube(a) == 4 * Cube(b);
      ThreeCubeNotFourCube(a, b);
    }
  }

  /** A length 3 * k^3 outside the table gets grid size k and three channels:
      the four-channel test cannot fire on it. */
  lemma {:induction false} ThreeChannelShape(k: nat, filename: string)
    requires RawExactSize(3 * Cube(k)).None?
    ensures RawHeader(3 * Cube(k), filename).lutSize == k
    ensures RawHeader(3 * Cube(k), filename).channels == 3
  {
    var sizeC4 := RoundedCubeRoot(3 * Cube(k), 4);
    if Cube(sizeC4) * 4 == 3 * Cube(k) {
      ThreeCubeNotFourCube(k, sizeC4);
      RoundedCubeRootOfCube(0, 4);
    } else {
      RoundedCubeRootOfCube(k, 3);
    }
  }

  /** The four-channel test never fires on a length that is not four times a cube. */
  lemma FourChannelTestExact(fileSize: nat)
    ensures Cube(RoundedCubeRoot(fileSize, 4)) * 4 == fileSize <==> exists k: nat :: 4 * Cube(k) == fileSize
  {
    if exists k: nat :: 4 * Cube(k) == fileSize {
      var k: nat :| 4 * Cube(k) == fileSize;
      RoundedCubeRootOfCube(k, 4);
    }
  }
}
