/** The table normalizer of `convert_bin_to_cube`: rejects a decode that
    recovered too few entries, then truncates or pads to exactly n^3 entries,
    padding with the identity ramp in red-fastest grid order. */
module Normalizer {
  import opened Common
  import opened Decoder

  /** The reject test `not entries or len(entries) < n**3 * 0.9`, in exact
      integer arithmetic. */
  predicate TooFew(count: nat, lutSize: nat)
  {
    count == 0 || 10 * count < 9 * Cube(lutSize)
  }

  /** More entries never turn an accepted decode into a rejected one. */
  lemma TooFewMonotone(fewer: nat, more: nat, lutSize: nat)
    requires fewer <= more && !TooFew(fewer, lutSize)
    ensures !TooFew(more, lutSize)
  {
  }

  lemma CubeOfAtMostOne(n: nat)
    ensures n <= 1 ==> Cube(n) == n
  {
    if n <= 1 {
      assert n * n == n;
    }
  }

  lemma DivBelow(i: nat, d: nat, n: nat)
    requires d > 0 && i < n * d
    ensures i / d < n
  {
    var q := i / d;
    assert q * d <= i;
    if n <= q {
      MulMono(n, q, d);
    }
  }

  lemma QuotientBelow(i: nat, n: nat)
    requires n >= 1 && i < Cube(n)
    ensures i / (n * n) < n
  {
    assert Cube(n) == n * (n * n);
    DivBelow(i, n * n, n);
  }

  /** a / b as a real, for a grid coordinate a no larger than b. */
  function Ratio(a: nat, b: nat): (x: real)
    requires 0 < b && a <= b
    ensures InUnit(x)
  {
    var x := a as real / b as real;
    assert x * b as real == a as real;
    x
  }

  /** Grid coordinates of table index i: red varies fastest, then green, then blue. */
  function RedIndex(i: nat, n: nat): nat requires n >= 1 { i % n }
  function GreenIndex(i: nat, n: nat): nat requires n >= 1 { (i / n) % n }
  function BlueIndex(i: nat, n: nat): nat requires n >= 1 { i / (n * n) }

  /** The padding entry for table index i: the identity LUT's value at i's
      grid point. Only emitted with n >= 2, so n - 1 is never zero. */
  function IdentityRamp(i: nat, n: nat): (c: Rgb)
    requires n >= 2 && i < Cube(n)
    ensures UnitEntry(c)
  {
    QuotientBelow(i, n);
    var b := Ratio(BlueIndex(i, n), n - 1);
    var g := Ratio(GreenIndex(i, n), n - 1);
    var r := Ratio(RedIndex(i, n), n - 1);
    Rgb(r, g, b)
  }

  /** The three grid coordinates of an index determine it: the ramp visits
      every grid point of an n x n x n cube exactly once. */
  lemma {:induction false} GridCoordinatesDetermineIndex(i: nat, n: nat)
    requires n >= 1 && i < Cube(n)
    ensures BlueIndex(i, n) < n
    ensures i == RedIndex(i, n) + n * GreenIndex(i, n) + n * n * BlueIndex(i, n)
  {
    QuotientBelow(i, n);
    var q := i / n;
    assert i == i % n + n * q;
    assert q == q % n + n * (q / n);
    assert q / n == i / (n * n) by {
      DivDiv(i, n);
    }
  }

  lemma DivUnique(i: nat, d: nat, q: nat, r: nat)
    requires d > 0 && r < d && i == q * d + r
    ensures i / d == q
  {
    var q', r' := i / d, i % d;
    assert i == q' * d + r';
    assert (q - q') * d == r' - r;
    MulAtLeast(q - q', d);
  }

  lemma MulAtLeast(k: int, d: int)
    ensures d >= 0 && k >= 1 ==> k * d >= d
    ensures d >= 0 && k <= -1 ==> k * d <= -d
  {
  }

  lemma DivDiv(i: nat, n: nat)
    requires n >= 1
    ensures (i / n) / n == i / (n * n)
  {
    var q := i / n;
    DivDivCore(i, n, q, i % n, q / n, q % n);
  }

  /** Two successive divisions by n, given by their quotients and remainders,
      amount to one division by n * n. */
  lemma DivDivCore(i: nat, n: nat, q: nat, r1: nat, q2: nat, r2: nat)
    requires n >= 1 && r1 < n && r2 < n
    requires i == n * q + r1 && q == n * q2 + r2
    ensures i / (n * n) == q2
  {
    Regroup(n, q2, r2, r1);
    assert r1 + n * r2 < n * n by {
      MulMono(r2, n - 1, n);
      assert (n - 1) * n == n * n - n;
    }
    DivUnique(i, n * n, q2, r1 + n * r2);
  }

  lemma Regroup(n: nat, q2: nat, r2: nat, r1: nat)
    ensures n * (n * q2 + r2) + r1 == q2 * (n * n) + (r1 + n * r2)
  {
    assert n * (n * q2 + r2) == n * (n * q2) + n * r2;
    assert n * (n * q2) == q2 * (n * n);
  }

  /** What normalization produces: None for a rejected decode, otherwise the
      table of exactly n^3 entries. */
  function Normalized(entries: seq<Rgb>, lutSize: nat): (r: Option<seq<Rgb>>)
    ensures r.None? <==> TooFew(|entries|, lutSize)
    ensures r.Some? ==> |r.value| == Cube(lutSize)
    ensures r.Some? ==> forall i :: 0 <= i < |r.value| && i < |entries| ==> r.value[i] == entries[i]
    ensures r.Some? ==> forall i :: |entries| <= i < |r.value| ==> lutSize >= 2 && r.value[i] == IdentityRamp(i, lutSize)
  {
    if TooFew(|entries|, lutSize) then None
    else
      var expected := Cube(lutSize);
      CubeOfAtMostOne(lutSize);
      Some(seq(expected, i requires 0 <= i < expected =>
        if i < |entries| then entries[i] else IdentityRamp(i, lutSize)))
  }

  /** Padding happens only for n >= 2, so the ramp never divides by zero. */
  lemma PaddingDivisorPositive(count: nat, lutSize: nat)
    requires count > 0 && count < Cube(lutSize)
    ensures lutSize - 1 > 0
  {
    CubeOfAtMostOne(lutSize);
  }

  /** Normalizing a table that already has n^3 entries returns it unchanged,
      and normalizing a normalized table is the identity. */
  lemma NormalizeFullTable(entries: seq<Rgb>, lutSize: nat)
    requires |entries| == Cube(lutSize) && |entries| > 0
    ensures Normalized(entries, lutSize) == Some(entries)
  {
    var r := Normalized(entries, lutSize);
    assert 10 * |entries| >= 9 * Cube(lutSize);
    assert r.Some?;
    assert r.value == entries;
  }

  lemma NormalizeIdempotent(entries: seq<Rgb>, lutSize: nat)
    requires lutSize >= 1 && Normalized(entries, lutSize).Some?
    ensures Normalized(Normalized(entries, lutSize).value, lutSize) == Normalized(entries, lutSize)
  {
    assert Cube(lutSize) >= 1 by {
      MulMono(1, lutSize, lutSize);
      MulMono(1, lutSize * lutSize, lutSize);
    }
    NormalizeFullTable(Normalized(entries, lutSize).value, lutSize);
  }

  /** Every entry of a normalized table is in [0, 1] when the decoded ones are. */
  lemma NormalizedInUnit(entries: seq<Rgb>, lutSize: nat)
    requires forall i :: 0 <= i < |entries| ==> UnitEntry(entries[i])
    requires Normalized(entries, lutSize).Some?
    ensures forall i :: 0 <= i < |Normalized(entries, lutSize).value| ==> UnitEntry(Normalized(entries, lutSize).value[i])
  {
  }

  /** The 90 % threshold: with m the least count reaching 0.9 * n^3, m entries
      are accepted and m - 1 are rejected. */
  lemma {:induction false} ThresholdBoundary(lutSize: nat)
    requires lutSize >= 1
    ensures var m := (9 * Cube(lutSize) + 9) / 10;
      m >= 1 && !TooFew(m, lutSize) && TooFew(m - 1, lutSize)
  {
    var c := Cube(lutSize);
    assert c >= 1 by {
      assert lutSize * lutSize >= 1;
      assert c == lutSize * lutSize * lutSize >= lutSize * lutSize;
    }
    var m := (9 * c + 9) / 10;
    assert 10 * m <= 9 * c + 9 < 10 * m + 10;
  }

  /** The reject, truncate and pad steps of `convert_bin_to_cube`. */
  method NormalizeEntries(entries: seq<Rgb>, lutSize: nat) returns (r: Option<seq<Rgb>>)
    ensures r == Normalized(entries, lutSize)
  {
    if |entries| == 0 || 10 * |entries| < 9 * Cube(lutSize) {
      return None;
    }
    var expected := Cube(lutSize);
    var table := entries;
    if |table| > expected {
      table := table[..expected];
    } else if |table| < expected {
      while |table| < expected
        invariant |entries| <= |table| <= expected
        invariant forall i :: 0 <= i < |entries| ==> table[i] == entries[i]
        invariant forall i :: |entries| <= i < |table| ==> lutSize >= 2 && table[i] == IdentityRamp(i, lutSize)
        decreases expected - |table|
      {
        var idx := |table|;
        PaddingDivisorPositive(idx, lutSize);
        table := table + [IdentityRamp(idx, lutSize)];
      }
    }
    assert |table| == expected;
    assert table == Normalized(entries, lutSize).value;
    r := Some(table);
  }
}
