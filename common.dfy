/** Shared vocabulary of the converter model: bytes, an Option type, substring
    search over sequences, ASCII lower-casing and the integer cube. */
module Common {

  /** One byte of a LUT blob, as Python's `bytes` indexing yields it. */
  type Byte = b: int | 0 <= b < 256

  datatype Option<+T> = None | Some(value: T)

  function Min(a: int, b: int): int
  {
    if a <= b then a else b
  }

  function Cube(x: nat): nat
  {
    x * x * x
  }

  lemma MulMono(a: nat, b: nat, c: nat)
    requires a <= b
    ensures a * c <= b * c
  {
  }

  /** The filename hints for byte order, matched against the lower-cased name. */
  const RgbHint: string := ".rgb."
  const RgbaHint: string := ".rgba."

  /** Python's `s[:k]`: at most the first k elements. */
  function Take<T>(s: seq<T>, k: nat): (r: seq<T>)
    ensures |r| == Min(|s|, k)
    ensures forall i :: 0 <= i < |r| ==> r[i] == s[i]
  {
    if |s| <= k then s else s[..k]
  }

  /** `s.startswith(p)` */
  predicate StartsWith<T(==)>(s: seq<T>, p: seq<T>)
  {
    |p| <= |s| && s[..|p|] == p
  }

  /** p occurs in s starting at position i */
  predicate OccursAt<T(==)>(s: seq<T>, p: seq<T>, i: nat)
  {
    i + |p| <= |s| && s[i..i + |p|] == p
  }

  /** Python's `p in s` for strings and byte strings: a left-to-right scan
      that tries every start position. */
  function Contains<T(==)>(s: seq<T>, p: seq<T>): (r: bool)
    ensures r <==> exists i: nat :: OccursAt(s, p, i)
    decreases |s|
  {
    if |s| < |p| then
      assert forall i: nat :: !OccursAt(s, p, i);
      false
    else if StartsWith(s, p) then
      assert OccursAt(s, p, 0);
      true
    else
      var rest := Contains(s[1..], p);
      assert forall i: nat :: OccursAt(s[1..], p, i) <==> OccursAt(s, p, i + 1) by {
        forall i: nat ensures OccursAt(s[1..], p, i) <==> OccursAt(s, p, i + 1) {
          if i + |p| <= |s[1..]| {
            assert s[1..][i..i + |p|] == s[i + 1..i + 1 + |p|];
          }
        }
      }
      assert forall i: nat :: OccursAt(s, p, i) ==> i == 0 || OccursAt(s[1..], p, i - 1);
      rest
  }

  function LowerChar(c: char): char
  {
    if 'A' <= c <= 'Z' then (c as int + 32) as char else c
  }

  /** `str.lower()` restricted to ASCII: upper-case letters become lower-case,
      every other character is kept. */
  function AsciiLower(s: string): (r: string)
    ensures |r| == |s|
    ensures forall i :: 0 <= i < |s| ==> r[i] == LowerChar(s[i])
    ensures forall i :: 0 <= i < |s| ==> !('A' <= r[i] <= 'Z')
  {
    seq(|s|, i requires 0 <= i < |s| => LowerChar(s[i]))
  }

  /** 256 to the power e: one more than the largest e-byte unsigned integer. */
  function Pow256(e: nat): nat
  {
    if e == 0 then 1 else 256 * Pow256(e - 1)
  }

  /** Little-endian unsigned integer of the given bytes (`struct.unpack('<I')`,
      `struct.unpack('<Q')`): it fits in |s| bytes, and the first byte is its
      least significant digit. */
  function LeUint(s: seq<Byte>): (r: nat)
    ensures r < Pow256(|s|)
    ensures s != [] ==> r % 256 == s[0]
  {
    if s == [] then 0 else s[0] + 256 * LeUint(s[1..])
  }
}
