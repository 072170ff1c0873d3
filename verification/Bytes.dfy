/** Little-endian machine words, the only number format the BWF container uses. */
module Bytes {
  import opened Arithmetic

  type byte = b: int | 0 <= b < 256

  const U16_LIMIT: nat := 0x1_0000
  const U32_LIMIT: nat := 0x1_0000_0000
  const U64_LIMIT: nat := 0x1_0000_0000_0000_0000

  function Pow256(k: nat): (p: nat)
    ensures p >= 1
  {
    if k == 0 then 1 else 256 * Pow256(k - 1)
  }

  lemma Pow256Words()
    ensures Pow256(2) == U16_LIMIT
    ensures Pow256(3) == 0x100_0000
    ensures Pow256(4) == U32_LIMIT
    ensures Pow256(8) == U64_LIMIT
  {
    assert Pow256(3) == 256 * Pow256(2);
    assert Pow256(4) == 256 * Pow256(3);
    assert Pow256(5) == 256 * Pow256(4);
    assert Pow256(6) == 256 * Pow256(5);
    assert Pow256(7) == 256 * Pow256(6);
    assert Pow256(8) == 256 * Pow256(7);
  }

  /** The `width` low bytes of `value`, least significant first. */
  function Le(value: nat, width: nat): (bs: seq<byte>)
    ensures |bs| == width
    decreases width, value  // keeps the solver from unrolling calls with a literal width
  {
    if width == 0 then [] else [value % 256] + Le(value / 256, width - 1)
  }

  function FromLe(bs: seq<byte>): nat {
    if bs == [] then 0 else bs[0] + 256 * FromLe(bs[1..])
  }

  lemma {:induction false} FromLeBound(bs: seq<byte>)
    ensures FromLe(bs) < Pow256(|bs|)
  {
    if bs != [] {
      FromLeBound(bs[1..]);
    }
  }

  /** Writing then reading a word recovers every value that fits the width. */
  lemma {:induction false} LeRoundTrip(value: nat, width: nat)
    requires value < Pow256(width)
    ensures FromLe(Le(value, width)) == value
  {
    if width > 0 {
      LeRoundTrip(value / 256, width - 1);
      assert Le(value, width)[1..] == Le(value / 256, width - 1);
    }
  }

  lemma LowByte(b: byte, n: nat)
    ensures (b + 256 * n) % 256 == b && (b + 256 * n) / 256 == n
  {
  }

  /** Reading then writing a word gives back its bytes. */
  lemma {:induction false} LeOfFromLe(bs: seq<byte>)
    ensures Le(FromLe(bs), |bs|) == bs
  {
    if bs != [] {
      var value, rest := FromLe(bs), bs[1..];
      assert value == bs[0] + 256 * FromLe(rest);
      assert Le(value, |bs|) == [value % 256] + Le(value / 256, |rest|);
      hide Le, FromLe;
      LowByte(bs[0], FromLe(rest));
      LeOfFromLe(rest);
      assert bs == [bs[0]] + rest;
    }
  }

  /** Byte `i` of a word weighs 256^i: the order is little-endian. */
  lemma {:induction false} ByteOfWord(value: nat, width: nat, i: nat)
    requires i < width
    ensures Le(value, width)[i] == value / Pow256(i) % 256
  {
    if i == 0 {
      assert value / 1 == value;
    } else {
      ByteOfWord(value / 256, width - 1, i - 1);
      DivideTwice(value, Pow256(i - 1));
    }
  }

  lemma DivideTwice(n: nat, d: nat)
    requires d > 0
    ensures n / 256 / d == n / (256 * d)
  {
    var a := n / 256;
    QuotientRemainder(a, d);
    var q, r := Div(a, d), Mod(a, d);
    DivMod(a, d);
    Regroup(q, d);
    QuotientUnique(n, 256 * d, q, 256 * r + n % 256);
  }

  lemma Regroup(q: nat, d: nat)
    ensures q * (256 * d) == 256 * (q * d)
  {
  }

  /** A stored word is the value whose bytes are stored. */
  lemma WordIs(bs: seq<byte>, offset: nat, width: nat, value: nat)
    requires offset + width <= |bs|
    ensures WordAt(bs, offset, width) == value <==>
      value < Pow256(width) && bs[offset..offset + width] == Le(value, width)
  {
    var slice := bs[offset..offset + width];
    LeOfFromLe(slice);
    FromLeBound(slice);
    if value < Pow256(width) {
      LeRoundTrip(value, width);
    }
  }

  lemma WordRoundTrip(value: nat)
    ensures value < U16_LIMIT ==> FromLe(Le(value, 2)) == value
    ensures value < U32_LIMIT ==> FromLe(Le(value, 4)) == value
    ensures value < U64_LIMIT ==> FromLe(Le(value, 8)) == value
  {
    Pow256Words();
    if value < U16_LIMIT { LeRoundTrip(value, 2); }
    if value < U32_LIMIT { LeRoundTrip(value, 4); }
    if value < U64_LIMIT { LeRoundTrip(value, 8); }
  }

  /** The unsigned word of `width` bytes stored at `offset`. */
  function WordAt(bs: seq<byte>, offset: nat, width: nat): (w: nat)
    requires offset + width <= |bs|
    ensures w < Pow256(width)
  {
    FromLeBound(bs[offset..offset + width]);
    FromLe(bs[offset..offset + width])
  }

  function Zeros(n: nat): (bs: seq<byte>)
    ensures |bs| == n
    ensures forall i :: 0 <= i < n ==> bs[i] == 0
  {
    seq(n, _ => 0)
  }

  lemma SliceOfSlice<T>(s: seq<T>, a: nat, b: nat, c: nat, d: nat)
    requires a <= b <= |s| && c <= d <= b - a
    ensures s[a..b][c..d] == s[a + c..a + d]
  {
    assert |s[a..b][c..d]| == |s[a + c..a + d]|;
    assert forall i :: 0 <= i < d - c ==> s[a..b][c..d][i] == s[a + c..a + d][i];
  }

  /** The two sequences hold the same first `n` elements. */
  predicate SamePrefix<T(==)>(s: seq<T>, t: seq<T>, n: nat) {
    n <= |s| && n <= |t| && forall i :: 0 <= i < n ==> s[i] == t[i]
  }

  lemma SameSlice<T>(s: seq<T>, t: seq<T>, n: nat, from: nat, to: nat)
    requires SamePrefix(s, t, n) && from <= to <= n
    ensures s[from..to] == t[from..to]
  {
  }

  function Flatten<T>(parts: seq<seq<T>>): seq<T> {
    if parts == [] then [] else parts[0] + Flatten(parts[1..])
  }

  lemma {:induction false} FlattenConcat<T>(a: seq<seq<T>>, b: seq<seq<T>>)
    ensures Flatten(a + b) == Flatten(a) + Flatten(b)
  {
    if a == [] {
      assert a + b == b;
    } else {
      assert (a + b)[1..] == a[1..] + b;
      FlattenConcat(a[1..], b);
    }
  }

  /** Bytes before part `k` of a concatenation. */
  function OffsetOf<T>(parts: seq<seq<T>>, k: nat): nat
    requires k <= |parts|
  {
    |Flatten(parts[..k])|
  }

  /** Part `k` of a concatenation sits at the summed length of the parts before it. */
  lemma PartAt<T>(parts: seq<seq<T>>, k: nat)
    requires k < |parts|
    ensures OffsetOf(parts, k + 1) == OffsetOf(parts, k) + |parts[k]| <= |Flatten(parts)|
    ensures Flatten(parts)[OffsetOf(parts, k)..OffsetOf(parts, k + 1)] == parts[k]
  {
    var before, rest := parts[..k], parts[k + 1..];
    assert parts[..k + 1] == before + [parts[k]];
    assert parts == (before + [parts[k]]) + rest;
    FlattenConcat(before, [parts[k]]);
    FlattenConcat(before + [parts[k]], rest);
    assert Flatten([parts[k]]) == parts[k];
  }
}
