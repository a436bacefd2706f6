/** Byte strings: big-endian integers and the bytewise order. */
module Bytes {
  type byte = b: int | 0 <= b < 256
  type Bytes = seq<byte>

  function Pow(w: nat): nat {
    if w == 0 then 1 else 256 * Pow(w - 1)
  }

  /** The low `w` bytes of `n`, most significant first: a conversion to a narrower width truncates. */
  function BigEndian(n: nat, w: nat): (r: Bytes)
    ensures |r| == w
  {
    if w == 0 then [] else BigEndian(n / 256, w - 1) + [n % 256]
  }

  function Number(s: Bytes): (n: nat)
    ensures n < Pow(|s|)
  {
    if s == [] then 0 else Number(s[..|s| - 1]) * 256 + s[|s| - 1]
  }

  lemma Widths()
    ensures Pow(2) == 0x1_0000 && Pow(4) == 0x1_0000_0000 && Pow(8) == 0x1_0000_0000_0000_0000
  {
    assert Pow(1) == 256 && Pow(2) == 0x1_0000 && Pow(3) == 0x100_0000 && Pow(4) == 0x1_0000_0000;
    assert Pow(5) == 256 * Pow(4) && Pow(6) == 256 * Pow(5) && Pow(7) == 256 * Pow(6) && Pow(8) == 256 * Pow(7);
  }

  lemma {:induction false} NumberOfBigEndian(n: nat, w: nat)
    requires n < Pow(w)
    ensures Number(BigEndian(n, w)) == n
  {
    if w > 0 {
      NumberOfBigEndian(n / 256, w - 1);
      var s := BigEndian(n, w);
      assert s[..|s| - 1] == BigEndian(n / 256, w - 1);
    }
  }

  lemma {:induction false} BigEndianOfNumber(s: Bytes)
    ensures BigEndian(Number(s), |s|) == s
  {
    if s != [] {
      var init := s[..|s| - 1];
      BigEndianOfNumber(init);
      assert Number(s) / 256 == Number(init) && Number(s) % 256 == s[|s| - 1];
      assert s == init + [s[|s| - 1]];
    }
  }

  // ---- Order ----

  /** `a` sorts strictly before `b`, byte by byte; a proper prefix sorts first. */
  predicate Before(a: Bytes, b: Bytes) {
    b != [] && (a == [] || a[0] < b[0] || (a[0] == b[0] && Before(a[1..], b[1..])))
  }

  lemma {:induction false} BeforeIsTotal(a: Bytes, b: Bytes)
    ensures Before(a, b) || a == b || Before(b, a)
    ensures !(Before(a, b) && Before(b, a)) && !Before(a, a)
    decreases |a|
  {
    if a != [] {
      BeforeIsTotal(a[1..], a[1..]);
      if b != [] {
        BeforeIsTotal(a[1..], b[1..]);
        assert a == [a[0]] + a[1..] && b == [b[0]] + b[1..];
      }
    }
  }

  lemma {:induction false} BeforeIsTransitive(a: Bytes, b: Bytes, c: Bytes)
    requires Before(a, b) && Before(b, c)
    ensures Before(a, c)
    decreases |a|
  {
    if a != [] && a[0] == b[0] == c[0] {
      BeforeIsTransitive(a[1..], b[1..], c[1..]);
    }
  }

  /** The texts agree up to `k`, where `a` ends or has the smaller byte. */
  ghost predicate SmallerAt(a: Bytes, b: Bytes, k: int) {
    && 0 <= k <= |a| && k < |b| && (forall i :: 0 <= i < k ==> a[i] == b[i])
    && (k == |a| || a[k] < b[k])
  }

  ghost predicate Smaller(a: Bytes, b: Bytes) {
    exists k :: SmallerAt(a, b, k)
  }

  /** The bytewise order, byte by byte. */
  lemma {:induction false} BeforeIff(a: Bytes, b: Bytes)
    ensures Before(a, b) <==> Smaller(a, b)
    decreases |a|
  {
    if a == [] || b == [] || a[0] != b[0] {
      if Before(a, b) { assert SmallerAt(a, b, 0); }
      if k :| SmallerAt(a, b, k) { assert k == 0; }
    } else {
      BeforeIff(a[1..], b[1..]);
      if Before(a, b) {
        var k :| SmallerAt(a[1..], b[1..], k);
        forall i | 0 <= i < k + 1 ensures a[i] == b[i] {
          if i > 0 { assert a[1..][i - 1] == b[1..][i - 1]; }
        }
        assert k < |a| - 1 ==> a[k + 1] == a[1..][k] && b[k + 1] == b[1..][k];
        assert SmallerAt(a, b, k + 1);
      }
      if k :| SmallerAt(a, b, k) { assert SmallerAt(a[1..], b[1..], k - 1); }
    }
  }
}
