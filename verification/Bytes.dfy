/** Bytes and big-endian words, as the wire formats use them. */
module Bytes {
  import opened Common

  type Byte = x: int | 0 <= x < 256

  /** 256 to the power n: the number of values of an n-byte word. */
  function Span(n: nat): (r: nat)
    ensures r >= 1
  {
    if n == 0 then 1 else 256 * Span(n - 1)
  }

  /** The value of a big-endian word. */
  function FromBE(s: seq<Byte>): (v: nat)
  {
    if s == [] then 0 else 256 * FromBE(s[..|s| - 1]) + s[|s| - 1]
  }

  /** The n-byte big-endian word of v. */
  function ToBE(v: nat, n: nat): (s: seq<Byte>)
    ensures |s| == n
    decreases n
  {
    if n == 0 then [] else ToBE(v / 256, n - 1) + [v % 256]
  }

  lemma {:induction false} FromBEBound(s: seq<Byte>)
    ensures FromBE(s) < Span(|s|)
    decreases |s|
  {
    if s != [] {
      FromBEBound(s[..|s| - 1]);
    }
  }

  /** Writing a word and reading it back. */
  lemma {:induction false} ReadBack(v: nat, n: nat)
    requires v < Span(n)
    ensures FromBE(ToBE(v, n)) == v
    decreases n
  {
    if n > 0 {
      var s := ToBE(v, n);
      ReadBack(v / 256, n - 1);
      assert s[..n - 1] == ToBE(v / 256, n - 1);
    }
  }

  /** Reading a word and writing it back. */
  lemma {:induction false} WriteBack(s: seq<Byte>)
    ensures ToBE(FromBE(s), |s|) == s
    decreases |s|
  {
    if s != [] {
      var n := |s| - 1;
      WriteBack(s[..n]);
      assert FromBE(s) / 256 == FromBE(s[..n]) && FromBE(s) % 256 == s[n];
      assert s == s[..n] + [s[n]];
    }
  }

  /** load_be: one shift and or per byte. */
  method LoadBe(p: seq<Byte>) returns (v: nat)
    ensures v == FromBE(p)
  {
    v := 0;
    for i := 0 to |p|
      invariant v == FromBE(p[..i])
    {
      v := 256 * v + p[i];
      assert p[..i + 1][..i] == p[..i];
    }
    assert p[..|p|] == p;
  }

  lemma {:induction false} DigitOfQuotient(v: nat, i: nat)
    ensures v / 256 / Span(i) == v / Span(i + 1)
  {
    var a, b := 256, Span(i);
    var q := v / a / b;
    var r := v / a % b;
    assert v / a == b * q + r;
    assert v == a * (v / a) + v % a;
    assert v == (a * b) * q + (a * r + v % a);
    assert a * r + v % a < a * b;
    QuotientUnique(v, a * b, q, a * r + v % a);
  }

  lemma QuotientUnique(v: nat, d: nat, q: nat, r: nat)
    requires d > 0 && v == d * q + r && r < d
    ensures v / d == q && v % d == r
  {
    var k := v / d - q;
    assert d * k == r - v % d;
    MultipleBounds(d, k);
  }

  /** The i-th lowest byte of v is where ToBE puts it. */
  lemma {:induction false} DigitOfToBE(v: nat, n: nat, i: nat)
    requires i < n
    ensures ToBE(v, n)[n - 1 - i] == (v / Span(i)) % 256
    decreases n
  {
    if i > 0 {
      DigitOfToBE(v / 256, n - 1, i - 1);
      DigitOfQuotient(v, i - 1);
    }
  }

  /** store_be: bytes from the highest to the lowest, each shifted down and masked. */
  method StoreBe(v: nat, n: nat) returns (out: seq<Byte>)
    ensures out == ToBE(v, n)
  {
    out := [];
    var i := n;
    while i > 0
      invariant 0 <= i <= n && |out| == n - i
      invariant out == ToBE(v, n)[..n - i]
    {
      DigitOfToBE(v, n, i - 1);
      out := out + [(v / Span(i - 1)) % 256];
      i := i - 1;
    }
  }
}
