/** Byte strings, their lexicographic order, and fixed-width integers. */
module Bytes {
  type Byte = b: int | 0 <= b < 256

  type Bytes = seq<Byte>

  /** The order in which the database iterates. */
  predicate Less(a: Bytes, b: Bytes) {
    if b == [] then false
    else if a == [] then true
    else if a[0] != b[0] then a[0] < b[0]
    else Less(a[1..], b[1..])
  }

  predicate AtMost(a: Bytes, b: Bytes) {
    a == b || Less(a, b)
  }

  lemma {:induction false} LessIrreflexive(a: Bytes)
    ensures !Less(a, a)
  {
    if a != [] {
      LessIrreflexive(a[1..]);
    }
  }

  lemma {:induction false} LessTotal(a: Bytes, b: Bytes)
    ensures a == b || Less(a, b) || Less(b, a)
  {
    if a != [] && b != [] && a[0] == b[0] {
      LessTotal(a[1..], b[1..]);
      if a[1..] == b[1..] {
        assert a == [a[0]] + a[1..] == [b[0]] + b[1..] == b;
      }
    }
  }

  lemma {:induction false} LessTransitive(a: Bytes, b: Bytes, c: Bytes)
    requires Less(a, b) && Less(b, c)
    ensures Less(a, c)
  {
    if a != [] && a[0] == b[0] == c[0] {
      LessTransitive(a[1..], b[1..], c[1..]);
    }
  }

  lemma LessAsymmetric(a: Bytes, b: Bytes)
    requires Less(a, b)
    ensures a != b && !Less(b, a)
  {
    LessIrreflexive(a);
    if Less(b, a) {
      LessTransitive(a, b, a);
    }
  }

  /** A common prefix does not influence the order. */
  lemma {:induction false} LessAfterPrefix(p: Bytes, a: Bytes, b: Bytes)
    ensures Less(p + a, p + b) <==> Less(a, b)
  {
    if p == [] {
      assert p + a == a && p + b == b;
    } else {
      LessAfterPrefix(p[1..], a, b);
      assert (p + a)[1..] == p[1..] + a && (p + b)[1..] == p[1..] + b;
    }
  }

  /** Fields of equal width are compared one after the other. */
  lemma {:induction false} LessByFields(a: Bytes, x: Bytes, b: Bytes, y: Bytes)
    requires |a| == |b|
    ensures Less(a + x, b + y) <==> Less(a, b) || (a == b && Less(x, y))
  {
    if a == [] {
      assert a + x == x && b + y == y;
    } else {
      LessByFields(a[1..], x, b[1..], y);
      assert (a + x)[1..] == a[1..] + x && (b + y)[1..] == b[1..] + y;
      if a[1..] == b[1..] && a[0] == b[0] {
        assert a == [a[0]] + a[1..] == b;
      }
    }
  }

  /** A string that starts with `p` lies below another one that does not, unless it lies above all with `p`. */
  lemma {:induction false} PrefixInterval(p: Bytes, lo: Bytes, k: Bytes, hi: Bytes)
    requires p <= lo && p <= hi && AtMost(lo, k) && AtMost(k, hi)
    ensures p <= k
  {
    if p != [] {
      assert lo[0] == p[0] == hi[0];
      assert k != [];
      assert k[0] == p[0];
      assert p[1..] <= lo[1..] && p[1..] <= hi[1..];
      PrefixInterval(p[1..], lo[1..], k[1..], hi[1..]);
      assert p == [p[0]] + p[1..] && k == [k[0]] + k[1..];
    }
  }

  // Fixed-width integers

  function Capacity(width: nat): nat {
    if width == 0 then 1 else 256 * Capacity(width - 1)
  }

  /** Big endian. */
  function Big(n: nat, width: nat): (s: Bytes)
    ensures |s| == width
  {
    if width == 0 then [] else Big(n / 256, width - 1) + [n % 256]
  }

  function FromBig(s: Bytes): nat {
    if s == [] then 0 else FromBig(s[..|s| - 1]) * 256 + s[|s| - 1]
  }

  /** Little endian. */
  function Little(n: nat, width: nat): (s: Bytes)
    ensures |s| == width
  {
    if width == 0 then [] else [n % 256] + Little(n / 256, width - 1)
  }

  function FromLittle(s: Bytes): nat {
    if s == [] then 0 else s[0] + 256 * FromLittle(s[1..])
  }

  lemma {:induction false} BigRoundTrip(n: nat, width: nat)
    requires n < Capacity(width)
    ensures FromBig(Big(n, width)) == n
  {
    if width > 0 {
      BigRoundTrip(n / 256, width - 1);
      assert Big(n, width)[..width - 1] == Big(n / 256, width - 1);
    }
  }

  lemma {:induction false} LittleRoundTrip(n: nat, width: nat)
    requires n < Capacity(width)
    ensures FromLittle(Little(n, width)) == n
  {
    if width > 0 {
      LittleRoundTrip(n / 256, width - 1);
      assert Little(n, width)[1..] == Little(n / 256, width - 1);
    }
  }

  lemma BigInjective(m: nat, n: nat, width: nat)
    requires m < Capacity(width) && n < Capacity(width)
    requires Big(m, width) == Big(n, width)
    ensures m == n
  {
    BigRoundTrip(m, width);
    BigRoundTrip(n, width);
  }

  /** Big-endian byte order is numeric order. */
  lemma {:induction false} BigOrder(m: nat, n: nat, width: nat)
    requires m < Capacity(width) && n < Capacity(width)
    ensures Less(Big(m, width), Big(n, width)) <==> m < n
  {
    if width > 0 {
      BigOrder(m / 256, n / 256, width - 1);
      LessByFields(Big(m / 256, width - 1), [m % 256], Big(n / 256, width - 1), [n % 256]);
      if Big(m / 256, width - 1) == Big(n / 256, width - 1) {
        BigInjective(m / 256, n / 256, width - 1);
      }
      LessOneByte(m % 256, n % 256);
    }
  }

  lemma LessOneByte(a: Byte, b: Byte)
    ensures Less([a], [b]) <==> a < b
  {
    assert [a][1..] == [] == [b][1..];
  }

  lemma {:induction false} BigMax(width: nat)
    ensures Capacity(width) > 0
    ensures Big(Capacity(width) - 1, width) == seq(width, _ => 255)
  {
    if width > 0 {
      BigMax(width - 1);
      var c := Capacity(width - 1);
      assert (256 * c - 1) / 256 == c - 1 && (256 * c - 1) % 256 == 255;
      assert seq(width, _ => 255 as Byte) == seq(width - 1, _ => 255 as Byte) + [255];
    }
  }
}
