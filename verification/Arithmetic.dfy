/**
 Products, quotients, powers and sums, as the variable-difficulty checks need them. `Times` and `Quot`
 are the usual product and floor quotient (`TimesIsProduct`, `QuotIsQuotient`); they are defined by
 recursion so that the solver meets no non-linear term outside this file.
 */
module Arithmetic {

  /** The largest value of the 256-bit integers that carry difficulties. */
  const U256_MAX: nat := 0xFFFF_FFFF_FFFF_FFFF_FFFF_FFFF_FFFF_FFFF_FFFF_FFFF_FFFF_FFFF_FFFF_FFFF_FFFF_FFFF

  function Min(a: nat, b: nat): nat {
    if a <= b then a else b
  }

  function Max(a: nat, b: nat): nat {
    if a <= b then b else a
  }

  function Times(a: nat, b: nat): nat {
    if a == 0 then 0 else b + Times(a - 1, b)
  }

  function Quot(a: nat, b: nat): nat
    requires b > 0
    decreases a
  {
    if a < b then 0 else 1 + Quot(a - b, b)
  }

  function Pow(b: nat, e: nat): nat {
    if e == 0 then 1 else Times(b, Pow(b, e - 1))
  }

  lemma {:induction false} TimesIsProduct(a: nat, b: nat)
    ensures Times(a, b) == a * b
  {
    if a > 0 {
      TimesIsProduct(a - 1, b);
      assert (a - 1) * b + b == a * b;
    }
  }

  lemma {:induction false} TimesAdds(a: nat, b: nat, c: nat)
    ensures Times(a + b, c) == Times(a, c) + Times(b, c)
  {
    if a > 0 {
      TimesAdds(a - 1, b, c);
    }
  }

  lemma {:induction false} TimesZero(a: nat)
    ensures Times(a, 0) == 0
    ensures Times(1, a) == a
  {
    if a > 0 {
      TimesZero(a - 1);
    }
  }

  lemma {:induction false} TimesSucc(a: nat, b: nat)
    ensures Times(a, b + 1) == Times(a, b) + a
  {
    if a > 0 {
      TimesSucc(a - 1, b);
    }
  }

  lemma {:induction false} TimesCommutes(a: nat, b: nat)
    ensures Times(a, b) == Times(b, a)
  {
    if a == 0 {
      TimesZero(b);
    } else {
      TimesCommutes(a - 1, b);
      TimesSucc(b, a - 1);
    }
  }

  lemma TimesOne(a: nat)
    ensures Times(a, 1) == a == Times(1, a)
  {
    TimesCommutes(a, 1);
    TimesZero(a);
  }

  lemma {:induction false} TimesAssociates(a: nat, b: nat, c: nat)
    ensures Times(Times(a, b), c) == Times(a, Times(b, c))
  {
    if a > 0 {
      TimesAssociates(a - 1, b, c);
      TimesAdds(b, Times(a - 1, b), c);
    }
  }

  lemma TimesMonotone(a: nat, b: nat, c: nat)
    requires a <= b
    ensures Times(a, c) <= Times(b, c)
    ensures Times(c, a) <= Times(c, b)
  {
    TimesAdds(a, b - a, c);
    TimesCommutes(a, c);
    TimesCommutes(b, c);
  }

  lemma TimesStrict(a: nat, b: nat, c: nat)
    requires a < b && c > 0
    ensures Times(a, c) < Times(b, c)
    ensures Times(c, a) < Times(c, b)
  {
    TimesAdds(a, b - a, c);
    TimesCommutes(a, c);
    TimesCommutes(b, c);
  }

  lemma TimesCancel(a: nat, b: nat, c: nat)
    requires c > 0 && Times(a, c) <= Times(b, c)
    ensures a <= b
  {
    if a > b {
      TimesStrict(b, a, c);
    }
  }

  /** Floor division is the upper adjoint of multiplication. */
  lemma {:induction false} FloorAdjoint(q: nat, a: nat, b: nat)
    requires b > 0
    ensures Times(q, b) <= a <==> q <= Quot(a, b)
    decreases a
  {
    if a >= b && q > 0 {
      FloorAdjoint(q - 1, a - b, b);
    }
  }

  lemma QuotIsQuotient(a: nat, b: nat)
    requires b > 0
    ensures Quot(a, b) == a / b
  {
    var q, r := Quot(a, b), a / b;
    assert r * b + a % b == a;
    TimesIsProduct(r, b);
    FloorAdjoint(r, a, b);
    FloorAdjoint(r + 1, a, b);
  }

  /** Ceiling division is the lower adjoint of multiplication. */
  function CeilQuot(a: nat, b: nat): nat
    requires b > 0
  {
    Quot(a + b - 1, b)
  }

  lemma CeilAdjoint(q: nat, a: nat, b: nat)
    requires b > 0
    ensures a <= Times(q, b) <==> CeilQuot(a, b) <= q
  {
    FloorAdjoint(q + 1, a + b - 1, b);
  }

  lemma FloorAntitone(a: nat, b: nat, c: nat)
    requires 0 < b <= c
    ensures Quot(a, c) <= Quot(a, b)
  {
    FloorAdjoint(Quot(a, c), a, c);
    TimesMonotone(b, c, Quot(a, c));
    FloorAdjoint(Quot(a, c), a, b);
  }

  lemma QuotOne(a: nat)
    ensures Quot(a, 1) == a
  {
    FloorAdjoint(a, a, 1);
    FloorAdjoint(a + 1, a, 1);
    TimesOne(a);
    TimesOne(a + 1);
  }

  lemma ExactQuotient(x: nat, p: nat)
    requires p > 0
    ensures Quot(Times(x, p), p) == x
  {
    FloorAdjoint(x, Times(x, p), p);
    FloorAdjoint(x + 1, Times(x, p), p);
  }

  lemma FloorOfFloorAdjoint(q: nat, a: nat, b: nat, c: nat)
    requires b > 0 && c > 0
    ensures Times(b, c) > 0
    ensures q <= Quot(Quot(a, b), c) <==> q <= Quot(a, Times(b, c))
  {
    TimesStrict(0, b, c);
    FloorAdjoint(q, Quot(a, b), c);
    FloorAdjoint(Times(q, c), a, b);
    FloorAdjoint(q, a, Times(b, c));
    TimesAssociates(q, c, b);
    TimesCommutes(b, c);
  }

  lemma FloorOfFloor(a: nat, b: nat, c: nat)
    requires b > 0 && c > 0
    ensures Times(b, c) > 0
    ensures Quot(Quot(a, b), c) == Quot(a, Times(b, c))
  {
    FloorOfFloorAdjoint(0, a, b, c);
    FloorOfFloorAdjoint(Quot(Quot(a, b), c), a, b, c);
    FloorOfFloorAdjoint(Quot(a, Times(b, c)), a, b, c);
  }

  lemma {:induction false} PowPositive(b: nat, e: nat)
    requires b > 0
    ensures Pow(b, e) > 0
  {
    if e > 0 {
      PowPositive(b, e - 1);
    }
  }

  lemma {:induction false} PowAdd(b: nat, x: nat, y: nat)
    ensures Pow(b, x + y) == Times(Pow(b, x), Pow(b, y))
  {
    if x == 0 {
      TimesOne(Pow(b, y));
    } else {
      PowAdd(b, x - 1, y);
      TimesAssociates(b, Pow(b, x - 1), Pow(b, y));
    }
  }

  lemma PowMonotone(b: nat, x: nat, y: nat)
    requires b > 0 && x <= y
    ensures Pow(b, x) <= Pow(b, y)
  {
    PowAdd(b, x, y - x);
    PowPositive(b, y - x);
    TimesMonotone(1, Pow(b, y - x), Pow(b, x));
    TimesOne(Pow(b, x));
  }

  lemma PowStrict(b: nat, x: nat, y: nat)
    requires b >= 2 && x < y
    ensures Pow(b, x) < Pow(b, y)
  {
    PowMonotone(b, x, y - 1);
    PowPositive(b, y - 1);
    TimesMonotone(2, b, Pow(b, y - 1));
  }

  lemma TimesPowZero(a: nat, b: nat)
    ensures Pow(b, 0) == 1 && Times(a, Pow(b, 0)) == a && Times(0, b) == 0
  {
    TimesOne(a);
  }

  lemma TimesNext(q: nat, b: nat)
    ensures Times(q + 1, b) == Times(q, b) + b
  {
  }

  /** Powers of one base that follow each other add up. */
  lemma TimesPow(a: nat, b: nat, x: nat, y: nat)
    ensures Times(Times(a, Pow(b, x)), Pow(b, y)) == Times(a, Pow(b, x + y))
  {
    TimesAssociates(a, Pow(b, x), Pow(b, y));
    PowAdd(b, x, y);
  }

  /** One more factor of the base outside the power. */
  lemma PowStep(a: nat, b: nat, e: nat)
    ensures Times(a, Pow(b, e + 1)) == Times(Times(a, Pow(b, e)), b)
  {
    TimesCommutes(b, Pow(b, e));
    TimesAssociates(a, Pow(b, e), b);
  }

  lemma BaseStep(a: nat, b: nat, e: nat)
    ensures Times(a, Pow(b, e + 1)) == Times(Times(a, b), Pow(b, e))
  {
    TimesAssociates(a, b, Pow(b, e));
  }

  /** One more division by the base deepens the power in the denominator. */
  lemma FloorPowStep(a: nat, b: nat, e: nat)
    requires b > 0
    ensures Pow(b, e) > 0 && Pow(b, e + 1) > 0
    ensures Quot(Quot(a, Pow(b, e)), b) == Quot(a, Pow(b, e + 1))
  {
    PowPositive(b, e);
    PowPositive(b, e + 1);
    FloorOfFloor(a, Pow(b, e), b);
    TimesCommutes(b, Pow(b, e));
  }

  function Sum(s: seq<nat>): nat {
    if s == [] then 0 else Sum(s[..|s| - 1]) + s[|s| - 1]
  }

  lemma {:induction false} SumMonotone(s: seq<nat>, t: seq<nat>)
    requires |s| == |t|
    requires forall i :: 0 <= i < |s| ==> s[i] <= t[i]
    ensures Sum(s) <= Sum(t)
  {
    if s != [] {
      SumMonotone(s[..|s| - 1], t[..|t| - 1]);
    }
  }

  lemma {:induction false} SumStrict(s: seq<nat>, t: seq<nat>, j: nat)
    requires |s| == |t| && j < |s|
    requires forall i :: 0 <= i < |s| ==> s[i] <= t[i]
    requires s[j] < t[j]
    ensures Sum(s) < Sum(t)
  {
    if j == |s| - 1 {
      SumMonotone(s[..j], t[..j]);
    } else {
      SumStrict(s[..|s| - 1], t[..|t| - 1], j);
    }
  }

  lemma {:induction false} SumPrefix(s: seq<nat>, i: nat)
    requires i <= |s|
    ensures Sum(s[..i]) <= Sum(s)
  {
    if i < |s| {
      SumPrefix(s[..|s| - 1], i);
      assert s[..|s| - 1][..i] == s[..i];
    } else {
      assert s[..i] == s;
    }
  }

  lemma SumStep(s: seq<nat>, i: nat)
    requires i < |s|
    ensures Sum(s[..i + 1]) == Sum(s[..i]) + s[i]
  {
    assert s[..i + 1][..i] == s[..i];
  }

  lemma {:induction false} SumConcat(s: seq<nat>, t: seq<nat>)
    ensures Sum(s + t) == Sum(s) + Sum(t)
  {
    if t == [] {
      assert s + t == s;
    } else {
      SumConcat(s, t[..|t| - 1]);
      assert (s + t)[..|s + t| - 1] == s + t[..|t| - 1];
    }
  }
}
