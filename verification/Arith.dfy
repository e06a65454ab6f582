/** Division, remainder and products with a variable operand. */
module Arith {

  lemma DivMod(x: int, p: int)
    requires p > 0
    ensures x == (x / p) * p + x % p && 0 <= x % p < p
  {
  }

  lemma Distr(a: int, b: int, c: int)
    ensures (a + b) * c == a * c + b * c
  {
  }

  lemma AtLeast(d: int, p: int)
    requires d >= 1 && p >= 0
    ensures d * p >= p
  {
  }

  lemma EuclidLess(p: int, q: int, r: int, g: int, i: int)
    requires 0 <= r < p && 0 <= i < p && q * p + r == g * p + i
    ensures q >= g
  {
    if q < g {
      Distr(q, g - q, p);
      AtLeast(g - q, p);
    }
  }

  lemma EuclidUnique(p: int, q: int, r: int, g: int, i: int)
    requires 0 <= r < p && 0 <= i < p && q * p + r == g * p + i
    ensures q == g && r == i
  {
    EuclidLess(p, q, r, g, i);
    EuclidLess(p, g, i, q, r);
  }

  lemma Addressing(per: nat, x: nat, g: nat, i: nat)
    requires i < per
    ensures x == g * per + i <==> x / per == g && x % per == i
  {
    DivMod(x, per);
    if x == g * per + i {
      EuclidUnique(per, x / per, x % per, g, i);
    }
  }

  lemma ModUnique(a: int, q: int, r: int, w: int)
    requires w > 0 && a == q * w + r && 0 <= r < w
    ensures a % w == r && a / w == q
  {
    DivMod(a, w);
    EuclidUnique(w, a / w, a % w, q, r);
  }

  /** Adding a multiple of the modulus. */
  lemma ModMultiple(a: int, q: int, w: int)
    requires w > 0
    ensures (a - q * w) % w == a % w
  {
    DivMod(a, w);
    Distr(a / w, -q, w);
    ModUnique(a - q * w, a / w - q, a % w, w);
  }

  lemma ModShift(a: int, b: int, d: int, w: int)
    requires w > 0
    ensures ((a + d) % w - (b + d)) % w == (a - b) % w
  {
    DivMod(a + d, w);
    ModMultiple(a - b, (a + d) / w, w);
  }

  lemma LaterGroup(g: nat, h: nat, per: nat)
    requires g < h
    ensures h * per >= g * per + per
  {
    Distr(g, h - g, per);
    AtLeast(h - g, per);
  }

  lemma DivBelow(x: nat, per: nat, groups: nat)
    requires per > 0 && x < groups * per
    ensures x / per < groups
  {
    DivMod(x, per);
    if x / per >= groups {
      Distr(groups, x / per - groups, per);
      assert false;
    }
  }
}
