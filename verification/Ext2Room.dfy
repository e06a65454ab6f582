/**
 * How many items the allocators of fs/ext2/alloc.c can still hand out.
 *
 * A group offers its clear items as long as its counter is not zero, so it offers the
 * smaller of the two numbers. The counter is what the drift between counter and bitmap
 * says, which no operation changes, so the number on offer is a function of the set in use.
 */
module Ext2Room {
  import opened Arith

  /** How many of the numbers base to base + n - 1 are not in use. */
  ghost function ClearIn(used: iset<nat>, base: nat, n: nat): (c: nat)
    ensures c <= n
  {
    if n == 0 then 0 else ClearIn(used, base, n - 1) + if base + n - 1 in used then 0 else 1
  }

  lemma {:induction false} ClearNone(used: iset<nat>, base: nat, n: nat)
    ensures ClearIn(used, base, n) == 0 <==> forall x: nat :: base <= x < base + n ==> x in used
  {
    if n > 0 {
      ClearNone(used, base, n - 1);
    }
  }

  /** The group counter that goes with a drift. */
  ghost function Counter(used: iset<nat>, drift: int, base: nat, per: nat): nat {
    (drift + ClearIn(used, base, per)) % 0x1_0000
  }

  function Min(a: nat, b: nat): nat { if a < b then a else b }

  /** How many items of group g exist: the last group may be cut short by the limit. */
  function Existing(g: nat, per: nat, limit: nat): nat {
    if g * per >= limit then 0 else Min(per, limit - g * per)
  }

  /** What the group of per items from base on, of which m exist, has on offer. */
  ghost function OfferAt(used: iset<nat>, drift: int, base: nat, per: nat, m: nat): nat {
    Min(Counter(used, drift, base, per), ClearIn(used, base, m))
  }

  ghost function Offer(used: iset<nat>, drift: int, first: nat, per: nat, limit: nat, g: nat): nat {
    OfferAt(used, drift, first + g * per, per, Existing(g, per, limit))
  }

  /** What the groups from g on have on offer together. */
  ghost function Left(used: iset<nat>, drifts: seq<int>, first: nat, per: nat, limit: nat, g: nat): nat
    decreases |drifts| - g
  {
    if g >= |drifts| then 0
    else Offer(used, drifts[g], first, per, limit, g) + Left(used, drifts, first, per, limit, g + 1)
  }

  lemma {:induction false} ClearInFrame(used: iset<nat>, x: nat, base: nat, n: nat)
    ensures ClearIn(used + iset{x}, base, n) == ClearIn(used, base, n) - if base <= x < base + n && x !in used then 1
            else 0
  {
    if n > 0 {
      ClearInFrame(used, x, base, n - 1);
    }
  }

  /** Taking an item the group offers lowers its offer by one. */
  lemma OfferOwn(used: iset<nat>, drift: int, base: nat, per: nat, m: nat, x: nat)
    requires base <= x < base + m && m <= per && x !in used && Counter(used, drift, base, per) > 0
    ensures OfferAt(used, drift, base, per, m) > 0
    ensures OfferAt(used + iset{x}, drift, base, per, m) == OfferAt(used, drift, base, per, m) - 1
  {
    hide ClearIn;
    ClearInFrame(used, x, base, per);
    ClearInFrame(used, x, base, m);
    CountDown(drift + ClearIn(used, base, per));
  }

  lemma CountDown(t: int)
    requires t % 0x1_0000 > 0
    ensures (t - 1) % 0x1_0000 == t % 0x1_0000 - 1
  {
  }

  lemma OfferOther(used: iset<nat>, drift: int, base: nat, per: nat, m: nat, x: nat)
    requires !(base <= x < base + per) && m <= per
    ensures OfferAt(used + iset{x}, drift, base, per, m) == OfferAt(used, drift, base, per, m)
  {
    hide ClearIn;
    ClearInFrame(used, x, base, per);
    ClearInFrame(used, x, base, m);
  }

  /** Taking item i of group h, on offer there, lowers what that group offers by one and no other. */
  lemma OfferTaken(used: iset<nat>, drift: int, first: nat, per: nat, limit: nat, g: nat, h: nat, i: nat)
    requires i < per && h * per + i < limit && first + h * per + i !in used
    requires g == h ==> Counter(used, drift, first + h * per, per) > 0
    ensures Offer(used + iset{first + h * per + i}, drift, first, per, limit, g) ==
            Offer(used, drift, first, per, limit, g) - if g == h then 1 else 0
    ensures g == h ==> Offer(used, drift, first, per, limit, g) > 0
  {
    hide OfferAt, Counter;
    var x, base, m := first + h * per + i, first + g * per, Existing(g, per, limit);
    if g == h {
      OfferOwn(used, drift, base, per, m, x);
    } else {
      if g < h { LaterGroup(g, h, per); } else { LaterGroup(h, g, per); }
      OfferOther(used, drift, base, per, m, x);
    }
  }

  lemma {:induction false} LeftTaken(used: iset<nat>, drifts: seq<int>, first: nat, per: nat, limit: nat, g: nat,
      h: nat, i: nat)
    requires h < |drifts| && i < per && h * per + i < limit && first + h * per + i !in used
    requires Counter(used, drifts[h], first + h * per, per) > 0
    ensures Left(used + iset{first + h * per + i}, drifts, first, per, limit, g) ==
              Left(used, drifts, first, per, limit, g) - if g <= h then 1 else 0
    ensures g <= h ==> Left(used, drifts, first, per, limit, g) > 0
    decreases |drifts| - g
  {
    hide Offer, Counter;
    if g < |drifts| {
      LeftTaken(used, drifts, first, per, limit, g + 1, h, i);
      OfferTaken(used, drifts[g], first, per, limit, g, h, i);
    }
  }

  /** Nothing is on offer exactly if no group is. */
  lemma {:induction false} LeftNone(used: iset<nat>, drifts: seq<int>, first: nat, per: nat, limit: nat, g: nat)
    ensures Left(used, drifts, first, per, limit, g) == 0 <==>
            forall h: nat :: g <= h < |drifts| ==> Offer(used, drifts[h], first, per, limit, h) == 0
    decreases |drifts| - g
  {
    hide Offer;
    if g < |drifts| {
      LeftNone(used, drifts, first, per, limit, g + 1);
    }
  }
}
