/** What several modules share: optional values, 32-bit numbers, and picking from a hash map. */
module Basics {
  datatype Option<+T> = None | Some(value: T)

  const TWO_TO_THE_32 := 0x1_0000_0000

  type u32 = x: int | 0 <= x < 0x1_0000_0000

  /** Some element: the order of a hash map's iteration is not specified. */
  method AnyOf<T>(s: set<T>) returns (x: T)
    requires s != {}
    ensures x in s
  {
    x :| x in s;
  }

  /** Counting on after a wrap. */
  lemma NextNumber(n: nat)
    ensures (n % 0x1_0000_0000 + 1) % 0x1_0000_0000 == (n + 1) % 0x1_0000_0000
  {
    var q, k := n / 0x1_0000_0000, n % 0x1_0000_0000;
    assert n + 1 == q * 0x1_0000_0000 + (k + 1);
  }

  /** A quotient and a remainder are those of the division. */
  lemma QuotientIs(v: nat, d: nat, q: nat, r: nat)
    requires v == d * q + r && r < d
    ensures v / d == q
  {
    var e := q - v / d;
    assert v == d * (v / d) + v % d;
    assert d * e == d * q - d * (v / d) == v % d - r;
    TimesAtLeast(d, e);
    TimesAtLeast(d, -e);
  }

  lemma TimesAtLeast(d: nat, e: int)
    ensures e >= 1 ==> d * e >= d
    ensures d * -e == -(d * e)
  {
    if e >= 1 {
      assert d * e == d * (e - 1) + d;
    }
  }
}
