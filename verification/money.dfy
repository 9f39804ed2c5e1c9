/** Money and percentages. Amounts are C# `decimal`s, modelled as exact reals;
    `Decimal.Round(x, 2)` is .NET's default midpoint rule, round half to even
    ("banker's rounding"), and `Math.Clamp(v, 0m, 100m)` bounds percentages. */
module Money {
  import opened Sums

  /** True when `x` has at most two decimal places (a whole number of cents). */
  predicate Is2dp(x: real)
  {
    (x * 100.0).Floor as real == x * 100.0
  }

  /** The number of cents in a two-decimal amount. */
  function Cents(x: real): int
  {
    (x * 100.0).Floor
  }

  /** `Decimal.Round(x, 2)`: the two-decimal amount nearest to `x`; a value
      exactly half-way between two cents goes to the even one. */
  function Round2(x: real): (r: real)
    ensures Is2dp(r)
    ensures x - 0.005 <= r <= x + 0.005
    ensures (r == x - 0.005 || r == x + 0.005) ==> Cents(r) % 2 == 0
  {
    var y := x * 100.0;
    var f := y.Floor;
    var frac := y - f as real;
    var n := if frac < 0.5 then f
             else if frac > 0.5 then f + 1
             else if f % 2 == 0 then f else f + 1;
    assert (n as real / 100.0) * 100.0 == n as real;
    n as real / 100.0
  }

  /** The three properties of `Round2`'s contract pin its result down: any
      two-decimal amount within half a cent of `x` that is even on a tie is
      `Round2(x)`. This makes the contract an independent definition of
      round-half-to-even. */
  lemma Round2Unique(x: real, r: real)
    requires Is2dp(r)
    requires x - 0.005 <= r <= x + 0.005
    requires (r == x - 0.005 || r == x + 0.005) ==> Cents(r) % 2 == 0
    ensures r == Round2(x)
  {
    var q := Round2(x);
    var n, m := Cents(r), Cents(q);
    assert r == n as real / 100.0;
    assert q == m as real / 100.0;
    assert n == m;
  }

  /** Rounding leaves an amount that already has two decimals unchanged. */
  lemma Round2Idempotent(x: real)
    requires Is2dp(x)
    ensures Round2(x) == x
  {
    Round2Unique(x, x);
  }

  /** Rounding never reverses the order of two amounts. */
  lemma Round2Monotone(x: real, y: real)
    requires x <= y
    ensures Round2(x) <= Round2(y)
  {
    if x < y {
      var p, q := Round2(x), Round2(y);
      var n, m := Cents(p), Cents(q);
      assert p == n as real / 100.0 && q == m as real / 100.0;
      assert (n - m) as real < 1.0;
    }
  }

  /** Equal amounts round alike. Stated as a lemma so that an equality the
      arithmetic establishes reaches `Round2`'s argument. */
  lemma Round2Congruent(x: real, y: real)
    requires x == y
    ensures Round2(x) == Round2(y)
  {
  }

  /** Negating a two-decimal amount negates its cents. */
  lemma NegateCents(r: real)
    requires Is2dp(r)
    ensures Is2dp(-r) && Cents(-r) == -Cents(r)
  {
    var n := Cents(r);
    assert r * 100.0 == n as real;
    var y := -r * 100.0;
    assert y == (-n) as real;
    FloorOfWhole(-n);
    assert y.Floor == -n;
  }

  /** A whole number is its own floor. */
  lemma FloorOfWhole(n: int)
    ensures (n as real).Floor == n
  {
  }

  /** Rounding commutes with negation: half-to-even is symmetric about zero. */
  lemma Round2Negate(x: real)
    ensures Round2(-x) == -Round2(x)
  {
    var r := Round2(x);
    NegateCents(r);
    NegatedTieIsEven(x, r);
    Round2Unique(-x, -r);
  }

  /** A tie that rounded to an even cent count still does after negation. */
  lemma NegatedTieIsEven(x: real, r: real)
    requires Cents(-r) == -Cents(r)
    requires (r == x - 0.005 || r == x + 0.005) ==> Cents(r) % 2 == 0
    ensures (-r == -x - 0.005 || -r == -x + 0.005) ==> Cents(-r) % 2 == 0
  {
    if -r == -x - 0.005 || -r == -x + 0.005 {
      var n := Cents(r);
      assert n % 2 == 0;
      assert -n == 2 * (-(n / 2));
    }
  }

  /** The sum of two-decimal amounts has two decimals. */
  lemma Sum2dp(a: real, b: real)
    requires Is2dp(a) && Is2dp(b)
    ensures Is2dp(a + b)
  {
    var n, m := Cents(a), Cents(b);
    assert a * 100.0 == n as real && b * 100.0 == m as real;
    var y := (a + b) * 100.0;
    assert y == (n + m) as real;
    FloorOfWhole(n + m);
    assert y.Floor == n + m;
  }

  /** A sum of two-decimal terms has two decimals, so it needs no further
      rounding: a subtotal of already-rounded line costs is exact. */
  lemma {:induction false} SumOfRoundedIs2dp<T>(s: seq<T>, term: T -> real)
    requires forall i :: 0 <= i < |s| ==> Is2dp(term(s[i]))
    ensures Is2dp(Sum(s, term))
  {
    if |s| == 0 {
      assert Sum(s, term) * 100.0 == 0 as real;
    } else {
      SumOfRoundedIs2dp(s[1..], term);
      Sum2dp(term(s[0]), Sum(s[1..], term));
    }
  }

  /** A product of non-negative amounts is non-negative. */
  lemma MulNonNegative(x: real, y: real)
    requires x >= 0.0 && y >= 0.0
    ensures x * y >= 0.0
  {
  }

  /** `Math.Clamp(v, 0m, 100m)`: a percentage bounded to [0, 100]. */
  function ClampPercent(v: real): (r: real)
    ensures 0.0 <= r <= 100.0
    ensures 0.0 <= v <= 100.0 ==> r == v
    ensures v > 100.0 ==> r == 100.0
    ensures v < 0.0 ==> r == 0.0
  {
    if v < 0.0 then 0.0 else if v > 100.0 then 100.0 else v
  }
}
