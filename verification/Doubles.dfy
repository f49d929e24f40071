/** The integer expressions `int(float64(x) * c)` of the risk engine and of the AI blend, in IEEE 754
    binary64 arithmetic: the decimal constant is the nearest double, the product is rounded to 53
    significant bits (ties to even), and the conversion to int drops the fraction. */
module Doubles {
  const TWO_53 := 0x20_0000_0000_0000

  /** A double constant below one: mantissa / scale, the mantissa having 53 significant bits. */
  datatype Factor = Factor(mantissa: nat, scale: nat) {
    predicate Valid() {
      TWO_53 / 2 <= mantissa < TWO_53 && (scale == TWO_53 || scale == 2 * TWO_53)
    }
  }

  /** The doubles nearest to 0.6, 0.7 and 0.3. */
  const SIX_TENTHS := Factor(5404319552844595, TWO_53)
  const SEVEN_TENTHS := Factor(6305039478318694, TWO_53)
  const THREE_TENTHS := Factor(5404319552844595, 2 * TWO_53)

  /** The spacing of the 53-bit significands around p. */
  function Spacing(p: nat): (u: nat)
    ensures u >= 1
  {
    if p < TWO_53 then 1
    else if p < 2 * TWO_53 then 2
    else if p < 4 * TWO_53 then 4
    else if p < 8 * TWO_53 then 8
    else if p < 16 * TWO_53 then 16
    else if p < 32 * TWO_53 then 32
    else if p < 64 * TWO_53 then 64
    else 128
  }

  /** p rounded to a multiple of u, ties to the even multiple. */
  function RoundTo(p: nat, u: nat): nat
    requires u >= 1
  {
    var q, rest := p / u, p % u;
    if 2 * rest < u || (2 * rest == u && q % 2 == 0) then q * u else (q + 1) * u
  }

  /** int(float64(x) * c) for a small non-negative x, whose conversion to double is exact. */
  function TruncatedProduct(x: nat, c: Factor): nat
    requires c.Valid() && x <= 127
  {
    var p := x * c.mantissa;
    RoundTo(p, Spacing(p)) / c.scale
  }

  lemma {:induction false} MultiplesAreFar(d: int, u: nat)
    requires u >= 1
    ensures d >= 1 ==> d * u >= u
    ensures d <= -1 ==> d * u <= 0 - u
  {
  }

  lemma {:induction false} DivisionIs(p: nat, u: nat, q: int, rest: int)
    requires 0 <= rest < u && p == q * u + rest
    ensures p / u == q && p % u == rest
  {
    var a, r := p / u, p % u;
    assert p == a * u + r && 0 <= r < u;
    assert (a - q) * u == a * u - q * u == rest - r;
    MultiplesAreFar(a - q, u);
  }

  /** The value rounded to is the multiple k of the spacing that lies less than half a spacing away, or
      half a spacing above when k is even. */
  lemma {:induction false} RoundsToMultiple(p: nat, u: nat, k: nat, away: int)
    requires u >= 1 && k * u == p + away
    requires 0 - u < 2 * away < u || (2 * away == u && k % 2 == 0)
    ensures RoundTo(p, u) == k * u
  {
    if away > 0 {
      assert p == (k - 1) * u + (u - away);
      DivisionIs(p, u, k - 1, u - away);
    } else {
      DivisionIs(p, u, k, -away);
    }
  }

  /** Rounding moves a value by at most half a spacing. */
  lemma {:induction false} RoundsNearby(p: nat, u: nat)
    requires u >= 1
    ensures 2 * RoundTo(p, u) <= 2 * p + u && 2 * p <= 2 * RoundTo(p, u) + u
  {
  }

  lemma {:induction false} Regroup(q: nat, half: nat, u: nat)
    ensures 2 * (q * half) * u == q * (u * (2 * half))
  {
  }

  /** A product within half a spacing of a whole number q rounds to q. */
  lemma {:induction false} RoundsToWhole(p: nat, q: nat, away: nat)
    requires q * TWO_53 == p + away && 2 * away <= Spacing(p)
    ensures RoundTo(p, Spacing(p)) == q * TWO_53
  {
    var u := Spacing(p);
    var half := TWO_53 / u / 2;
    hide RoundTo;
    assert u * (2 * half) == TWO_53;
    hide Spacing;
    Regroup(q, half, u);
    RoundsToMultiple(p, u, 2 * (q * half), away);
  }

  /** Where the rounded product of x by six tenths lies, in units of 2^-53. */
  lemma {:induction false} SixTenthsBracket(x: nat)
    requires x <= 100
    ensures var p := x * SIX_TENTHS.mantissa;
            3 * x / 5 * TWO_53 <= RoundTo(p, Spacing(p)) < (3 * x / 5 + 1) * TWO_53
  {
    var p := x * SIX_TENTHS.mantissa;
    if 3 * x % 5 == 0 {
      RoundsToWhole(p, 3 * x / 5, x / 5);
    } else {
      RoundsNearby(p, Spacing(p));
    }
  }

  /** The decay of the risk engine, int(float64(x) * 0.6), is the exact integer quotient. */
  lemma {:induction false} SixTenthsIsExact(x: nat)
    requires x <= 100
    ensures TruncatedProduct(x, SIX_TENTHS) == 3 * x / 5
  {
    SixTenthsBracket(x);
  }

  /** The AI share of the blend, int(float64(score) * 0.3), is exact too. */
  lemma {:induction false} ThreeTenthsIsExact(x: nat)
    requires x <= 100
    ensures TruncatedProduct(x, THREE_TENTHS) == 3 * x / 10
  {
    SixTenthsBracket(x);
    var p := x * THREE_TENTHS.mantissa;
    var q := 3 * x / 5;
    assert q / 2 == 3 * x / 10;
    var r := RoundTo(p, Spacing(p));
    assert q * TWO_53 <= r < (q + 1) * TWO_53;
  }

  /** Where the rounded product of x by seven tenths lies. */
  lemma {:induction false} SevenTenthsBracket(x: nat)
    requires x <= 100 && x != 90
    ensures var p := x * SEVEN_TENTHS.mantissa;
            7 * x / 10 * TWO_53 <= RoundTo(p, Spacing(p)) < (7 * x / 10 + 1) * TWO_53
  {
    var p := x * SEVEN_TENTHS.mantissa;
    if 7 * x % 10 == 0 {
      RoundsToWhole(p, 7 * x / 10, 4 * (x / 10));
    } else {
      RoundsNearby(p, Spacing(p));
    }
  }

  /** The base share of the blend, int(float64(score) * 0.7), is exact at every score but 90, where the
      product rounds to the double below 63. */
  lemma {:induction false} SevenTenthsIsShortOnlyAt90(x: nat)
    requires x <= 100
    ensures TruncatedProduct(x, SEVEN_TENTHS) == if x == 90 then 62 else 7 * x / 10
  {
    if x == 90 {
      RoundsToMultiple(90 * SEVEN_TENTHS.mantissa, 64, 63 * (TWO_53 / 64) - 1, -28);
    } else {
      SevenTenthsBracket(x);
    }
  }
}
