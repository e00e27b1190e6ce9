/** The speed formula of logic.js (`calcSpeed`): 31 IVs, the speed EV
    clamped to 0..252, and a nature modifier of 1.1, 0.9 or 1. The
    modifiers are the exact reals 11/10 and 9/10; the floating-point
    constants both lie a hair above those values, so the floors agree. */
module Speed {
  import opened Wrappers

  /** NATURE_SPD_MOD: the natures that raise or lower speed. */
  const SpeedNatures: map<string, real> := map[
    "Hasty" := 1.1, "Jolly" := 1.1, "Naive" := 1.1, "Timid" := 1.1,
    "Brave" := 0.9, "Quiet" := 0.9, "Relaxed" := 0.9, "Sassy" := 0.9
  ]

  const MaxEv: int := 252
  const FixedIv: int := 31

  /** `NATURE_SPD_MOD[nature] || 1.0`. */
  function Modifier(nature: string): (m: real)
    ensures m == 1.1 || m == 0.9 || m == 1.0
    ensures nature !in SpeedNatures ==> m == 1.0
    ensures nature in SpeedNatures ==> m == SpeedNatures[nature]
    ensures m == 1.1 <==> nature in {"Hasty", "Jolly", "Naive", "Timid"}
    ensures m == 0.9 <==> nature in {"Brave", "Quiet", "Relaxed", "Sassy"}
  {
    if nature in SpeedNatures then SpeedNatures[nature] else 1.0
  }

  /** `Math.max(0, Math.min(252, ev))`. */
  function ClampEv(ev: int): (c: int)
    ensures 0 <= c <= MaxEv
    ensures 0 <= ev <= MaxEv ==> c == ev
    ensures ev > MaxEv ==> c == MaxEv
    ensures ev < 0 ==> c == 0
  {
    if ev < 0 then 0 else if ev > MaxEv then MaxEv else ev
  }

  /** The speed before the nature modifier. The floor of the real
      quotient is whole-number division (both `Math.floor(ev / 4)` and the
      outer floor round down, as Dafny's `/` does for a positive divisor),
      and it is at least 5 for a non-negative stat and level. */
  function Neutral(base: int, ev: int, level: int): (n: int)
    ensures n == (2 * base + FixedIv + ev / 4) * level / 100 + 5
    ensures 2 * base + FixedIv + ev / 4 >= 0 && level >= 0 ==> n >= 5
  {
    var x := (2 * base + FixedIv + ev / 4) * level;
    FloorOfHundredth(x);
    (x as real / 100.0 + 5.0).Floor
  }

  /** The floor of `x / 100 + 5` over the reals is integer division. */
  lemma FloorOfHundredth(x: int)
    ensures (x as real / 100.0 + 5.0).Floor == x / 100 + 5
  {
    var q, r := x / 100, x % 100;
    assert x == 100 * q + r && 0 <= r < 100;
    assert x as real / 100.0 + 5.0 == (q + 5) as real + r as real / 100.0;
  }

  /** `calcSpeed(species, nature, spdEV, level)`: `None` exactly when the
      species has no base speed; a nature outside NATURE_SPD_MOD leaves the
      neutral value untouched, a raising nature adds a tenth rounded down
      and a lowering nature takes away a tenth rounded up. */
  function CalcSpeed(baseSpeeds: map<string, nat>, species: string, nature: string, spdEV: int, level: int): (r: Option<int>)
    ensures r.None? <==> species !in baseSpeeds
    ensures r.Some? && nature !in SpeedNatures ==>
      r.value == Neutral(baseSpeeds[species], ClampEv(spdEV), level)
    ensures r.Some? && level >= 0 && Modifier(nature) == 1.1 ==>
      r.value >= Neutral(baseSpeeds[species], ClampEv(spdEV), level)
    ensures r.Some? && level >= 0 && Modifier(nature) == 0.9 ==>
      r.value <= Neutral(baseSpeeds[species], ClampEv(spdEV), level)
    // the exact value for the natures that change speed: a tenth, rounded
    // down, is added; or a tenth, rounded up, is taken away
    ensures r.Some? && nature in SpeedNatures ==>
      var n := Neutral(baseSpeeds[species], ClampEv(spdEV), level);
      r.value == (if SpeedNatures[nature] == 1.1 then n + n / 10 else n - (n + 9) / 10)
  {
    if species !in baseSpeeds then None
    else
      var n := Neutral(baseSpeeds[species], ClampEv(spdEV), level);
      NeutralPositive(baseSpeeds[species], ClampEv(spdEV), level);
      FloorOfTenths(n);
      Some((n as real * Modifier(nature)).Floor)
  }

  /** Scaling by 1.1 or 0.9 and rounding down, in whole numbers. */
  lemma FloorOfTenths(n: int)
    ensures (n as real * 1.1).Floor == n + n / 10
    ensures (n as real * 0.9).Floor == n - (n + 9) / 10
  {
    var q, r := n / 10, n % 10;
    assert n == 10 * q + r && 0 <= r < 10;
    assert n as real * 1.1 == (11 * q + r) as real + r as real / 10.0;
    if r == 0 {
      assert n as real * 0.9 == (9 * q) as real;
    } else {
      assert (n + 9) / 10 == q + 1;
      assert n as real * 0.9 == (9 * q + r - 1) as real + (10 - r) as real / 10.0;
    }
  }

  lemma NeutralPositive(base: nat, ev: int, level: int)
    requires 0 <= ev
    ensures level >= 0 ==> Neutral(base, ev, level) >= 5
  {
    var x := 2 * base + FixedIv + ev / 4;
    if level >= 0 {
      assert x * level >= 0;
    }
  }

  // ------------------------------------------------------------- clamps

  /** Any EV above 252 gives the result of 252. */
  lemma ClampAbove(baseSpeeds: map<string, nat>, species: string, nature: string, spdEV: int, level: int)
    requires spdEV >= MaxEv
    ensures CalcSpeed(baseSpeeds, species, nature, spdEV, level) == CalcSpeed(baseSpeeds, species, nature, MaxEv, level)
  {
  }

  /** Any negative EV gives the result of 0. */
  lemma ClampBelow(baseSpeeds: map<string, nat>, species: string, nature: string, spdEV: int, level: int)
    requires spdEV <= 0
    ensures CalcSpeed(baseSpeeds, species, nature, spdEV, level) == CalcSpeed(baseSpeeds, species, nature, 0, level)
  {
  }

  // -------------------------------------------------------- monotonicity

  lemma FloorMonotone(x: real, y: real)
    requires x <= y
    ensures x.Floor <= y.Floor
  {
  }

  lemma NeutralMonotone(base: int, e1: int, e2: int, level: int)
    requires 0 <= e1 <= e2 && level >= 0
    ensures Neutral(base, e1, level) <= Neutral(base, e2, level)
  {
    var x1 := 2 * base + FixedIv + e1 / 4;
    var x2 := 2 * base + FixedIv + e2 / 4;
    assert x1 <= x2;
    assert x1 * level <= x2 * level by {
      assert (x2 - x1) * level >= 0;
    }
    FloorMonotone((x1 * level) as real / 100.0 + 5.0, (x2 * level) as real / 100.0 + 5.0);
  }

  /** More speed EVs never give less speed, at a non-negative level. */
  lemma MonotoneInEv(baseSpeeds: map<string, nat>, species: string, nature: string, e1: int, e2: int, level: int)
    requires e1 <= e2 && level >= 0 && species in baseSpeeds
    ensures CalcSpeed(baseSpeeds, species, nature, e1, level).value <= CalcSpeed(baseSpeeds, species, nature, e2, level).value
  {
    var base := baseSpeeds[species];
    var n1 := Neutral(base, ClampEv(e1), level);
    var n2 := Neutral(base, ClampEv(e2), level);
    NeutralMonotone(base, ClampEv(e1), ClampEv(e2), level);
    var m := Modifier(nature);
    assert n1 as real * m <= n2 as real * m;
    FloorMonotone(n1 as real * m, n2 as real * m);
  }

  /** The worked example: base 30, a lowering nature, 252 EVs, level 50. */
  lemma SnorlaxExample()
    ensures CalcSpeed(map["Snorlax" := 30], "Snorlax", "Brave", 252, 50) == Some(73)
  {
  }
}
