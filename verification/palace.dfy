/** The Palace probability engine of logic.js (`calcPalaceProbs`).

    Each of the moves is classified through the move-class table; the
    three category counts gate the nature's weights ("AI" probabilities),
    and the weight of every absent category is handed to the random
    buckets `rAtk`, `rDef`, `rNomove` by a fixed decision table. Both HP
    tiers run the same rules on their own triple of weights, so the model
    computes one tier at a time. Weights are exact reals: the code only
    multiplies by 0.5 and 0.25 and adds. */
module Palace {
  import opened Wrappers
  import opened Sequences

  /** One row of the nature table: the above-half-HP triple and the
      at-or-below-half-HP triple. */
  datatype NatureWeights = NatureWeights(atk: real, def: real, spt: real, atk50: real, def50: real, spt50: real)

  /** The three category weights of one HP tier. */
  datatype Weights = Weights(atk: real, def: real, spt: real)

  /** The six outputs of one HP tier. */
  datatype TierProbs = TierProbs(aiAtk: real, aiDef: real, aiSpt: real, rAtk: real, rDef: real, rNomove: real)

  /** `cats` holds the raw class of each slot (`None` for the code's
      `null`); the counts are those of the exact strings ATK, DEF, SPT. */
  datatype PalaceResult = PalaceResult(
    above: TierProbs, below: TierProbs,
    cats: seq<Option<string>>,
    atkCount: nat, defCount: nat, sptCount: nat)

  const ATK: string := "ATK"
  const DEF: string := "DEF"
  const SPT: string := "SPT"

  function AboveHalf(n: NatureWeights): Weights {
    Weights(n.atk, n.def, n.spt)
  }

  function BelowHalf(n: NatureWeights): Weights {
    Weights(n.atk50, n.def50, n.spt50)
  }

  function Total(w: Weights): real {
    w.atk + w.def + w.spt
  }

  function Sum(t: TierProbs): real {
    t.aiAtk + t.aiDef + t.aiSpt + t.rAtk + t.rDef + t.rNomove
  }

  // ------------------------------------------------------ classification

  /** The class of one move slot: nothing for an empty slot, the
      placeholder `---`, a move missing from the table or mapped to the
      empty string; otherwise the table's raw class string. */
  function Classify(moveClass: map<string, string>, m: string): (c: Option<string>)
    ensures c.None? <==> m in {"", "---"} || m !in moveClass || moveClass[m] == ""
    ensures c.Some? ==> m in moveClass && c.value == moveClass[m] && c.value != ""
  {
    if m == "" || m == "---" then None
    else if m in moveClass && moveClass[m] != "" then Some(moveClass[m])
    else None
  }

  function ClassifyAll(moveClass: map<string, string>, moves: seq<string>): (cats: seq<Option<string>>)
    ensures |cats| == |moves|
  {
    seq(|moves|, i requires 0 <= i < |moves| => Classify(moveClass, moves[i]))
  }

  /** How many slots hold exactly the class `c`. */
  function Count(cats: seq<Option<string>>, c: string): (n: nat)
    ensures n == multiset(cats)[Some(c)]
    ensures n <= |cats|
  {
    if |cats| == 0 then 0
    else
      assert cats == [cats[0]] + cats[1..];
      (if cats[0] == Some(c) then 1 else 0) + Count(cats[1..], c)
  }

  /** Number of categories among ATK, DEF, SPT that occur at all. */
  function Present(ac: nat, dc: nat, sc: nat): (k: nat)
    ensures k <= 3
  {
    (if ac > 0 then 1 else 0) + (if dc > 0 then 1 else 0) + (if sc > 0 then 1 else 0)
  }

  // -------------------------------------------------------- one HP tier

  /** The decision table of logic.js for one HP tier, given the tier's
      weights and the three counts. */
  function Tier(w: Weights, ac: nat, dc: nat, sc: nat): (t: TierProbs)
    // the AI probabilities gate each weight by presence of its own category
    ensures t.aiAtk == (if ac > 0 then w.atk else 0.0)
    ensures t.aiDef == (if dc > 0 then w.def else 0.0)
    ensures t.aiSpt == (if sc > 0 then w.spt else 0.0)
    // conservation: the tier's whole weight is handed out unless no category occurs
    ensures 1 <= Present(ac, dc, sc) ==> Sum(t) == Total(w)
    ensures Present(ac, dc, sc) == 3 ==> t.rAtk == 0.0 && t.rDef == 0.0 && t.rNomove == 0.0
    ensures Present(ac, dc, sc) == 0 ==> t == TierProbs(0.0, 0.0, 0.0, 0.0, 0.0, 0.0)
    // a random bucket of a category is only filled when the category occurs
    ensures t.rAtk != 0.0 ==> ac > 0
    ensures t.rDef != 0.0 ==> dc > 0
    // ATK against DEF with equal counts: the SPT weight splits 1/4, 1/4, 1/2
    ensures ac > 0 && dc > 0 && sc == 0 && ac == dc ==>
      t.rAtk == w.spt / 4.0 && t.rDef == w.spt / 4.0 && t.rNomove == w.spt / 2.0
    // ATK or DEF facing SPT always inherits, whatever the counts
    ensures ac > 0 && dc == 0 && sc > 0 ==> t.rAtk == w.def / 2.0 && t.rNomove == w.def / 2.0 && t.rDef == 0.0
    ensures ac == 0 && dc > 0 && sc > 0 ==> t.rDef == w.atk / 2.0 && t.rNomove == w.atk / 2.0 && t.rAtk == 0.0
  {
    var hasAtk := ac > 0;
    var hasDef := dc > 0;
    var hasSpt := sc > 0;
    var k := Present(ac, dc, sc);
    var aiAtk := if hasAtk then w.atk else 0.0;
    var aiDef := if hasDef then w.def else 0.0;
    var aiSpt := if hasSpt then w.spt else 0.0;
    if k == 2 then
      if !hasSpt then
        if ac > dc then TierProbs(aiAtk, aiDef, aiSpt, w.spt * 0.5, 0.0, w.spt * 0.5)
        else if ac < dc then TierProbs(aiAtk, aiDef, aiSpt, 0.0, w.spt * 0.5, w.spt * 0.5)
        else TierProbs(aiAtk, aiDef, aiSpt, w.spt * 0.25, w.spt * 0.25, w.spt * 0.5)
      else if !hasDef then TierProbs(aiAtk, aiDef, aiSpt, w.def * 0.5, 0.0, w.def * 0.5)
      else TierProbs(aiAtk, aiDef, aiSpt, 0.0, w.atk * 0.5, w.atk * 0.5)
    else if k == 1 then
      if hasAtk then TierProbs(aiAtk, aiDef, aiSpt, w.def * 0.5 + w.spt * 0.5, 0.0, w.def * 0.5 + w.spt * 0.5)
      else if hasDef then TierProbs(aiAtk, aiDef, aiSpt, 0.0, w.atk * 0.5 + w.spt * 0.5, w.atk * 0.5 + w.spt * 0.5)
      else TierProbs(aiAtk, aiDef, aiSpt, 0.0, 0.0, w.atk + w.def)
    else TierProbs(aiAtk, aiDef, aiSpt, 0.0, 0.0, 0.0)
  }

  // ---------------------------------------- the share rule, stated apart

  /** The weight of the categories that do not occur. */
  function Missing(w: Weights, ac: nat, dc: nat, sc: nat): real {
    (if ac == 0 then w.atk else 0.0) + (if dc == 0 then w.def else 0.0) + (if sc == 0 then w.spt else 0.0)
  }

  /** ATK inherits when it occurs and DEF does not out-count it. */
  predicate AtkInherits(ac: nat, dc: nat) {
    ac > 0 && (dc == 0 || ac >= dc)
  }

  /** DEF inherits when it occurs and ATK does not out-count it. */
  predicate DefInherits(ac: nat, dc: nat) {
    dc > 0 && (ac == 0 || dc >= ac)
  }

  function Heirs(ac: nat, dc: nat): nat {
    (if AtkInherits(ac, dc) then 1 else 0) + (if DefInherits(ac, dc) then 1 else 0)
  }

  /** The redistribution rule in words: when some category occurs, the
      missing weight goes half to "no move" and half, in equal shares, to
      the inheriting categories among ATK and DEF (all of it to "no move"
      when neither inherits); SPT never inherits. When no category occurs
      every output is 0. */
  function ShareRule(w: Weights, ac: nat, dc: nat, sc: nat): TierProbs {
    if Present(ac, dc, sc) == 0 then TierProbs(0.0, 0.0, 0.0, 0.0, 0.0, 0.0)
    else
      var m := Missing(w, ac, dc, sc);
      var h := Heirs(ac, dc);
      var share := if h == 0 then 0.0 else m / (2 * h) as real;
      TierProbs(
        if ac > 0 then w.atk else 0.0,
        if dc > 0 then w.def else 0.0,
        if sc > 0 then w.spt else 0.0,
        if AtkInherits(ac, dc) then share else 0.0,
        if DefInherits(ac, dc) then share else 0.0,
        if h == 0 then m else m / 2.0)
  }

  /** The decision table of the code and the share rule agree on every
      input. */
  lemma TierFollowsShareRule(w: Weights, ac: nat, dc: nat, sc: nat)
    ensures Tier(w, ac, dc, sc) == ShareRule(w, ac, dc, sc)
  {
    var h := Heirs(ac, dc);
    if Present(ac, dc, sc) > 0 {
      if h == 2 {
        assert ac == dc;
      } else if h == 1 {
        assert Missing(w, ac, dc, sc) / (2 * h) as real == Missing(w, ac, dc, sc) / 2.0;
      }
    }
  }

  // ------------------------------------------------------ the whole call

  /** `calcPalaceProbs(nature, moves)`: `None` exactly for a nature outside
      the table; otherwise the per-slot classes, the counts, and both HP
      tiers. */
  function CalcPalaceProbs(
    natureTable: map<string, NatureWeights>, moveClass: map<string, string>,
    nature: string, moves: seq<string>): (r: Option<PalaceResult>)
    ensures r.None? <==> nature !in natureTable
    ensures r.Some? ==> |r.value.cats| == |moves|
    // each slot keeps its own move's class, in slot order
    ensures r.Some? ==> forall i :: 0 <= i < |moves| ==>
      (r.value.cats[i].None? <==> moves[i] in {"", "---"} || moves[i] !in moveClass || moveClass[moves[i]] == "") &&
      (r.value.cats[i].Some? ==> r.value.cats[i].value == moveClass[moves[i]])
    ensures r.Some? ==> r.value.atkCount == multiset(r.value.cats)[Some(ATK)]
    ensures r.Some? ==> r.value.defCount == multiset(r.value.cats)[Some(DEF)]
    ensures r.Some? ==> r.value.sptCount == multiset(r.value.cats)[Some(SPT)]
    // conservation in both tiers whenever one category occurs
    ensures r.Some? && Present(r.value.atkCount, r.value.defCount, r.value.sptCount) >= 1 ==>
      Sum(r.value.above) == Total(AboveHalf(natureTable[nature])) &&
      Sum(r.value.below) == Total(BelowHalf(natureTable[nature]))
    // each tier is the decision table applied to the nature's row and the counts
    ensures r.Some? ==> r.value.above == Tier(AboveHalf(natureTable[nature]), r.value.atkCount, r.value.defCount, r.value.sptCount)
    ensures r.Some? ==> r.value.below == Tier(BelowHalf(natureTable[nature]), r.value.atkCount, r.value.defCount, r.value.sptCount)
  {
    if nature !in natureTable then None
    else
      var row := natureTable[nature];
      var cats := ClassifyAll(moveClass, moves);
      var ac := Count(cats, ATK);
      var dc := Count(cats, DEF);
      var sc := Count(cats, SPT);
      Some(PalaceResult(
        Tier(AboveHalf(row), ac, dc, sc), Tier(BelowHalf(row), ac, dc, sc),
        cats, ac, dc, sc))
  }

  // ------------------------------------------------- slot order is moot

  lemma ClassifyConcat(moveClass: map<string, string>, u: seq<string>, v: seq<string>)
    ensures ClassifyAll(moveClass, u + v) == ClassifyAll(moveClass, u) + ClassifyAll(moveClass, v)
  {
  }

  /** Taking out slot `j` takes its class out of the classes. */
  lemma ClassifyRemove(moveClass: map<string, string>, b: seq<string>, j: nat)
    requires j < |b|
    ensures multiset(b) == multiset(b[..j] + b[j + 1..]) + multiset{b[j]}
    ensures multiset(ClassifyAll(moveClass, b))
         == multiset(ClassifyAll(moveClass, b[..j] + b[j + 1..])) + multiset{Classify(moveClass, b[j])}
  {
    var u, v := b[..j], b[j + 1..];
    assert b == u + [b[j]] + v;
    ClassifyConcat(moveClass, u, v);
    ClassifyConcat(moveClass, u + [b[j]], v);
    ClassifyConcat(moveClass, u, [b[j]]);
  }

  /** Classifying two arrangements of the same moves gives two
      arrangements of the same classes. */
  lemma {:induction false} ClassifyPermutation(moveClass: map<string, string>, a: seq<string>, b: seq<string>)
    requires multiset(a) == multiset(b)
    ensures multiset(ClassifyAll(moveClass, a)) == multiset(ClassifyAll(moveClass, b))
    decreases |a|
  {
    if |a| == 0 {
      assert |b| == |multiset(b)| == 0;
      assert ClassifyAll(moveClass, b) == [];
    } else {
      var x := a[0];
      assert x in multiset(b);
      var j :| 0 <= j < |b| && b[j] == x;
      var b' := b[..j] + b[j + 1..];
      ClassifyRemove(moveClass, b, j);
      ClassifyRemove(moveClass, a, 0);
      assert a[..0] + a[1..] == a[1..];
      MultisetCancel(multiset(a[1..]), multiset(b'), x);
      ClassifyPermutation(moveClass, a[1..], b');
    }
  }

  /** Permuting the moves changes nothing but the order of `cats`: the
      counts and all twelve probabilities stay the same. */
  lemma PermutationInvariant(
    natureTable: map<string, NatureWeights>, moveClass: map<string, string>,
    nature: string, a: seq<string>, b: seq<string>)
    requires multiset(a) == multiset(b)
    ensures CalcPalaceProbs(natureTable, moveClass, nature, a).None? == CalcPalaceProbs(natureTable, moveClass, nature, b).None?
    ensures nature in natureTable ==>
      var ra := CalcPalaceProbs(natureTable, moveClass, nature, a).value;
      var rb := CalcPalaceProbs(natureTable, moveClass, nature, b).value;
      && ra.above == rb.above && ra.below == rb.below
      && ra.atkCount == rb.atkCount && ra.defCount == rb.defCount && ra.sptCount == rb.sptCount
      && multiset(ra.cats) == multiset(rb.cats)
  {
    ClassifyPermutation(moveClass, a, b);
  }

  /** A worked case: a weight 0.3 on SPT, one ATK
      move, one DEF move and no SPT move give 0.075, 0.075 and 0.15. */
  lemma TieExample(w: Weights)
    requires w.spt == 0.3
    ensures var t := Tier(w, 1, 1, 0);
      t.rAtk == 0.075 && t.rDef == 0.075 && t.rNomove == 0.15
  {
  }
}
