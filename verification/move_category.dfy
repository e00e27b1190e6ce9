/** `moveCat` of app.js: the category label shown for a raw move class.
    Sentinels and missing classes read NA; otherwise the first of ATK, DEF,
    SPT found anywhere in the upper-cased class wins. */
module MoveCategory {
  import opened Wrappers
  import opened Text
  import Palace

  const NA: string := "NA"

  /** Classes the data uses for "unknown": the missing value (`None`, for
      `undefined` or `null`), the empty string, `nan`, `#N/A` and `---`. */
  predicate IsSentinel(cls: Option<string>) {
    cls.None? || cls.value in {"", "nan", "#N/A", "---"}
  }

  /** `moveCat(cls)`: always one of the four labels; a label of a category
      is given exactly when its keyword occurs, ignoring case, and no
      keyword ahead of it in the order ATK, DEF, SPT does. */
  function MoveCat(cls: Option<string>): (r: string)
    ensures r in {Palace.ATK, Palace.DEF, Palace.SPT, NA}
    ensures IsSentinel(cls) ==> r == NA
    ensures r == Palace.ATK <==> !IsSentinel(cls) && Contains(Upper(cls.value), "ATK")
    ensures r == Palace.DEF <==> !IsSentinel(cls) && !Contains(Upper(cls.value), "ATK") && Contains(Upper(cls.value), "DEF")
    ensures r == Palace.SPT <==> !IsSentinel(cls) && !Contains(Upper(cls.value), "ATK")
                                 && !Contains(Upper(cls.value), "DEF") && Contains(Upper(cls.value), "SPT")
  {
    if IsSentinel(cls) then NA
    else
      var u := Upper(cls.value);
      if Contains(u, "ATK") then Palace.ATK
      else if Contains(u, "DEF") then Palace.DEF
      else if Contains(u, "SPT") then Palace.SPT
      else NA
  }

  /** None of the last letters of ATK, DEF, SPT in either case. */
  predicate LacksKeywordLetters(s: string) {
    forall i :: 0 <= i < |s| ==> s[i] !in {'k', 'K', 'd', 'D', 's', 'S'}
  }

  /** A substring's characters all occur in the string. */
  lemma {:induction false} ContainsHasChars(s: string, p: string, j: nat)
    requires Contains(s, p) && j < |p|
    ensures p[j] in s
    decreases |s|
  {
    if StartsWith(s, p) {
      assert s[j] == p[j];
    } else {
      ContainsHasChars(s[1..], p, j);
    }
  }

  /** Without the letters K, D, S no keyword can occur. */
  lemma NoKeyword(s: string)
    requires LacksKeywordLetters(s)
    ensures !Contains(Upper(s), "ATK") && !Contains(Upper(s), "DEF") && !Contains(Upper(s), "SPT")
  {
    var u := Upper(s);
    forall c | c in u ensures c != 'K' && c != 'D' && c != 'S' {
      var i :| 0 <= i < |u| && u[i] == c;
      assert u[i] == UpperChar(s[i]);
    }
    if Contains(u, "ATK") { ContainsHasChars(u, "ATK", 2); }
    if Contains(u, "DEF") { ContainsHasChars(u, "DEF", 0); }
    if Contains(u, "SPT") { ContainsHasChars(u, "SPT", 0); }
  }

  lemma LowerKeepsLetters(s: string)
    ensures LacksKeywordLetters(Lower(s)) <==> LacksKeywordLetters(s)
  {
    forall i | 0 <= i < |s|
      ensures Lower(s)[i] !in {'k', 'K', 'd', 'D', 's', 'S'} <==> s[i] !in {'k', 'K', 'd', 'D', 's', 'S'}
    {
      assert Lower(s)[i] == LowerChar(s[i]);
    }
  }

  lemma SentinelLetters(s: string)
    requires s in {"", "nan", "#N/A", "---", "#n/a"}
    ensures LacksKeywordLetters(s)
  {
  }

  /** The label ignores the case of the class. */
  lemma CaseInsensitive(s: string)
    ensures MoveCat(Some(s)) == MoveCat(Some(Lower(s)))
  {
    UpperOfLower(s);
    if IsSentinel(Some(s)) {
      SentinelLetters(s);
      LowerKeepsLetters(s);
      NoKeyword(Lower(s));
    } else if IsSentinel(Some(Lower(s))) {
      SentinelLetters(Lower(s));
      LowerKeepsLetters(s);
      NoKeyword(s);
    }
  }

  /** A slot the probability engine counts under a category is labelled
      with that same category. */
  lemma AgreesWithEngine(moveClass: map<string, string>, m: string)
    requires Palace.Classify(moveClass, m) in {Some(Palace.ATK), Some(Palace.DEF), Some(Palace.SPT)}
    ensures MoveCat(Palace.Classify(moveClass, m)) == Palace.Classify(moveClass, m).value
  {
    var c := Palace.Classify(moveClass, m).value;
    assert Upper(c) == c;
    assert StartsWith(c, c);
  }
}
