/** The JavaScript string primitives the core leans on, written out over
    `seq<char>`: the `\s` class (which `trim` also strips), `trim`,
    `split` on one character, ASCII case mapping, `startsWith` and
    `includes`, and the character classes `\d` and `\w`. */
module Text {

  /** The characters JavaScript's `\s` matches and `String.prototype.trim`
      removes: ASCII white space, the line terminators, NBSP, BOM and the
      Unicode space separators. */
  predicate IsSpace(c: char) {
    || c == ' ' || c == '\t' || c == '\n' || c == '\U{000B}' || c == '\U{000C}' || c == '\r'
    || c == '\U{00A0}' || c == '\U{1680}' || ('\U{2000}' <= c <= '\U{200A}')
    || c == '\U{2028}' || c == '\U{2029}' || c == '\U{202F}' || c == '\U{205F}'
    || c == '\U{3000}' || c == '\U{FEFF}'
  }

  /** The characters a regular-expression `.` refuses (no `s` flag). */
  predicate IsLineTerminator(c: char) {
    c == '\n' || c == '\r' || c == '\U{2028}' || c == '\U{2029}'
  }

  /** `\d` without the `u` flag. */
  predicate IsDigit(c: char) {
    '0' <= c <= '9'
  }

  /** `\w` without the `u` flag. */
  predicate IsWordChar(c: char) {
    ('a' <= c <= 'z') || ('A' <= c <= 'Z') || IsDigit(c) || c == '_'
  }

  predicate AllSpace(s: string) {
    forall i :: 0 <= i < |s| ==> IsSpace(s[i])
  }

  predicate AllDigits(s: string) {
    forall i :: 0 <= i < |s| ==> IsDigit(s[i])
  }

  predicate HasDigit(s: string) {
    exists i :: 0 <= i < |s| && IsDigit(s[i])
  }

  lemma AllSpaceConcat(a: string, b: string)
    ensures AllSpace(a + b) <==> AllSpace(a) && AllSpace(b)
  {
    if AllSpace(a + b) {
      forall i | 0 <= i < |a| ensures IsSpace(a[i]) {
        assert (a + b)[i] == a[i];
      }
      forall i | 0 <= i < |b| ensures IsSpace(b[i]) {
        assert (a + b)[|a| + i] == b[i];
      }
    }
    if AllSpace(a) && AllSpace(b) {
      forall i | 0 <= i < |a + b| ensures IsSpace((a + b)[i]) {
        if i < |a| { assert (a + b)[i] == a[i]; } else { assert (a + b)[i] == b[i - |a|]; }
      }
    }
  }

  // ---------------------------------------------------------------- trim

  function TrimStart(s: string): (r: string)
    ensures |r| <= |s| && r == s[|s| - |r|..]
    ensures forall i :: 0 <= i < |s| - |r| ==> IsSpace(s[i])
    ensures |r| > 0 ==> !IsSpace(r[0])
    decreases |s|
  {
    if |s| > 0 && IsSpace(s[0]) then TrimStart(s[1..]) else s
  }

  function TrimEnd(s: string): (r: string)
    ensures |r| <= |s| && r == s[..|r|]
    ensures forall i :: |r| <= i < |s| ==> IsSpace(s[i])
    ensures |r| > 0 ==> !IsSpace(r[|r| - 1])
    decreases |s|
  {
    if |s| > 0 && IsSpace(s[|s| - 1]) then TrimEnd(s[..|s| - 1]) else s
  }

  /** `String.prototype.trim`: the longest slice that neither starts nor
      ends with white space, found by dropping white space only (which
      slice it is: `TrimUnique`). */
  function Trim(s: string): (r: string)
    ensures |r| <= |s|
    ensures |r| > 0 ==> !IsSpace(r[0]) && !IsSpace(r[|r| - 1])
    ensures |r| == 0 <==> AllSpace(s)
    ensures (|s| == 0 || (!IsSpace(s[0]) && !IsSpace(s[|s| - 1]))) ==> r == s
  {
    var l := TrimStart(s);
    TrimParts(s, l);
    TrimEnd(l)
  }

  lemma TrimParts(s: string, l: string)
    requires l == TrimStart(s)
    ensures |TrimEnd(l)| == 0 <==> AllSpace(s)
    ensures |TrimEnd(l)| > 0 ==> !IsSpace(TrimEnd(l)[0])
  {
    var r := TrimEnd(l);
    if |r| == 0 {
      assert |l| == 0;
    } else {
      assert r[0] == l[0];
    }
  }

  lemma SliceOfSlice(s: string, a: nat, n: nat)
    requires a + n <= |s|
    ensures s[a..][..n] == s[a..a + n]
  {
  }

  /** `TrimStart` drops exactly the leading white space run. */
  lemma {:induction false} TrimStartFrom(s: string, a: nat)
    requires a <= |s| && (a == |s| || !IsSpace(s[a]))
    requires forall i :: 0 <= i < a ==> IsSpace(s[i])
    ensures TrimStart(s) == s[a..]
    decreases a
  {
    if a > 0 {
      assert s[1..][a - 1..] == s[a..];
      TrimStartFrom(s[1..], a - 1);
    }
  }

  /** `TrimEnd` drops exactly the trailing white space run. */
  lemma {:induction false} TrimEndTo(l: string, n: nat)
    requires n <= |l| && (n == 0 || !IsSpace(l[n - 1]))
    requires forall i :: n <= i < |l| ==> IsSpace(l[i])
    ensures TrimEnd(l) == l[..n]
    decreases |l| - n
  {
    if n < |l| {
      var l' := l[..|l| - 1];
      assert l'[..n] == l[..n];
      TrimEndTo(l', n);
    }
  }

  /** The partner of `Trim`: a slice with only white space outside it,
      and no white space at its own ends, is the trimmed string. */
  lemma {:induction false} TrimUnique(s: string, a: nat, n: nat)
    requires a + n <= |s|
    requires forall i :: 0 <= i < a ==> IsSpace(s[i])
    requires forall i :: a + n <= i < |s| ==> IsSpace(s[i])
    requires n == 0 || (!IsSpace(s[a]) && !IsSpace(s[a + n - 1]))
    ensures Trim(s) == s[a..a + n]
  {
    if n == 0 {
      forall i | 0 <= i < |s| ensures IsSpace(s[i]) {
        if i < a { } else { }
      }
      assert |Trim(s)| == 0;
    } else {
      TrimStartFrom(s, a);
      var l := s[a..];
      forall i | n <= i < |l| ensures IsSpace(l[i]) {
        assert l[i] == s[a + i];
      }
      assert l[n - 1] == s[a + n - 1];
      TrimEndTo(l, n);
      SliceOfSlice(s, a, n);
    }
  }

  /** Trimming white space around a trimmed, non-empty text gives the
      text back. */
  lemma {:induction false} TrimAround(g1: string, s: string, g2: string)
    requires AllSpace(g1) && AllSpace(g2) && |s| > 0 && !IsSpace(s[0]) && !IsSpace(s[|s| - 1])
    ensures Trim(g1 + s + g2) == s
  {
    var t := g1 + s + g2;
    forall i | 0 <= i < |g1| ensures IsSpace(t[i]) {
      assert t[i] == g1[i];
    }
    forall i | |g1| + |s| <= i < |t| ensures IsSpace(t[i]) {
      assert t[i] == g2[i - |g1| - |s|];
    }
    assert t[|g1|..|g1| + |s|] == s;
    TrimUnique(t, |g1|, |s|);
  }

  /** A trimmed, non-empty text with at most one space on either side
      trims to itself. */
  lemma TrimSpaced(s: string)
    requires |s| > 0 && !IsSpace(s[0]) && !IsSpace(s[|s| - 1])
    ensures Trim(s) == s && Trim(s + " ") == s && Trim(" " + s) == s && Trim(" " + s + " ") == s
  {
    assert "" + s + " " == s + " " && " " + s + "" == " " + s;
    TrimAround("", s, " ");
    TrimAround(" ", s, "");
    TrimAround(" ", s, " ");
  }

  lemma TrimIdempotent(s: string)
    ensures Trim(Trim(s)) == Trim(s)
  {
  }

  // ---------------------------------------------------------------- case

  function LowerChar(c: char): char {
    if 'A' <= c <= 'Z' then (c as int + 32) as char else c
  }

  function UpperChar(c: char): char {
    if 'a' <= c <= 'z' then (c as int - 32) as char else c
  }

  /** `toLowerCase` restricted to the ASCII letters. */
  function Lower(s: string): (r: string)
    ensures |r| == |s|
  {
    seq(|s|, i requires 0 <= i < |s| => LowerChar(s[i]))
  }

  /** `toUpperCase` restricted to the ASCII letters. */
  function Upper(s: string): (r: string)
    ensures |r| == |s|
  {
    seq(|s|, i requires 0 <= i < |s| => UpperChar(s[i]))
  }

  /** Upper-casing forgets an earlier lower-casing. */
  lemma UpperOfLower(s: string)
    ensures Upper(Lower(s)) == Upper(s)
  {
    forall i | 0 <= i < |s| ensures Upper(Lower(s))[i] == Upper(s)[i] {
      var c := s[i];
      assert Lower(s)[i] == LowerChar(c);
    }
  }

  // ------------------------------------------------------------ matching

  /** `s.startsWith(p)`. */
  predicate StartsWith(s: string, p: string) {
    |p| <= |s| && s[..|p|] == p
  }

  /** `s.includes(p)`: `p` occurs at some offset of `s`. */
  predicate Contains(s: string, p: string)
    decreases |s|
  {
    StartsWith(s, p) || (|s| > 0 && Contains(s[1..], p))
  }

  // --------------------------------------------------------------- split

  /** Index of the first `sep` in `s`. */
  function IndexOf(s: string, sep: char): (i: nat)
    requires sep in s
    ensures i < |s| && s[i] == sep && sep !in s[..i]
  {
    if s[0] == sep then 0
    else
      assert s == [s[0]] + s[1..];
      var j := IndexOf(s[1..], sep);
      assert s[..j + 1] == [s[0]] + s[1..][..j];
      j + 1
  }

  /** The inverse of `Split`: glue the pieces back with the separator. */
  function Join(parts: seq<string>, sep: char): string
    requires |parts| >= 1
  {
    if |parts| == 1 then parts[0] else parts[0] + [sep] + Join(parts[1..], sep)
  }

  /** `s.split(sep)` for a one-character separator: the pieces hold no
      separator and glue back into `s`; there is one piece exactly when
      `s` has no separator. */
  function Split(s: string, sep: char): (parts: seq<string>)
    ensures |parts| >= 1
    ensures forall i :: 0 <= i < |parts| ==> sep !in parts[i]
    ensures Join(parts, sep) == s
    ensures |parts| == 1 <==> sep !in s
    decreases |s|
  {
    if sep !in s then [s]
    else
      var i := IndexOf(s, sep);
      var rest := Split(s[i + 1..], sep);
      var parts := [s[..i]] + rest;
      assert parts[1..] == rest;
      assert s == s[..i] + [sep] + s[i + 1..];
      parts
  }

  /** The first separator is the one right after a separator-free head. */
  lemma SplitHead(a: string, b: string, sep: char)
    requires sep !in a
    ensures Split(a + [sep] + b, sep) == [a] + Split(b, sep)
  {
    var s := a + [sep] + b;
    assert s[..|a|] == a && s[|a|] == sep;
    var i := IndexOf(s, sep);
    assert forall j :: 0 <= j < |a| ==> s[..i + 1][j] == s[j];
    assert i == |a|;
    assert s[i + 1..] == b;
  }

  /** The partner of `Split`: pieces free of the separator, joined and
      split again, come back as they were. */
  lemma {:induction false} SplitJoin(parts: seq<string>, sep: char)
    requires |parts| >= 1
    requires forall i :: 0 <= i < |parts| ==> sep !in parts[i]
    ensures Split(Join(parts, sep), sep) == parts
    decreases |parts|
  {
    if |parts| > 1 {
      SplitJoin(parts[1..], sep);
      SplitHead(parts[0], Join(parts[1..], sep), sep);
    }
  }

  /** A join of non-empty pieces starts with its first piece's first
      character and ends with its last piece's last one. */
  lemma {:induction false} JoinEnds(parts: seq<string>, sep: char)
    requires |parts| >= 1 && forall i :: 0 <= i < |parts| ==> |parts[i]| > 0
    ensures var j := Join(parts, sep); var l := parts[|parts| - 1];
      |j| > 0 && j[0] == parts[0][0] && j[|j| - 1] == l[|l| - 1]
    decreases |parts|
  {
    if |parts| > 1 {
      JoinEnds(parts[1..], sep);
    }
  }

  /** White space is all a join holds exactly when all its pieces are
      white space, provided the separator itself is white space. */
  lemma {:induction false} AllSpaceJoin(parts: seq<string>, sep: char)
    requires |parts| >= 1 && IsSpace(sep)
    ensures AllSpace(Join(parts, sep)) <==> forall i :: 0 <= i < |parts| ==> AllSpace(parts[i])
    decreases |parts|
  {
    if |parts| > 1 {
      AllSpaceJoin(parts[1..], sep);
      AllSpaceConcat(parts[0] + [sep], Join(parts[1..], sep));
      AllSpaceConcat(parts[0], [sep]);
      if forall i :: 1 <= i < |parts| ==> AllSpace(parts[i]) {
        forall i | 0 <= i < |parts| - 1 ensures AllSpace(parts[1..][i]) {
          assert parts[1..][i] == parts[i + 1];
        }
      }
      if forall i :: 0 <= i < |parts| - 1 ==> AllSpace(parts[1..][i]) {
        forall i | 1 <= i < |parts| ensures AllSpace(parts[i]) {
          assert parts[i] == parts[1..][i - 1];
        }
      }
    }
  }

  // ------------------------------------------------------- leading runs

  /** Length of the longest prefix of `s` whose characters satisfy the
      class; the greedy `\s*`, `\d+`, `\w+` of the regular expressions. */
  function SpaceRun(s: string): (n: nat)
    ensures n <= |s|
    ensures forall i :: 0 <= i < n ==> IsSpace(s[i])
    ensures n < |s| ==> !IsSpace(s[n])
    decreases |s|
  {
    if |s| > 0 && IsSpace(s[0]) then 1 + SpaceRun(s[1..]) else 0
  }

  function DigitRun(s: string): (n: nat)
    ensures n <= |s|
    ensures forall i :: 0 <= i < n ==> IsDigit(s[i])
    ensures n < |s| ==> !IsDigit(s[n])
    decreases |s|
  {
    if |s| > 0 && IsDigit(s[0]) then 1 + DigitRun(s[1..]) else 0
  }

  function WordRun(s: string): (n: nat)
    ensures n <= |s|
    ensures forall i :: 0 <= i < n ==> IsWordChar(s[i])
    ensures n < |s| ==> !IsWordChar(s[n])
    decreases |s|
  {
    if |s| > 0 && IsWordChar(s[0]) then 1 + WordRun(s[1..]) else 0
  }

  /** A run that a character outside its class ends is the whole run. */
  lemma {:induction false} WordRunExact(w: string, t: string)
    requires forall i :: 0 <= i < |w| ==> IsWordChar(w[i])
    requires |t| == 0 || !IsWordChar(t[0])
    ensures WordRun(w + t) == |w|
    decreases |w|
  {
    if |w| > 0 {
      assert (w + t)[1..] == w[1..] + t;
      WordRunExact(w[1..], t);
    } else {
      assert w + t == t;
    }
  }

  /** The digit run is digits throughout. */
  lemma DigitRunSpan(s: string)
    ensures AllDigits(s[..DigitRun(s)])
  {
  }

  /** The run found from `n` is white space throughout. */
  lemma SpaceRunSpan(s: string, n: nat)
    requires n <= |s|
    ensures n + SpaceRun(s[n..]) <= |s| && AllSpace(s[n..n + SpaceRun(s[n..])])
  {
    var k := SpaceRun(s[n..]);
    var g := s[n..n + k];
    forall i | 0 <= i < k ensures IsSpace(g[i]) {
      assert g[i] == s[n..][i];
    }
  }

  lemma {:induction false} SpaceRunExact(g: string, t: string)
    requires AllSpace(g)
    requires |t| == 0 || !IsSpace(t[0])
    ensures SpaceRun(g + t) == |g|
    decreases |g|
  {
    if |g| > 0 {
      assert (g + t)[1..] == g[1..] + t;
      SpaceRunExact(g[1..], t);
    } else {
      assert g + t == t;
    }
  }

  lemma {:induction false} DigitRunExact(d: string, t: string)
    requires forall i :: 0 <= i < |d| ==> IsDigit(d[i])
    requires |t| == 0 || !IsDigit(t[0])
    ensures DigitRun(d + t) == |d|
    decreases |d|
  {
    if |d| > 0 {
      assert (d + t)[1..] == d[1..] + t;
      DigitRunExact(d[1..], t);
    } else {
      assert d + t == t;
    }
  }

  /** Trimming drops leading white space and nothing of a trimmed text. */
  lemma {:induction false} TrimDropsLead(g: string, s: string)
    requires AllSpace(g) && |s| > 0 && !IsSpace(s[0]) && !IsSpace(s[|s| - 1])
    ensures Trim(g + s) == s
  {
    TrimStartDropsLead(g, s);
  }

  lemma {:induction false} TrimStartDropsLead(g: string, s: string)
    requires AllSpace(g) && |s| > 0 && !IsSpace(s[0])
    ensures TrimStart(g + s) == s
    decreases |g|
  {
    if |g| > 0 {
      assert (g + s)[1..] == g[1..] + s;
      TrimStartDropsLead(g[1..], s);
    } else {
      assert g + s == s;
    }
  }

  /** `parseInt` of a run of decimal digits, as an exact integer. */
  function DecimalValue(digits: string): nat
    requires forall i :: 0 <= i < |digits| ==> IsDigit(digits[i])
  {
    if |digits| == 0 then 0
    else
      var d := digits[|digits| - 1];
      assert IsDigit(d);
      10 * DecimalValue(digits[..|digits| - 1]) + (d as int - '0' as int)
  }
}
