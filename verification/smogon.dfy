/** The Smogon set-text parser of logic.js (`parseSmogon`).

    The text is cut into trimmed, non-blank lines. The first line gives
    `Species @ Item`, with `(M)`/`(F)` markers removed from the species;
    every later line is tried, in this order, as `<word> Nature`, as an
    `EVs:` line (whose `<n> Spe` token sets the speed EV), and as a `-` or
    `*` move line; other lines are skipped. The regular expressions of the
    code are written out as scans over the characters. */
module Smogon {
  import opened Wrappers
  import opened Text
  import opened Sequences

  datatype ParsedSet = ParsedSet(species: string, item: string, nature: string, moves: seq<string>, spdEV: nat)

  /** What the line-by-line pass has gathered so far. */
  datatype ScanState = ScanState(nature: string, moves: seq<string>, spdEV: nat)

  const MoveSlots: nat := 4

  // ------------------------------------------------------------ lines

  predicate AllBlank(parts: seq<string>) {
    forall i :: 0 <= i < |parts| ==> AllSpace(parts[i])
  }

  lemma AllBlankCons(parts: seq<string>)
    requires |parts| > 0
    ensures AllBlank(parts) <==> AllSpace(parts[0]) && AllBlank(parts[1..])
  {
    if AllSpace(parts[0]) && AllBlank(parts[1..]) {
      forall i | 1 <= i < |parts| ensures AllSpace(parts[i]) {
        assert parts[i] == parts[1..][i - 1];
      }
    }
  }

  /** `filter(Boolean)` on strings keeps the non-empty ones. */
  predicate NonEmpty(l: string) { |l| > 0 }

  /** `.map(l => l.trim())`. */
  function TrimAll(parts: seq<string>): (r: seq<string>)
    ensures |r| == |parts| && forall i :: 0 <= i < |parts| ==> r[i] == Trim(parts[i])
  {
    seq(|parts|, i requires 0 <= i < |parts| => Trim(parts[i]))
  }

  lemma TrimAllTail(parts: seq<string>)
    requires |parts| > 0
    ensures TrimAll(parts) == [Trim(parts[0])] + TrimAll(parts[1..])
  {
    assert TrimAll(parts)[1..] == TrimAll(parts[1..]);
  }

  /** Trims every piece and keeps the non-blank ones (which ones, and in
      what order: `KeepNonBlankFilter`). */
  function KeepNonBlank(parts: seq<string>): (lines: seq<string>)
    ensures forall i :: 0 <= i < |lines| ==> |lines[i]| > 0
    ensures |lines| == 0 <==> AllBlank(parts)
  {
    if |parts| == 0 then []
    else
      var t := Trim(parts[0]);
      var rest := KeepNonBlank(parts[1..]);
      AllBlankCons(parts);
      if t == "" then rest else [t] + rest
  }

  /** The partner of `KeepNonBlank`: it is exactly
      `.map(l => l.trim()).filter(Boolean)` of the pieces, order kept. */
  lemma {:induction false} KeepNonBlankFilter(parts: seq<string>)
    ensures IsFilter(KeepNonBlank(parts), TrimAll(parts), NonEmpty)
    decreases |parts|
  {
    if |parts| > 0 {
      KeepNonBlankFilter(parts[1..]);
      TrimAllTail(parts);
      FilterCons(KeepNonBlank(parts[1..]), TrimAll(parts), NonEmpty);
    }
  }

  /** `text.trim().split('\n').map(l => l.trim()).filter(Boolean)`: the
      trimmed non-blank pieces of the text's lines (in order:
      `NonBlankLinesFilter`); there are none exactly when the text is all
      white space (the line break is white space itself). */
  function NonBlankLines(text: string): (lines: seq<string>)
    ensures forall i :: 0 <= i < |lines| ==> |lines[i]| > 0
    ensures |lines| == 0 <==> AllSpace(text)
  {
    var parts := Split(Trim(text), '\n');
    AllSpaceJoin(parts, '\n');
    KeepNonBlank(parts)
  }

  lemma NonBlankLinesFilter(text: string)
    ensures IsFilter(NonBlankLines(text), TrimAll(Split(Trim(text), '\n')), NonEmpty)
  {
    KeepNonBlankFilter(Split(Trim(text), '\n'));
  }

  /** A line as an export writes it: something other than white space at
      both ends, and no line break inside. */
  predicate CleanLine(l: string) {
    |l| > 0 && !IsSpace(l[0]) && !IsSpace(l[|l| - 1]) && '\n' !in l
  }

  lemma {:induction false} KeepNonBlankClean(lines: seq<string>)
    requires forall i :: 0 <= i < |lines| ==> CleanLine(lines[i])
    ensures KeepNonBlank(lines) == lines
    decreases |lines|
  {
    if |lines| > 0 {
      KeepNonBlankClean(lines[1..]);
      assert lines == [lines[0]] + lines[1..];
    }
  }

  /** Clean lines joined by line breaks come back as they were. */
  lemma NonBlankLinesOfJoin(lines: seq<string>)
    requires |lines| >= 1 && forall i :: 0 <= i < |lines| ==> CleanLine(lines[i])
    ensures NonBlankLines(Join(lines, '\n')) == lines
  {
    var text := Join(lines, '\n');
    JoinEnds(lines, '\n');
    assert Trim(text) == text;
    SplitJoin(lines, '\n');
    KeepNonBlankClean(lines);
  }

  // ------------------------------------------------------ first line

  predicate GenderAt(s: string, k: nat) {
    k + 3 <= |s| && (s[k..k + 3] == "(M)" || s[k..k + 3] == "(F)")
  }

  /** `s.replace(/\s*\(M\)|\s*\(F\)/g, '')`: scanning left to right, a
      marker together with the white space run before it is dropped. */
  function StripGender(s: string): (r: string)
    ensures |r| <= |s|
    ensures forall c :: c in r ==> c in s
    ensures '(' !in s ==> r == s
    decreases |s|
  {
    if |s| == 0 then s
    else
      var k := SpaceRun(s);
      if GenderAt(s, k) then
        var r := StripGender(s[k + 3..]);
        assert forall c :: c in s[k + 3..] ==> c in s;
        assert s[k] == s[k..k + 3][0] == '(';
        r
      else
        var r := [s[0]] + StripGender(s[1..]);
        assert forall c :: c in s[1..] ==> c in s;
        assert '(' !in s ==> '(' !in s[1..] && s == [s[0]] + s[1..];
        r
  }

  /** A head with no `(` that does not end in white space is kept as it
      is: no marker match can start inside it. */
  lemma {:induction false} StripGenderSkips(a: string, t: string)
    requires '(' !in a && (|a| == 0 || !IsSpace(a[|a| - 1]))
    ensures StripGender(a + t) == a + StripGender(t)
    decreases |a|
  {
    if |a| == 0 {
      assert a + t == t;
    } else {
      assert StripGender(a + t) == [a[0]] + StripGender(a[1..] + t) by {
        NoMarkerAtStart(a, t);
        StripGenderKeeps(a + t);
        HeadOfConcat(a, t, []);
      }
      assert StripGender(a[1..] + t) == a[1..] + StripGender(t) by {
        StripGenderSkips(a[1..], t);
      }
      HeadOfConcat(a, t, StripGender(t));
    }
  }

  /** The leading white space of `a + t` ends inside `a`, at a character
      that is not `(`. */
  lemma NoMarkerAtStart(a: string, t: string)
    requires |a| > 0 && '(' !in a && !IsSpace(a[|a| - 1])
    ensures !GenderAt(a + t, SpaceRun(a + t))
  {
    var s := a + t;
    var k := SpaceRun(s);
    assert s[|a| - 1] == a[|a| - 1];
    assert k < |a|;
    assert s[k] == a[k];
    assert k + 3 <= |s| ==> s[k..k + 3][0] == s[k];
  }

  /** With no marker after the leading white space, the first character
      stays. */
  lemma StripGenderKeeps(s: string)
    requires |s| > 0 && !GenderAt(s, SpaceRun(s))
    ensures StripGender(s) == [s[0]] + StripGender(s[1..])
  {
  }

  /** A marker with the white space before it goes. */
  lemma StripGenderMarker(gap: string, g: string, c: string)
    requires AllSpace(gap) && (g == "(M)" || g == "(F)")
    ensures StripGender(gap + g + c) == StripGender(c)
  {
    var s := gap + g + c;
    assert s == gap + (g + c);
    SpaceRunExact(gap, g + c);
    assert s[|gap|..|gap| + 3] == g;
    assert s[|gap| + 3..] == c;
  }

  /** The partner of `StripGender`: after a head with no `(` that does not
      end in white space, a marker goes with the white space before it, and
      the strip goes on through the rest (the `g` flag). */
  lemma StripGenderExact(a: string, gap: string, g: string, c: string)
    requires '(' !in a && (|a| == 0 || !IsSpace(a[|a| - 1]))
    requires AllSpace(gap) && (g == "(M)" || g == "(F)")
    ensures StripGender(a + gap + g + c) == a + StripGender(c)
  {
    assert a + gap + g + c == a + (gap + g + c);
    StripGenderSkips(a, gap + g + c);
    StripGenderMarker(gap, g, c);
  }

  // ------------------------------------------------------- move lines

  /** The lazy `.*?\)` from `j`: one past the first `)`, unless a line
      terminator comes first. */
  function CloseParen(s: string, j: nat): (e: Option<nat>)
    requires j <= |s|
    ensures e.Some? ==> j < e.value <= |s| && s[e.value - 1] == ')'
    decreases |s| - j
  {
    if j == |s| then None
    else if s[j] == ')' then Some(j + 1)
    else if IsLineTerminator(s[j]) then None
    else CloseParen(s, j + 1)
  }

  /** Where the white space starting at `p` ends. */
  function SpaceEnd(s: string, p: nat): (o: nat)
    requires p <= |s|
    ensures p <= o <= |s|
  {
    p + SpaceRun(s[p..])
  }

  /** The run from `p` to `SpaceEnd(s, p)` is white space. */
  lemma SpaceEndSpan(s: string, p: nat)
    requires p <= |s|
    ensures forall i :: p <= i < SpaceEnd(s, p) ==> IsSpace(s[i])
  {
    var k := SpaceRun(s[p..]);
    assert forall i :: p <= i < p + k ==> s[i] == s[p..][i - p];
  }

  /** End of a match of `\s*\(.*?\)` starting exactly at `p`. */
  function ParenAt(s: string, p: nat): (e: Option<nat>)
    requires p <= |s|
    ensures e.Some? ==> SpaceEnd(s, p) < e.value <= |s| && s[SpaceEnd(s, p)] == '('
  {
    var o := SpaceEnd(s, p);
    if o < |s| && s[o] == '(' then CloseParen(s, o + 1) else None
  }

  /** The leftmost match at or after `p`, removed; `s` unchanged if none. */
  function StripParenFrom(s: string, p: nat): (r: string)
    requires p <= |s|
    ensures |r| <= |s|
    ensures forall c :: c in r ==> c in s
    ensures '(' !in s ==> r == s
    decreases |s| - p
  {
    if p == |s| then s
    else match ParenAt(s, p)
      case Some(e) =>
        assert forall c :: c in s[..p] + s[e..] ==> c in s by {
          assert s == s[..p] + s[p..e] + s[e..];
        }
        assert '(' in s by {
          assert s[SpaceEnd(s, p)] == '(';
        }
        s[..p] + s[e..]
      case None => StripParenFrom(s, p + 1)
  }

  /** `s.replace(/\s*\(.*?\)/, '')`: only the first group goes. */
  function StripFirstParen(s: string): (r: string)
    ensures |r| <= |s|
    ensures forall c :: c in r ==> c in s
    ensures '(' !in s ==> r == s
  {
    StripParenFrom(s, 0)
  }

  /** The lazy `.*?\)` closes at the first `)` when the text before it
      holds no line terminator. */
  lemma {:induction false} CloseParenExact(s: string, j: nat, e: nat)
    requires j <= e < |s| && s[e] == ')'
    requires forall i :: j <= i < e ==> s[i] != ')' && !IsLineTerminator(s[i])
    ensures CloseParen(s, j) == Some(e + 1)
    decreases e - j
  {
    if j < e {
      CloseParenExact(s, j + 1, e);
    }
  }

  /** No match starts before `p` when the text before `p` holds no `(` and
      does not end in white space. */
  lemma {:induction false} StripParenSkips(s: string, q: nat, p: nat)
    requires q <= p < |s|
    requires forall i :: q <= i < p ==> s[i] != '('
    requires p == 0 || !IsSpace(s[p - 1])
    ensures StripParenFrom(s, q) == StripParenFrom(s, p)
    decreases p - q
  {
    if q < p {
      var o := SpaceEnd(s, q);
      SpaceEndSpan(s, q);
      assert o < p;
      assert ParenAt(s, q).None?;
      StripParenSkips(s, q + 1, p);
    }
  }

  /** The partner of `StripFirstParen`: the first group after a head with
      no `(` goes, together with the white space before it, and the tail
      is left alone even if it holds further groups. */
  lemma StripFirstParenExact(a: string, gap: string, b: string, c: string)
    requires '(' !in a && (|a| == 0 || !IsSpace(a[|a| - 1]))
    requires AllSpace(gap)
    requires forall i :: 0 <= i < |b| ==> b[i] != ')' && !IsLineTerminator(b[i])
    ensures StripFirstParen(a + gap + "(" + b + ")" + c) == a + c
  {
    var s := a + gap + "(" + b + ")" + c;
    var e := |a| + |gap| + 1 + |b|;
    ParenAtGroup(a, gap, b, c);
    assert forall i :: 0 <= i < |a| ==> s[i] == a[i];
    if |a| > 0 {
      assert s[|a| - 1] == a[|a| - 1];
    }
    StripParenSkips(s, 0, |a|);
    assert s[..|a|] == a && s[e + 1..] == c;
  }

  /** A group right after `a`: the match at `|a|` ends after its `)`. */
  lemma ParenAtGroup(a: string, gap: string, b: string, c: string)
    requires AllSpace(gap)
    requires forall i :: 0 <= i < |b| ==> b[i] != ')' && !IsLineTerminator(b[i])
    ensures var s := a + gap + "(" + b + ")" + c;
      ParenAt(s, |a|) == Some(|a| + |gap| + 2 + |b|)
  {
    var s := a + gap + "(" + b + ")" + c;
    var o := |a| + |gap|;
    var e := o + 1 + |b|;
    assert s[|a|..] == gap + ("(" + b + ")" + c);
    SpaceRunExact(gap, "(" + b + ")" + c);
    assert s[o] == '(' && s[e] == ')';
    assert forall i :: o + 1 <= i < e ==> s[i] == b[i - o - 1];
    CloseParenExact(s, o + 1, e);
    ParenAtOf(s, |a|, o, e);
  }

  /** `ParenAt` from its parts: white space up to `o`, `(` there, and the
      first `)` after it at `e`. */
  lemma ParenAtOf(s: string, p: nat, o: nat, e: nat)
    requires p <= o < e < |s| && SpaceEnd(s, p) == o && s[o] == '('
    requires CloseParen(s, o + 1) == Some(e + 1)
    ensures ParenAt(s, p) == Some(e + 1)
  {
    ParenAtOpen(s, p);
  }

  lemma ParenAtOpen(s: string, p: nat)
    requires p <= |s| && SpaceEnd(s, p) < |s| && s[SpaceEnd(s, p)] == '('
    ensures ParenAt(s, p) == CloseParen(s, SpaceEnd(s, p) + 1)
  {
  }

  lemma TrimKeepsChars(s: string)
    ensures forall c :: c in Trim(s) ==> c in s
  {
    var l := TrimStart(s);
    assert forall c :: c in l ==> c in s;
    assert forall c :: c in TrimEnd(l) ==> c in l;
  }

  predicate IsMoveLine(line: string) {
    |line| > 0 && (line[0] == '-' || line[0] == '*')
  }

  /** `line.slice(1).trim().split('/')[0].replace(/\s*\(.*?\)/, '').trim()`:
      never holds a `/`, nor white space at either end. */
  function MoveName(line: string): (name: string)
    requires IsMoveLine(line)
    ensures '/' !in name
    ensures |name| > 0 ==> !IsSpace(name[0]) && !IsSpace(name[|name| - 1])
  {
    var head := Split(Trim(line[1..]), '/')[0];
    var stripped := StripFirstParen(head);
    TrimKeepsChars(stripped);
    Trim(stripped)
  }

  /** A move line `- <name>` gives back the name, when the name is
      trimmed and holds neither `/` nor `(`. */
  lemma MoveNameExact(name: string)
    requires |name| > 0 && !IsSpace(name[0]) && !IsSpace(name[|name| - 1])
    requires '/' !in name && '(' !in name
    ensures MoveName("- " + name) == name
  {
    var line := "- " + name;
    assert line[1..] == " " + name;
    TrimDropsLead(" ", name);
    var parts := Split(name, '/');
    assert |parts| == 1;
    assert parts[0] == name;
  }

  // ----------------------------------------------------- nature lines

  /** `line.match(/^(\w+)\s+Nature$/i)`: the captured word. The keyword
      compares case-insensitively; `\w` and `\s` are disjoint, so the
      greedy runs split the line in one way only. */
  function NatureWord(line: string): (w: Option<string>)
    ensures w.Some? ==> |w.value| > 0 && StartsWith(line, w.value)
    ensures w.Some? ==> forall i :: 0 <= i < |w.value| ==> IsWordChar(w.value[i])
    ensures w.Some? ==> exists k :: |w.value| < k <= |line| && AllSpace(line[|w.value|..k]) && Lower(line[k..]) == "nature"
  {
    var n := WordRun(line);
    var k := SpaceRun(line[n..]);
    SpaceRunSpan(line, n);
    if n > 0 && k > 0 && Lower(line[n + k..]) == "nature" then Some(line[..n]) else None
  }

  /** Every line of the shape `<word><white space><nature in any case>`
      gives its word. */
  lemma NatureWordExact(word: string, gap: string, rest: string)
    requires |word| > 0 && forall i :: 0 <= i < |word| ==> IsWordChar(word[i])
    requires |gap| > 0 && AllSpace(gap)
    requires Lower(rest) == "nature"
    ensures NatureWord(word + gap + rest) == Some(word)
  {
    var line := word + gap + rest;
    assert line == word + (gap + rest);
    assert |rest| == 6;
    assert LowerChar(rest[0]) == Lower(rest)[0] == 'n';
    WordRunExact(word, gap + rest);
    assert line[|word|..] == gap + rest;
    SpaceRunExact(gap, rest);
    assert line[|word| + |gap|..] == rest;
    assert line[..|word|] == word;
  }

  // --------------------------------------------------------- EV lines

  /** `/^EVs:/i.test(line)`. */
  predicate IsEvLine(line: string) {
    |line| >= 4 && Lower(line[..4]) == "evs:"
  }

  predicate NoSpace(s: string) {
    forall i :: 0 <= i < |s| ==> !IsSpace(s[i])
  }

  /** A token `/^(\d+)\s+(\S+)$/` (after trimming) whose stat is `spe` in
      any case: its number (which tokens give one: `SpeTokenExact` and
      `SpeTokenShape`). */
  function SpeToken(token: string): Option<nat> {
    SpeWord(Trim(token))
  }

  /** The match of an already trimmed token. */
  function SpeWord(t: string): Option<nat> {
    var d := DigitRun(t);
    var k := SpaceRun(t[d..]);
    var stat := t[d + k..];
    if d > 0 && k > 0 && |stat| > 0 && NoSpace(stat) && Lower(stat) == "spe"
    then Some(DecimalValue(t[..d]))
    else None
  }

  /** `t` is digits up to `d`, white space up to `k`, then `spe` in any
      case, and `v` is the value of the digits. */
  predicate SpeShape(t: string, d: nat, k: nat, v: nat) {
    && 0 < d < k < |t| && AllDigits(t[..d]) && AllSpace(t[d..k])
    && Lower(t[k..]) == "spe" && v == DecimalValue(t[..d])
  }

  /** The converse of `SpeTokenExact`: a number comes only from a token
      that trims to digits, white space and `spe`, and it is the value of
      those digits. */
  lemma SpeTokenShape(token: string)
    ensures SpeToken(token).Some? ==> exists d, k :: SpeShape(Trim(token), d, k, SpeToken(token).value)
  {
    if SpeToken(token).Some? {
      SpeWordSome(Trim(token));
    }
  }

  /** What `SpeWord` checked, when it gave a number. */
  lemma SpeWordSome(t: string)
    requires SpeWord(t).Some?
    ensures var d := DigitRun(t); SpeShape(t, d, d + SpaceRun(t[d..]), SpeWord(t).value)
  {
    var d := DigitRun(t);
    var k := d + SpaceRun(t[d..]);
    assert 0 < d < k < |t| && Lower(t[k..]) == "spe";
    DigitRunSpan(t);
    SpaceRunSpan(t, d);
  }

  /** Every token of the shape `<digits><white space><spe in any case>`
      gives the value of its digits. */
  lemma SpeTokenExact(digits: string, gap: string, stat: string)
    requires |digits| > 0 && forall i :: 0 <= i < |digits| ==> IsDigit(digits[i])
    requires |gap| > 0 && AllSpace(gap)
    requires Lower(stat) == "spe"
    ensures SpeToken(digits + gap + stat) == Some(DecimalValue(digits))
  {
    var t := digits + gap + stat;
    SpeLetters(stat);
    TokenRuns(digits, gap, stat);
    TrimmedToken(digits, gap, stat);
    SpeWordOfParts(t, |digits|, |gap|);
  }

  /** `SpeWord` on a token whose runs are known. */
  lemma SpeWordOfParts(t: string, d: nat, k: nat)
    requires d + k < |t|
    requires 0 < d == DigitRun(t) && 0 < k == SpaceRun(t[d..])
    requires NoSpace(t[d + k..]) && Lower(t[d + k..]) == "spe"
    ensures SpeWord(t) == Some(DecimalValue(t[..d]))
  {
  }

  lemma TrimmedToken(digits: string, gap: string, stat: string)
    requires |digits| > 0 && |stat| > 0 && !IsSpace(stat[|stat| - 1])
    requires forall i :: 0 <= i < |digits| ==> IsDigit(digits[i])
    ensures Trim(digits + gap + stat) == digits + gap + stat
  {
    var t := digits + gap + stat;
    assert t[0] == digits[0] && t[|t| - 1] == stat[|stat| - 1];
  }

  /** The three letters of `spe`, in any case, are no white space and no
      digits. */
  lemma SpeLetters(stat: string)
    requires Lower(stat) == "spe"
    ensures |stat| == 3 && NoSpace(stat) && !IsDigit(stat[0]) && !IsSpace(stat[0])
  {
    assert |stat| == 3;
    assert LowerChar(stat[0]) == Lower(stat)[0] == 's';
    assert LowerChar(stat[1]) == Lower(stat)[1] == 'p';
    assert LowerChar(stat[2]) == Lower(stat)[2] == 'e';
  }

  lemma TokenRuns(digits: string, gap: string, stat: string)
    requires forall i :: 0 <= i < |digits| ==> IsDigit(digits[i])
    requires |gap| > 0 && AllSpace(gap)
    requires |stat| > 0 && !IsSpace(stat[0])
    ensures var t := digits + gap + stat;
      && DigitRun(t) == |digits| && t[..|digits|] == digits
      && SpaceRun(t[|digits|..]) == |gap| && t[|digits| + |gap|..] == stat
  {
    var t := digits + gap + stat;
    assert t == digits + (gap + stat);
    DigitRunExact(digits, gap + stat);
    assert t[|digits|..] == gap + stat;
    SpaceRunExact(gap, stat);
  }

  /** The speed EVs named by the tokens, in order. */
  function SpeValues(tokens: seq<string>): seq<nat> {
    if |tokens| == 0 then []
    else
      (match SpeToken(tokens[0]) case Some(v) => [v] case None => []) + SpeValues(tokens[1..])
  }

  /** The `forEach` over the tokens: the last `Spe` token wins, and with
      none the previous value stays. */
  function ScanTokens(tokens: seq<string>, ev: nat): (r: nat)
    ensures r == Last(SpeValues(tokens), ev)
  {
    if |tokens| == 0 then ev
    else
      var ev' := match SpeToken(tokens[0]) case Some(v) => v case None => ev;
      var r := ScanTokens(tokens[1..], ev');
      LastConcat(match SpeToken(tokens[0]) case Some(v) => [v] case None => [], SpeValues(tokens[1..]), ev);
      r
  }

  // ------------------------------------------------------ the pass

  /** What one later line does to the state: nature first, then EVs, then
      a move while fewer than four are held. A line changes one field at
      most; a nature line is never read as EVs or a move; the moves grow by
      the line's move name, and never past four. */
  function Step(st: ScanState, line: string): (r: ScanState)
    ensures NatureWord(line).Some? ==> r == st.(nature := NatureWord(line).value)
    ensures r.nature != st.nature ==> NatureWord(line) == Some(r.nature)
    ensures r.spdEV != st.spdEV ==> NatureWord(line).None? && IsEvLine(line)
    ensures r.moves != st.moves ==>
      && NatureWord(line).None? && !IsEvLine(line) && IsMoveLine(line)
      && |st.moves| < MoveSlots && r.moves == st.moves + [MoveName(line)]
    ensures (r.nature == st.nature && r.spdEV == st.spdEV)
         || (r.nature == st.nature && r.moves == st.moves)
         || (r.spdEV == st.spdEV && r.moves == st.moves)
    ensures |st.moves| <= MoveSlots ==> |r.moves| <= MoveSlots
  {
    match NatureWord(line)
    case Some(w) => st.(nature := w)
    case None =>
      if IsEvLine(line) then st.(spdEV := ScanTokens(Split(line[4..], '/'), st.spdEV))
      else if IsMoveLine(line) then
        if |st.moves| < MoveSlots then st.(moves := st.moves + [MoveName(line)]) else st
      else st
  }

  /** What one line contributes to each of the three readings. */
  function NatureOf(l: string): seq<string> {
    match NatureWord(l) case Some(w) => [w] case None => []
  }

  function SpeOf(l: string): seq<nat> {
    if NatureWord(l).None? && IsEvLine(l) then SpeValues(Split(l[4..], '/')) else []
  }

  function MoveOf(l: string): seq<string> {
    if NatureWord(l).None? && !IsEvLine(l) && IsMoveLine(l) then [MoveName(l)] else []
  }

  /** The move names of the lines, in order, ignoring the cut at four. */
  function MoveEntries(lines: seq<string>): seq<string> {
    if |lines| == 0 then [] else MoveOf(lines[0]) + MoveEntries(lines[1..])
  }

  /** The words of the nature lines, in order. */
  function NatureWords(lines: seq<string>): seq<string> {
    if |lines| == 0 then [] else NatureOf(lines[0]) + NatureWords(lines[1..])
  }

  /** The speed EVs of the EV lines, in order. */
  function SpeReadings(lines: seq<string>): seq<nat> {
    if |lines| == 0 then [] else SpeOf(lines[0]) + SpeReadings(lines[1..])
  }

  /** One line read by `Step`, told through its contributions. */
  lemma StepReads(st: ScanState, l: string)
    requires |st.moves| <= MoveSlots
    ensures Step(st, l).nature == Last(NatureOf(l), st.nature)
    ensures Step(st, l).spdEV == Last(SpeOf(l), st.spdEV)
    ensures Step(st, l).moves == Take(st.moves + MoveOf(l), MoveSlots)
  {
    StepReadsMoves(st, l);
  }

  lemma StepReadsMoves(st: ScanState, l: string)
    requires |st.moves| <= MoveSlots
    ensures Step(st, l).moves == Take(st.moves + MoveOf(l), MoveSlots)
  {
    if NatureWord(l).None? && !IsEvLine(l) && IsMoveLine(l) {
      StepMoveLine(st, l);
    } else {
      StepOtherLine(st, l);
      assert st.moves + [] == st.moves;
    }
  }

  lemma StepMoveLine(st: ScanState, l: string)
    requires NatureWord(l).None? && !IsEvLine(l) && IsMoveLine(l)
    ensures MoveOf(l) == [MoveName(l)]
    ensures Step(st, l).moves == if |st.moves| < MoveSlots then st.moves + [MoveName(l)] else st.moves
  {
  }

  lemma StepOtherLine(st: ScanState, l: string)
    requires !(NatureWord(l).None? && !IsEvLine(l) && IsMoveLine(l))
    ensures MoveOf(l) == [] && Step(st, l).moves == st.moves
  {
  }

  /** A move line `- <name>` adds its name and nothing else. */
  lemma MoveLineReads(name: string)
    requires |name| > 0 && !IsSpace(name[0]) && !IsSpace(name[|name| - 1])
    requires '/' !in name && '(' !in name
    ensures NatureOf("- " + name) == [] && SpeOf("- " + name) == []
    ensures MoveOf("- " + name) == [name]
  {
    var l := "- " + name;
    MoveNameExact(name);
    DashLine(name);
    assert IsMoveLine(l);
    assert MoveOf(l) == [MoveName(l)];
  }

  /** A line starting with `-` is neither a nature line nor an EV line. */
  lemma DashLine(name: string)
    ensures NatureWord("- " + name).None? && !IsEvLine("- " + name)
  {
    var l := "- " + name;
    WordRunExact("", l);
    assert "" + l == l;
    if |l| >= 4 {
      assert Lower(l[..4])[0] == LowerChar('-') == '-';
    }
  }

  /** A nature line `<word><white space>nature` adds its word and nothing
      else. */
  lemma NatureLineReads(word: string, gap: string, rest: string)
    requires |word| > 0 && forall i :: 0 <= i < |word| ==> IsWordChar(word[i])
    requires |gap| > 0 && AllSpace(gap)
    requires Lower(rest) == "nature"
    ensures NatureOf(word + gap + rest) == [word]
    ensures SpeOf(word + gap + rest) == [] && MoveOf(word + gap + rest) == []
  {
    NatureWordExact(word, gap, rest);
  }

  /** Reading the first line moves its contributions from the readings
      into the state; one lemma per reading. */
  lemma StepShiftsMoves(st: ScanState, lines: seq<string>)
    requires |lines| > 0 && |st.moves| <= MoveSlots
    ensures |Step(st, lines[0]).moves| <= MoveSlots
    ensures Take(Step(st, lines[0]).moves + MoveEntries(lines[1..]), MoveSlots)
         == Take(st.moves + MoveEntries(lines), MoveSlots)
  {
    var l := lines[0];
    StepReads(st, l);
    assert MoveEntries(lines) == MoveOf(l) + MoveEntries(lines[1..]);
    TakeTwice(st.moves, MoveOf(l), MoveEntries(lines[1..]), MoveSlots);
  }

  lemma StepShiftsNature(st: ScanState, lines: seq<string>)
    requires |lines| > 0 && |st.moves| <= MoveSlots
    ensures Last(NatureWords(lines[1..]), Step(st, lines[0]).nature) == Last(NatureWords(lines), st.nature)
  {
    StepReads(st, lines[0]);
    LastConcat(NatureOf(lines[0]), NatureWords(lines[1..]), st.nature);
  }

  lemma StepShiftsSpe(st: ScanState, lines: seq<string>)
    requires |lines| > 0 && |st.moves| <= MoveSlots
    ensures Last(SpeReadings(lines[1..]), Step(st, lines[0]).spdEV) == Last(SpeReadings(lines), st.spdEV)
  {
    StepReads(st, lines[0]);
    LastConcat(SpeOf(lines[0]), SpeReadings(lines[1..]), st.spdEV);
  }

  /** The `forEach` over the later lines: the last nature line wins, the
      last `Spe` token wins, and only the first four move lines are kept. */
  function Scan(st: ScanState, lines: seq<string>): (r: ScanState)
    requires |st.moves| <= MoveSlots
    ensures r.moves == Take(st.moves + MoveEntries(lines), MoveSlots)
    ensures r.nature == Last(NatureWords(lines), st.nature)
    ensures r.spdEV == Last(SpeReadings(lines), st.spdEV)
    decreases |lines|
  {
    if |lines| == 0 then
      assert st.moves + MoveEntries(lines) == st.moves;
      st
    else
      StepShiftsMoves(st, lines);
      StepShiftsNature(st, lines);
      StepShiftsSpe(st, lines);
      Scan(Step(st, lines[0]), lines[1..])
  }

  /** Right-pads with empty move names up to four. */
  function Pad(moves: seq<string>): (r: seq<string>)
    requires |moves| <= MoveSlots
    ensures |r| == MoveSlots && r[..|moves|] == moves
    ensures forall i :: |moves| <= i < MoveSlots ==> r[i] == ""
  {
    moves + seq(MoveSlots - |moves|, _ => "")
  }

  // ------------------------------------------------------ the parse

  /** The header line: the species, with gender markers stripped, and the
      item after the first `@` (up to a second one, if any). Neither keeps an
      `@` or white space at either end; with no `@` the item is empty. */
  function Header(l0: string): (h: (string, string))
    ensures '@' !in h.0 && '@' !in h.1
    ensures '@' !in l0 ==> h.1 == ""
    ensures |h.0| > 0 ==> !IsSpace(h.0[0]) && !IsSpace(h.0[|h.0| - 1])
    ensures |h.1| > 0 ==> !IsSpace(h.1[0]) && !IsSpace(h.1[|h.1| - 1])
  {
    var parts := Split(l0, '@');
    if '@' in l0 then
      TrimKeepsChars(parts[0]);
      TrimKeepsChars(StripGender(Trim(parts[0])));
      TrimKeepsChars(parts[1]);
      (Trim(StripGender(Trim(parts[0]))), Trim(parts[1]))
    else
      TrimKeepsChars(StripGender(l0));
      (Trim(StripGender(l0)), "")
  }

  /** The partner of `Header`: a line `<species> @ <item>` gives back both
      halves, and a line with no `@` gives the species and no item, when
      the halves are trimmed, hold no `@`, and the species holds no `(`
      (so no gender marker). */
  lemma HeaderExact(sp: string, it: string)
    requires |sp| > 0 && !IsSpace(sp[0]) && !IsSpace(sp[|sp| - 1])
    requires |it| > 0 && !IsSpace(it[0]) && !IsSpace(it[|it| - 1])
    requires '@' !in sp && '@' !in it && '(' !in sp
    ensures Header(sp + " @ " + it) == (sp, it)
    ensures Header(sp) == (sp, "")
  {
    var l0 := sp + " @ " + it;
    assert l0 == (sp + " ") + ['@'] + (" " + it);
    assert '@' !in sp + " ";
    assert '@' !in " " + it;
    SplitHead(sp + " ", " " + it, '@');
    assert Split(l0, '@') == [sp + " ", " " + it];
    assert "" + sp + " " == sp + " ";
    TrimAround("", sp, " ");
    assert " " + it + "" == " " + it;
    TrimAround(" ", it, "");
    assert l0[|sp| + 1] == '@';
  }

  /** A header line with an `@`: its halves are the text before the first
      `@` and the first piece after it, trimmed. */
  lemma HeaderSplit(h: string, r: string)
    requires '@' !in h
    ensures Header(h + "@" + r) == (Trim(StripGender(Trim(h))), Trim(Split(r, '@')[0]))
  {
    var l0 := h + "@" + r;
    assert l0 == h + ['@'] + r;
    assert l0[|h|] == '@';
    SplitHead(h, r, '@');
  }

  /** ` @ ` as the separator of a header line, regrouped for `HeaderSplit`. */
  lemma SpacedAt(h: string, r: string)
    ensures h + " @ " + r == (h + " ") + "@" + (" " + r)
  {
  }

  /** A line with two ` @ ` separators, regrouped at each `@`. */
  lemma SecondAtLine(sp: string, it: string, x: string)
    requires '@' !in it
    ensures sp + " @ " + it + " @ " + x == (sp + " ") + "@" + (" " + it + " @ " + x)
    ensures " " + it + " @ " + x == (" " + it + " ") + ['@'] + (" " + x)
    ensures '@' !in " " + it + " "
  {
  }

  /** A trimmed species, white space and a marker: no `@`, no white space
      at either end, and the marker strip leaves the species. */
  lemma GenderHead(sp: string, gap: string, g: string)
    requires |sp| > 0 && !IsSpace(sp[0]) && !IsSpace(sp[|sp| - 1])
    requires '@' !in sp && '(' !in sp
    requires AllSpace(gap) && (g == "(M)" || g == "(F)")
    ensures var head := sp + gap + g;
      && '@' !in head && !IsSpace(head[0]) && !IsSpace(head[|head| - 1])
      && StripGender(head) == sp
  {
    var head := sp + gap + g;
    assert '@' !in head by {
      assert forall i :: 0 <= i < |gap| ==> IsSpace(gap[i]);
    }
    assert head[0] == sp[0] && head[|head| - 1] == ')';
    StripGenderExact(sp, gap, g, "");
    assert head + "" == head;
  }

  /** A gender marker after the species is dropped, with or without an
      item. */
  lemma HeaderGender(sp: string, gap: string, g: string, it: string)
    requires |sp| > 0 && !IsSpace(sp[0]) && !IsSpace(sp[|sp| - 1])
    requires |it| > 0 && !IsSpace(it[0]) && !IsSpace(it[|it| - 1])
    requires '@' !in sp && '@' !in it && '(' !in sp
    requires AllSpace(gap) && (g == "(M)" || g == "(F)")
    ensures Header(sp + gap + g + " @ " + it) == (sp, it)
    ensures Header(sp + gap + g) == (sp, "")
  {
    var head := sp + gap + g;
    GenderHead(sp, gap, g);
    assert Trim(StripGender(head)) == sp by {
      TrimSpaced(sp);
    }
    assert Header(head + " @ " + it) == (sp, it) by {
      assert Trim(Split(" " + it, '@')[0]) == it by {
        assert '@' !in " " + it;
        TrimSpaced(it);
      }
      assert Trim(head + " ") == head by {
        TrimSpaced(head);
      }
      SpacedAt(head, it);
      assert '@' !in head + " ";
      HeaderSplit(head + " ", " " + it);
    }
    assert sp + gap + g + " @ " + it == head + " @ " + it;
  }

  /** Only the text between the first and the second `@` is the item
      (`parts[1]`); what follows a second `@` is dropped. */
  lemma HeaderSecondAt(sp: string, it: string, x: string)
    requires |sp| > 0 && !IsSpace(sp[0]) && !IsSpace(sp[|sp| - 1])
    requires |it| > 0 && !IsSpace(it[0]) && !IsSpace(it[|it| - 1])
    requires '@' !in sp && '@' !in it && '(' !in sp
    ensures Header(sp + " @ " + it + " @ " + x) == (sp, it)
  {
    var rest := " " + it + " @ " + x;
    SecondAtLine(sp, it, x);
    assert Trim(Split(rest, '@')[0]) == it by {
      SplitHead(" " + it + " ", " " + x, '@');
      TrimSpaced(it);
    }
    assert Trim(StripGender(Trim(sp + " "))) == sp by {
      TrimSpaced(sp);
    }
    assert '@' !in sp + " ";
    HeaderSplit(sp + " ", rest);
  }

  /** The record built from the non-blank lines: the header from the
      first, the rest read by the pass, the moves padded to four. */
  function Assemble(lines: seq<string>): (p: ParsedSet)
    requires |lines| > 0
    ensures |p.moves| == MoveSlots
    ensures p.moves == Pad(Take(MoveEntries(lines[1..]), MoveSlots))
    ensures p.nature == Last(NatureWords(lines[1..]), "")
    ensures p.spdEV == Last(SpeReadings(lines[1..]), 0)
    ensures (p.species, p.item) == Header(lines[0])
  {
    var h := Header(lines[0]);
    var st := Scan(ScanState("", [], 0), lines[1..]);
    assert [] + MoveEntries(lines[1..]) == MoveEntries(lines[1..]);
    ParsedSet(h.0, h.1, st.nature, Pad(st.moves), st.spdEV)
  }

  /** `parseSmogon(text)`: `None` exactly for text that is all white
      space; otherwise four move slots holding the first four move lines
      (empty-padded), the last nature word, the last speed EV, and the
      species and item of the first line (`HeaderExact`), the item empty
      unless that line has an `@`. */
  function ParseSmogon(text: string): (r: Option<ParsedSet>)
    ensures r.Some? <==> |NonBlankLines(text)| > 0
    ensures r.None? <==> AllSpace(text)
    ensures r.Some? ==>
      var p, lines := r.value, NonBlankLines(text);
      && |p.moves| == MoveSlots
      && p.moves == Pad(Take(MoveEntries(lines[1..]), MoveSlots))
      && p.nature == Last(NatureWords(lines[1..]), "")
      && p.spdEV == Last(SpeReadings(lines[1..]), 0)
      && (p.species, p.item) == Header(lines[0])
      && ('@' !in lines[0] ==> p.item == "")
      // the first line's halves: no `@` left in either, no white space at either end
      && '@' !in p.species && '@' !in p.item
      && (|p.species| > 0 ==> !IsSpace(p.species[0]) && !IsSpace(p.species[|p.species| - 1]))
      && (|p.item| > 0 ==> !IsSpace(p.item[0]) && !IsSpace(p.item[|p.item| - 1]))
  {
    var lines := NonBlankLines(text);
    if |lines| == 0 then None else Some(Assemble(lines))
  }

  /** An export of clean lines is read line by line: the first gives the
      header, the rest go through the pass. */
  lemma ParseOfLines(lines: seq<string>)
    requires |lines| >= 1 && forall i :: 0 <= i < |lines| ==> CleanLine(lines[i])
    ensures ParseSmogon(Join(lines, '\n')) == Some(Assemble(lines))
  {
    NonBlankLinesOfJoin(lines);
  }

  // --------------------------------------------- the cut at four moves

  lemma {:induction false} MoveEntriesConcat(a: seq<string>, b: seq<string>)
    ensures MoveEntries(a + b) == MoveEntries(a) + MoveEntries(b)
  {
    if |a| > 0 {
      var x, u, v := MoveOf(a[0]), MoveEntries(a[1..]), MoveEntries(b);
      calc {
        MoveEntries(a + b);
        { HeadOfConcat(a, b, []); }
        x + MoveEntries(a[1..] + b);
        { MoveEntriesConcat(a[1..], b); }
        x + (u + v);
        (x + u) + v;
      }
    } else {
      assert a + b == b;
    }
  }

  /** After four move lines, further lines never change the moves. */
  lemma LaterMovesIgnored(lines: seq<string>, more: seq<string>)
    requires |MoveEntries(lines)| >= MoveSlots
    ensures Scan(ScanState("", [], 0), lines + more).moves == Scan(ScanState("", [], 0), lines).moves
  {
    MoveEntriesConcat(lines, more);
    assert [] + MoveEntries(lines + more) == MoveEntries(lines) + MoveEntries(more);
    assert [] + MoveEntries(lines) == MoveEntries(lines);
    TakeFull(MoveEntries(lines), MoveEntries(more), MoveSlots);
  }
}
