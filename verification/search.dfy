/** The two autocompletes of app.js: `buildSuggestions` for the main search
    box (saved custom sets, set names, species groups) and the move list
    offered under each move input of the custom-set form. */
module Search {
  import opened Text
  import opened Sequences
  import opened Lookup
  import Alarms

  /** A saved custom set (the fields the search reads). */
  datatype SavedSet = SavedSet(id: string, species: string, nature: string, item: string, moves: seq<string>)

  /** One autocomplete entry: a saved custom set, a named set of the data,
      or a species with the number of its sets. */
  datatype Suggestion =
    | Custom(caption: string, nature: string, id: string, alarm: bool)
    | Named(name: string, species: string)
    | Group(species: string, setCount: nat)

  const MaxSuggestions: nat := 16
  const CustomSuffix: string := " (Custom)"

  /** The string recorded in `seen` when an entry is emitted. */
  function Tag(e: Suggestion): string {
    match e
    case Custom(_, _, id, _) => "c:" + id
    case Named(name, _) => name
    case Group(sp, _) => "sp:" + sp
  }

  function Tags(out: seq<Suggestion>): set<string> {
    set i | 0 <= i < |out| :: Tag(out[i])
  }

  predicate DistinctTags(out: seq<Suggestion>) {
    forall i, j :: 0 <= i < j < |out| ==> Tag(out[i]) != Tag(out[j])
  }

  /** The `seen` set and the `out` list of `buildSuggestions`. */
  datatype Acc = Acc(seen: set<string>, out: seq<Suggestion>)

  /** `seen` records exactly the emitted entries, none of them twice. */
  predicate Tracked(acc: Acc) {
    acc.seen == Tags(acc.out) && DistinctTags(acc.out)
  }

  /** `q` is the query as the search compares it: trimmed, lower-cased. */
  function Normalize(query: string): (q: string)
    ensures |q| == 0 <==> AllSpace(query)
  {
    Lower(Trim(query))
  }

  /** Whether an entry passes its stage's test against the query. */
  predicate Matches(e: Suggestion, q: string, prefix: bool) {
    match e
    case Custom(caption, _, _, _) => Contains(Lower(caption), q)
    case Named(name, _) => if prefix then StartsWith(Lower(name), q) else Contains(Lower(name), q)
    case Group(sp, _) => StartsWith(Lower(sp), q)
  }

  /** One step of a stage: emit `e` when it passes and its tag is new. */
  function Push(acc: Acc, ok: bool, e: Suggestion): Acc {
    if ok && Tag(e) !in acc.seen then Acc(acc.seen + {Tag(e)}, acc.out + [e]) else acc
  }

  lemma PushTracked(acc: Acc, ok: bool, e: Suggestion)
    requires Tracked(acc)
    ensures Tracked(Push(acc, ok, e))
  {
    if ok && Tag(e) !in acc.seen {
      var out := acc.out + [e];
      assert forall i :: 0 <= i < |acc.out| ==> out[i] == acc.out[i];
      assert out[|acc.out|] == e;
      assert Tags(out) == Tags(acc.out) + {Tag(e)} by {
        forall t | t in Tags(out) ensures t in Tags(acc.out) + {Tag(e)} {
          var i :| 0 <= i < |out| && Tag(out[i]) == t;
          if i < |acc.out| { assert Tag(acc.out[i]) in Tags(acc.out); }
        }
        forall t | t in Tags(acc.out) ensures t in Tags(out) {
          var i :| 0 <= i < |acc.out| && Tag(acc.out[i]) == t;
          assert Tag(out[i]) == t;
        }
        assert Tag(out[|acc.out|]) in Tags(out);
      }
      forall i | 0 <= i < |acc.out| ensures Tag(out[i]) != Tag(e) {
        assert Tag(acc.out[i]) in Tags(acc.out);
      }
    }
  }

  /** One `forEach` stage over candidate entries: the list only grows at
      its end; what it gains passes the test, comes from the candidates and
      was not seen before; and every passing candidate has been seen by the
      end of the stage. */
  function Sweep(acc: Acc, cands: seq<Suggestion>, q: string, prefix: bool): (r: Acc)
    requires Tracked(acc)
    ensures Tracked(r)
    ensures acc.seen <= r.seen
    ensures |acc.out| <= |r.out| && r.out[..|acc.out|] == acc.out
    ensures forall i :: |acc.out| <= i < |r.out| ==>
      r.out[i] in cands && Matches(r.out[i], q, prefix) && Tag(r.out[i]) !in acc.seen
    ensures forall c :: c in cands && Matches(c, q, prefix) ==> Tag(c) in r.seen
    decreases |cands|
  {
    if |cands| == 0 then acc
    else
      var a := Push(acc, Matches(cands[0], q, prefix), cands[0]);
      PushTracked(acc, Matches(cands[0], q, prefix), cands[0]);
      var r := Sweep(a, cands[1..], q, prefix);
      assert forall c :: c in cands ==> c == cands[0] || c in cands[1..];
      assert r.out[..|acc.out|] == acc.out by {
        assert r.out[..|a.out|][..|acc.out|] == a.out[..|acc.out|];
      }
      r
  }

  /** Of candidates sharing a tag, the first that passes is the one a
      stage shows. */
  lemma {:induction false} SweepFirstWins(acc: Acc, cands: seq<Suggestion>, q: string, prefix: bool)
    requires Tracked(acc)
    ensures forall i :: |acc.out| <= i < |Sweep(acc, cands, q, prefix).out| ==>
      FirstOfTag(cands, Sweep(acc, cands, q, prefix).out[i], q, prefix)
    decreases |cands|
  {
    if |cands| > 0 {
      var a := Push(acc, Matches(cands[0], q, prefix), cands[0]);
      PushTracked(acc, Matches(cands[0], q, prefix), cands[0]);
      SweepFirstWins(a, cands[1..], q, prefix);
      var r := Sweep(a, cands[1..], q, prefix);
      assert Sweep(acc, cands, q, prefix) == r;
      assert Matches(cands[0], q, prefix) ==> Tag(cands[0]) in a.seen;
      FirstOfTagStep(cands, acc.out, a.out, r.out, a.seen, q, prefix);
    }
  }

  /** `e` is a candidate, and no candidate before it passes the test with
      the same tag: the one a stage keeps, since `seen` is checked before
      each push. */
  ghost predicate FirstOfTag(cands: seq<Suggestion>, e: Suggestion, q: string, prefix: bool) {
    exists k :: 0 <= k < |cands| && cands[k] == e && NoEarlierTag(cands, k, e, q, prefix)
  }

  predicate NoEarlierTag(cands: seq<Suggestion>, k: int, e: Suggestion, q: string, prefix: bool)
    requires k <= |cands|
  {
    forall j :: 0 <= j < k ==> !(Matches(cands[j], q, prefix) && Tag(cands[j]) == Tag(e))
  }

  lemma FirstOfTagHead(cands: seq<Suggestion>, q: string, prefix: bool)
    requires |cands| > 0
    ensures FirstOfTag(cands, cands[0], q, prefix)
  {
    assert NoEarlierTag(cands, 0, cands[0], q, prefix);
  }

  /** One step of `Sweep`, on the lists alone: `mid` is `before` with at
      most the head candidate pushed, `after` extends `mid` with entries
      first of their tag in the tail and unseen at `mid`. */
  lemma FirstOfTagStep(cands: seq<Suggestion>, before: seq<Suggestion>, mid: seq<Suggestion>,
                       after: seq<Suggestion>, seen: set<string>, q: string, prefix: bool)
    requires |cands| > 0
    requires mid == before || mid == before + [cands[0]]
    requires |mid| <= |after| && after[..|mid|] == mid
    requires Matches(cands[0], q, prefix) ==> Tag(cands[0]) in seen
    requires forall i :: |mid| <= i < |after| ==> FirstOfTag(cands[1..], after[i], q, prefix) && Tag(after[i]) !in seen
    ensures forall i :: |before| <= i < |after| ==> FirstOfTag(cands, after[i], q, prefix)
  {
    forall i | |before| <= i < |after| ensures FirstOfTag(cands, after[i], q, prefix) {
      if i < |mid| {
        assert after[..|mid|][i] == mid[i] == cands[0];
        FirstOfTagHead(cands, q, prefix);
      } else {
        FirstOfTagCons(cands, after[i], q, prefix);
      }
    }
  }

  /** A first-of-tag candidate of the tail stays first when the head does
      not pass with the same tag. */
  lemma FirstOfTagCons(cands: seq<Suggestion>, e: Suggestion, q: string, prefix: bool)
    requires |cands| > 0 && FirstOfTag(cands[1..], e, q, prefix)
    requires !(Matches(cands[0], q, prefix) && Tag(cands[0]) == Tag(e))
    ensures FirstOfTag(cands, e, q, prefix)
  {
    var k :| 0 <= k < |cands[1..]| && cands[1..][k] == e && NoEarlierTag(cands[1..], k, e, q, prefix);
    forall j | 0 <= j < k + 1 ensures !(Matches(cands[j], q, prefix) && Tag(cands[j]) == Tag(e)) {
      if j > 0 { assert cands[j] == cands[1..][j - 1]; }
    }
    assert NoEarlierTag(cands, k + 1, e, q, prefix);
  }

  /** What one stage appends follows its candidates' order. */
  lemma {:induction false} SweepOrder(acc: Acc, cands: seq<Suggestion>, q: string, prefix: bool)
    requires Tracked(acc)
    ensures Subsequence(Sweep(acc, cands, q, prefix).out[|acc.out|..], cands)
    decreases |cands|
  {
    if |cands| > 0 {
      var a := Push(acc, Matches(cands[0], q, prefix), cands[0]);
      PushTracked(acc, Matches(cands[0], q, prefix), cands[0]);
      SweepOrder(a, cands[1..], q, prefix);
      var r := Sweep(a, cands[1..], q, prefix);
      assert Sweep(acc, cands, q, prefix) == r;
      SubsequenceStep(cands, acc.out, a.out, r.out);
    }
  }

  /** The list step behind `SweepOrder`: pushing at most the head, then
      appending a subsequence of the tail, appends a subsequence. */
  lemma SubsequenceStep(cands: seq<Suggestion>, before: seq<Suggestion>, mid: seq<Suggestion>, after: seq<Suggestion>)
    requires |cands| > 0
    requires mid == before || mid == before + [cands[0]]
    requires |mid| <= |after| && after[..|mid|] == mid
    requires Subsequence(after[|mid|..], cands[1..])
    ensures Subsequence(after[|before|..], cands)
  {
    var mine := after[|before|..];
    if |mid| > |before| {
      assert after[..|mid|][|before|] == mid[|before|] == cands[0];
      assert mine == [cands[0]] + after[|mid|..];
      assert mine[1..] == after[|mid|..];
    }
  }

  // ------------------------------------------------------------ candidates

  /** The entry a saved set offers: labelled `<species> (Custom)`, with
      the alarm flag of its moves and item. */
  function CustomEntry(s: SavedSet): Suggestion {
    Custom(s.species + CustomSuffix, s.nature, s.id, Alarms.HasAlarm(s.moves, s.item))
  }

  function NameEntry(p: PalaceSet): Suggestion {
    Named(p.name, p.species)
  }

  function CustomEntries(saved: seq<SavedSet>): (r: seq<Suggestion>)
    ensures |r| == |saved|
  {
    seq(|saved|, i requires 0 <= i < |saved| => CustomEntry(saved[i]))
  }

  function NameEntries(data: seq<PalaceSet>): (r: seq<Suggestion>)
    ensures |r| == |data|
  {
    seq(|data|, i requires 0 <= i < |data| => NameEntry(data[i]))
  }

  /** One group entry per species, in sorted species order. */
  function GroupEntries(data: seq<PalaceSet>): (r: seq<Suggestion>)
    ensures |r| == |SortedSpecies(data)|
    ensures forall i :: 0 <= i < |r| ==>
      r[i] == Group(SortedSpecies(data)[i], SetCount(BySpecies(data), SortedSpecies(data)[i]))
  {
    var keys := SortedSpecies(data);
    var m := BySpecies(data);
    seq(|keys|, i requires 0 <= i < |keys| => Group(keys[i], SetCount(m, keys[i])))
  }

  // ------------------------------------------------------------- stages

  /** The emitted list before `slice(0, 16)`; `q` is already normalised.
      `seen` ends up holding exactly the tags of the list, none twice (its
      four stages in order: `CollectLayout`). */
  function Collect(saved: seq<SavedSet>, data: seq<PalaceSet>, q: string): (r: Acc)
    ensures Tracked(r)
  {
    var a0 := Acc({}, []);
    var a1 := Sweep(a0, CustomEntries(saved), q, true);
    var a2 := Sweep(a1, NameEntries(data), q, true);
    if HasDigit(q) then a2
    else
      var a3 := Sweep(a2, GroupEntries(data), q, true);
      Sweep(a3, NameEntries(data), q, false)
  }

  // ------------------------------------------------------- what is shown

  /** An entry the search may show for `q`: a saved set whose label
      contains `q`; a named set whose lower-cased name starts with `q`, or
      (for a query without digits) contains it; or (for a query without
      digits) a species starting with `q`, with the number of its sets. */
  predicate Offered(e: Suggestion, saved: seq<SavedSet>, data: seq<PalaceSet>, q: string) {
    match e
    case Custom(caption, _, _, _) =>
      (exists k :: 0 <= k < |saved| && e == CustomEntry(saved[k])) && Contains(Lower(caption), q)
    case Named(name, _) =>
      (exists k :: 0 <= k < |data| && e == NameEntry(data[k]))
      && (StartsWith(Lower(name), q) || (!HasDigit(q) && Contains(Lower(name), q)))
    case Group(sp, n) =>
      !HasDigit(q) && sp in BySpecies(data) && n == |BySpecies(data)[sp]| && n >= 1
      && StartsWith(Lower(sp), q)
  }

  /** The position class of an entry: saved sets, then names starting with
      `q`, then species, then names merely containing `q`. */
  function Rank(e: Suggestion, q: string): nat {
    match e
    case Custom(_, _, _, _) => 0
    case Named(name, _) => if StartsWith(Lower(name), q) then 1 else 3
    case Group(_, _) => 2
  }

  /** Everything that passes a stage's test is shown or shadowed by an
      entry with the same tag. */
  predicate Complete(saved: seq<SavedSet>, data: seq<PalaceSet>, q: string, out: seq<Suggestion>) {
    && (forall k :: 0 <= k < |saved| && Contains(Lower(saved[k].species + CustomSuffix), q) ==>
          "c:" + saved[k].id in Tags(out))
    && (forall k :: 0 <= k < |data| && StartsWith(Lower(data[k].name), q) ==> data[k].name in Tags(out))
    && (!HasDigit(q) ==>
          && (forall sp :: sp in BySpecies(data) && StartsWith(Lower(sp), q) ==> "sp:" + sp in Tags(out))
          && (forall k :: 0 <= k < |data| && Contains(Lower(data[k].name), q) ==> data[k].name in Tags(out)))
  }

  predicate Ranked(out: seq<Suggestion>, q: string) {
    forall i, j :: 0 <= i < j < |out| ==> Rank(out[i], q) <= Rank(out[j], q)
  }

  /** `buildSuggestions(query)`: nothing for a blank query; at most 16
      entries, no two with the same tag, each one offered for the query,
      in rank order; and when fewer than 16 come back, nothing that passes
      a stage's test is missing. */
  function BuildSuggestions(saved: seq<SavedSet>, data: seq<PalaceSet>, query: string): (r: seq<Suggestion>)
    ensures AllSpace(query) ==> r == []
    ensures |r| <= MaxSuggestions
    ensures DistinctTags(r)
    ensures forall i :: 0 <= i < |r| ==> Offered(r[i], saved, data, Normalize(query))
    ensures Ranked(r, Normalize(query))
    ensures |r| < MaxSuggestions && !AllSpace(query) ==> Complete(saved, data, Normalize(query), r)
  {
    var q := Normalize(query);
    if |q| == 0 then []
    else
      var out := Collect(saved, data, q).out;
      CollectFacts(saved, data, q);
      TakeKeeps(out, saved, data, q);
      Take(out, MaxSuggestions)
  }

  /** Cutting the list at 16 keeps its facts; below 16 nothing is cut. */
  lemma TakeKeeps(out: seq<Suggestion>, saved: seq<SavedSet>, data: seq<PalaceSet>, q: string)
    requires DistinctTags(out) && Ranked(out, q)
    requires forall i :: 0 <= i < |out| ==> Offered(out[i], saved, data, q)
    requires Complete(saved, data, q, out)
    ensures var r := Take(out, MaxSuggestions);
      && |r| <= MaxSuggestions && DistinctTags(r) && Ranked(r, q)
      && (forall i :: 0 <= i < |r| ==> Offered(r[i], saved, data, q))
      && (|r| < MaxSuggestions ==> Complete(saved, data, q, r))
  {
    var r := Take(out, MaxSuggestions);
    assert forall i :: 0 <= i < |r| ==> r[i] == out[i];
    if |r| < MaxSuggestions {
      assert r == out;
    }
  }

  /** Species entries come in sorted species order. */
  predicate GroupsSorted(r: seq<Suggestion>) {
    forall i, j :: 0 <= i < j < |r| && r[i].Group? && r[j].Group? ==> Below(r[i].species, r[j].species)
  }

  /** Name entries of one stage come in the order of the data. */
  ghost predicate NamesInDataOrder(r: seq<Suggestion>, data: seq<PalaceSet>, q: string) {
    forall i, j :: 0 <= i < j < |r| && r[i].Named? && r[j].Named? && Rank(r[i], q) == Rank(r[j], q) ==>
      Before(NameEntries(data), r[i], r[j])
  }

  /** Saved-set entries come in the order of the saved sets. */
  ghost predicate CustomsInSavedOrder(r: seq<Suggestion>, saved: seq<SavedSet>) {
    forall i, j :: 0 <= i < j < |r| && r[i].Custom? && r[j].Custom? ==> Before(CustomEntries(saved), r[i], r[j])
  }

  /** The order inside each stage: the suggestions are the first entries
      of the emitted list, all of them below 16; species come sorted; and
      saved sets and the names of one stage keep their source order. */
  lemma BuildSuggestionsOrder(saved: seq<SavedSet>, data: seq<PalaceSet>, query: string)
    ensures var r := BuildSuggestions(saved, data, query);
      !AllSpace(query) ==> var out := Collect(saved, data, Normalize(query)).out;
        |r| <= |out| && r == out[..|r|] && (|r| < MaxSuggestions ==> r == out)
    ensures GroupsSorted(BuildSuggestions(saved, data, query))
    ensures NamesInDataOrder(BuildSuggestions(saved, data, query), data, Normalize(query))
    ensures CustomsInSavedOrder(BuildSuggestions(saved, data, query), saved)
  {
    var q := Normalize(query);
    var r := BuildSuggestions(saved, data, query);
    if |q| > 0 {
      var out := Collect(saved, data, q).out;
      assert r == Take(out, MaxSuggestions);
      CollectLayout(saved, data, q);
      var n1, n2, n3 :| Layout(out, n1, n2, n3, saved, data, q);
      LayoutGroupsSorted(out, n1, n2, n3, saved, data, q);
      LayoutNamesInOrder(out, n1, n2, n3, saved, data, q);
      LayoutCustomsInOrder(out, n1, n2, n3, saved, data, q);
      OrdersOfPrefix(out, |r|, saved, data, q);
      assert out[..|r|] == r;
    }
  }

  /** The three orders hold of every prefix of a list that has them. */
  lemma OrdersOfPrefix(out: seq<Suggestion>, m: nat, saved: seq<SavedSet>, data: seq<PalaceSet>, q: string)
    requires m <= |out|
    requires GroupsSorted(out) && NamesInDataOrder(out, data, q) && CustomsInSavedOrder(out, saved)
    ensures GroupsSorted(out[..m]) && NamesInDataOrder(out[..m], data, q) && CustomsInSavedOrder(out[..m], saved)
  {
    var r := out[..m];
    assert forall i :: 0 <= i < m ==> r[i] == out[i];
  }

  lemma LayoutGroupsSorted(out: seq<Suggestion>, n1: nat, n2: nat, n3: nat, saved: seq<SavedSet>, data: seq<PalaceSet>, q: string)
    requires Layout(out, n1, n2, n3, saved, data, q)
    ensures GroupsSorted(out)
  {
    LayoutRanks(out, n1, n2, n3, saved, data, q);
    var sub := out[n2..n3];
    SubsequenceBefore(sub, GroupEntries(data));
    forall i, j | 0 <= i < j < |out| && out[i].Group? && out[j].Group?
      ensures Below(out[i].species, out[j].species)
    {
      assert sub[i - n2] == out[i] && sub[j - n2] == out[j];
      GroupsBefore(data, out[i], out[j]);
    }
  }

  lemma LayoutNamesInOrder(out: seq<Suggestion>, n1: nat, n2: nat, n3: nat, saved: seq<SavedSet>, data: seq<PalaceSet>, q: string)
    requires Layout(out, n1, n2, n3, saved, data, q)
    ensures NamesInDataOrder(out, data, q)
  {
    LayoutRanks(out, n1, n2, n3, saved, data, q);
    var front, back := out[n1..n2], out[n3..];
    SubsequenceBefore(front, NameEntries(data));
    SubsequenceBefore(back, NameEntries(data));
    forall i, j | 0 <= i < j < |out| && out[i].Named? && out[j].Named? && Rank(out[i], q) == Rank(out[j], q)
      ensures Before(NameEntries(data), out[i], out[j])
    {
      if Rank(out[i], q) == 1 {
        assert front[i - n1] == out[i] && front[j - n1] == out[j];
      } else {
        assert back[i - n3] == out[i] && back[j - n3] == out[j];
      }
    }
  }

  lemma LayoutCustomsInOrder(out: seq<Suggestion>, n1: nat, n2: nat, n3: nat, saved: seq<SavedSet>, data: seq<PalaceSet>, q: string)
    requires Layout(out, n1, n2, n3, saved, data, q)
    ensures CustomsInSavedOrder(out, saved)
  {
    LayoutRanks(out, n1, n2, n3, saved, data, q);
    var sub := out[..n1];
    SubsequenceBefore(sub, CustomEntries(saved));
    forall i, j | 0 <= i < j < |out| && out[i].Custom? && out[j].Custom?
      ensures Before(CustomEntries(saved), out[i], out[j])
    {
      assert sub[i] == out[i] && sub[j] == out[j];
    }
  }

  /** Where each kind of entry sits in a laid-out list. */
  lemma LayoutRanks(out: seq<Suggestion>, n1: nat, n2: nat, n3: nat, saved: seq<SavedSet>, data: seq<PalaceSet>, q: string)
    requires Layout(out, n1, n2, n3, saved, data, q)
    ensures forall i :: 0 <= i < |out| && out[i].Custom? ==> i < n1
    ensures forall i :: 0 <= i < |out| && out[i].Group? ==> n2 <= i < n3
    ensures forall i :: 0 <= i < |out| && out[i].Named? && Rank(out[i], q) == 1 ==> n1 <= i < n2
    ensures forall i :: 0 <= i < |out| && out[i].Named? && Rank(out[i], q) == 3 ==> n3 <= i
  {
    BandRanks(out, 0, n1, saved, data, q, 0);
    BandRanks(out, n1, n2, saved, data, q, 1);
    BandRanks(out, n2, n3, saved, data, q, 2);
    BandRanks(out, n3, |out|, saved, data, q, 3);
  }

  lemma BandRanks(out: seq<Suggestion>, lo: nat, hi: nat, saved: seq<SavedSet>, data: seq<PalaceSet>, q: string, k: nat)
    requires Band(out, lo, hi, saved, data, q, k)
    ensures forall i :: lo <= i < hi ==> Rank(out[i], q) == k
  {
  }

  /** Two group entries in order in `GroupEntries` are in species order. */
  lemma GroupsBefore(data: seq<PalaceSet>, a: Suggestion, b: Suggestion)
    requires Before(GroupEntries(data), a, b)
    ensures Below(a.species, b.species)
  {
    GroupEntriesKeyed(data);
    SortedBefore(GroupEntries(data), SortedSpecies(data), a, b);
  }

  lemma GroupEntriesKeyed(data: seq<PalaceSet>)
    ensures var g, keys := GroupEntries(data), SortedSpecies(data);
      Sorted(keys) && |g| == |keys| && forall i :: 0 <= i < |g| ==> g[i].Group? && g[i].species == keys[i]
  {
  }

  lemma SortedBefore(g: seq<Suggestion>, keys: seq<string>, a: Suggestion, b: Suggestion)
    requires Sorted(keys) && |g| == |keys| && forall i :: 0 <= i < |g| ==> g[i].Group? && g[i].species == keys[i]
    requires Before(g, a, b)
    ensures Below(a.species, b.species)
  {
    var ki, kj :| 0 <= ki < kj < |g| && g[ki] == a && g[kj] == b;
    assert a.species == keys[ki] && b.species == keys[kj];
  }

  /** Positions `lo` to `hi` of `out` hold offered entries of rank `k`. */
  predicate Band(out: seq<Suggestion>, lo: nat, hi: nat, saved: seq<SavedSet>, data: seq<PalaceSet>, q: string, k: nat) {
    hi <= |out| && forall i :: lo <= i < hi ==> Offered(out[i], saved, data, q) && Rank(out[i], q) == k
  }

  lemma BandExtends(a: seq<Suggestion>, b: seq<Suggestion>, lo: nat, hi: nat, saved: seq<SavedSet>, data: seq<PalaceSet>, q: string, k: nat)
    requires Band(a, lo, hi, saved, data, q, k) && |a| <= |b| && b[..|a|] == a
    ensures Band(b, lo, hi, saved, data, q, k)
  {
    forall i | lo <= i < hi ensures b[i] == a[i] {
      assert b[..|a|][i] == b[i];
    }
  }

  /** Four consecutive bands of ranks 0 to 3 covering the list make every
      entry offered and the list ranked. */
  lemma BandsRanked(out: seq<Suggestion>, n1: nat, n2: nat, n3: nat, saved: seq<SavedSet>, data: seq<PalaceSet>, q: string)
    requires n1 <= n2 <= n3
    requires Band(out, 0, n1, saved, data, q, 0) && Band(out, n1, n2, saved, data, q, 1)
    requires Band(out, n2, n3, saved, data, q, 2) && Band(out, n3, |out|, saved, data, q, 3)
    ensures forall i :: 0 <= i < |out| ==> Offered(out[i], saved, data, q)
    ensures Ranked(out, q)
  {
  }

  lemma EmptyTracked()
    ensures Tracked(Acc({}, []))
  {
  }

  lemma CustomBand(saved: seq<SavedSet>, data: seq<PalaceSet>, q: string, a1: Acc)
    requires Tracked(Acc({}, []))
    requires a1 == Sweep(Acc({}, []), CustomEntries(saved), q, true)
    ensures Band(a1.out, 0, |a1.out|, saved, data, q, 0)
  {
    forall i | 0 <= i < |a1.out| ensures Offered(a1.out[i], saved, data, q) && Rank(a1.out[i], q) == 0 {
      var e := a1.out[i];
      assert e in CustomEntries(saved);
      var k :| 0 <= k < |saved| && CustomEntries(saved)[k] == e;
      assert e == CustomEntry(saved[k]);
    }
  }

  lemma NameBand(saved: seq<SavedSet>, data: seq<PalaceSet>, q: string, a1: Acc, a2: Acc)
    requires Tracked(a1)
    requires a2 == Sweep(a1, NameEntries(data), q, true)
    ensures Band(a2.out, |a1.out|, |a2.out|, saved, data, q, 1)
  {
    forall i | |a1.out| <= i < |a2.out| ensures Offered(a2.out[i], saved, data, q) && Rank(a2.out[i], q) == 1 {
      var e := a2.out[i];
      assert e in NameEntries(data);
      var k :| 0 <= k < |data| && NameEntries(data)[k] == e;
      assert e == NameEntry(data[k]);
    }
  }

  lemma GroupBand(saved: seq<SavedSet>, data: seq<PalaceSet>, q: string, a2: Acc, a3: Acc)
    requires !HasDigit(q) && Tracked(a2)
    requires a3 == Sweep(a2, GroupEntries(data), q, true)
    ensures Band(a3.out, |a2.out|, |a3.out|, saved, data, q, 2)
  {
    var keys := SortedSpecies(data);
    var m := BySpecies(data);
    forall i | |a2.out| <= i < |a3.out| ensures Offered(a3.out[i], saved, data, q) && Rank(a3.out[i], q) == 2 {
      var e := a3.out[i];
      assert e in GroupEntries(data);
      var k :| 0 <= k < |keys| && GroupEntries(data)[k] == e;
      assert keys[k] in keys;
      SetsOfNonEmpty(data, keys[k]);
    }
  }

  /** A species that is a key of `bySpecies` has at least one set. */
  lemma SetsOfNonEmpty(data: seq<PalaceSet>, sp: string)
    requires sp in Species(data)
    ensures |SetsOf(data, sp)| >= 1
  {
    var i :| 0 <= i < |data| && data[i].species == sp;
    assert data[i] in SetsOf(data, sp);
  }

  lemma InfixBand(saved: seq<SavedSet>, data: seq<PalaceSet>, q: string, a2: Acc, a3: Acc, a4: Acc)
    requires !HasDigit(q) && Tracked(a2) && Tracked(a3)
    requires forall c :: c in NameEntries(data) && Matches(c, q, true) ==> Tag(c) in a2.seen
    requires a2.seen <= a3.seen
    requires a4 == Sweep(a3, NameEntries(data), q, false)
    ensures Band(a4.out, |a3.out|, |a4.out|, saved, data, q, 3)
  {
    forall i | |a3.out| <= i < |a4.out| ensures Offered(a4.out[i], saved, data, q) && Rank(a4.out[i], q) == 3 {
      var e := a4.out[i];
      assert e in NameEntries(data);
      var k :| 0 <= k < |data| && NameEntries(data)[k] == e;
      assert e == NameEntry(data[k]);
      assert !Matches(e, q, true);
    }
  }

  /** The four stages of the list: saved sets up to `n1`, names starting
      with the query up to `n2`, species up to `n3`, names merely containing
      it after that; each stage's entries of its rank, offered for the
      query, and in the order of the stage's candidates; and for a query
      with a digit, only the first two stages. */
  ghost predicate Layout(out: seq<Suggestion>, n1: nat, n2: nat, n3: nat, saved: seq<SavedSet>, data: seq<PalaceSet>, q: string) {
    && n1 <= n2 <= n3 <= |out|
    && Band(out, 0, n1, saved, data, q, 0) && Band(out, n1, n2, saved, data, q, 1)
    && Band(out, n2, n3, saved, data, q, 2) && Band(out, n3, |out|, saved, data, q, 3)
    && Subsequence(out[..n1], CustomEntries(saved)) && Subsequence(out[n1..n2], NameEntries(data))
    && Subsequence(out[n2..n3], GroupEntries(data)) && Subsequence(out[n3..], NameEntries(data))
    && (HasDigit(q) ==> n2 == |out|)
  }

  /** Slices inside a prefix are slices of the longer list. */
  lemma PrefixSlice(a: seq<Suggestion>, b: seq<Suggestion>, lo: nat, hi: nat)
    requires |a| <= |b| && b[..|a|] == a && lo <= hi <= |a|
    ensures b[lo..hi] == a[lo..hi]
  {
    forall i | lo <= i < hi ensures b[i] == a[i] {
      assert b[..|a|][i] == b[i];
    }
  }

  lemma CollectLayout(saved: seq<SavedSet>, data: seq<PalaceSet>, q: string)
    ensures exists n1, n2, n3 :: Layout(Collect(saved, data, q).out, n1, n2, n3, saved, data, q)
  {
    if HasDigit(q) {
      LayoutWithDigit(saved, data, q);
    } else {
      LayoutWithoutDigit(saved, data, q);
    }
  }

  /** A query with a digit runs the first two stages only. */
  lemma LayoutWithDigit(saved: seq<SavedSet>, data: seq<PalaceSet>, q: string)
    requires HasDigit(q)
    ensures exists n1, n2, n3 :: Layout(Collect(saved, data, q).out, n1, n2, n3, saved, data, q)
  {
    EmptyTracked();
    var a1 := Sweep(Acc({}, []), CustomEntries(saved), q, true);
    var a2 := Sweep(a1, NameEntries(data), q, true);
    LayoutFront(saved, data, q, a1, a2);
    assert Collect(saved, data, q) == a2;
    LayoutShort(a1.out, a2.out, saved, data, q);
  }

  /** The first two stages alone, laid out in the list they produced. */
  lemma LayoutShort(o1: seq<Suggestion>, o2: seq<Suggestion>, saved: seq<SavedSet>, data: seq<PalaceSet>, q: string)
    requires |o1| <= |o2|
    requires Band(o2, 0, |o1|, saved, data, q, 0) && Band(o2, |o1|, |o2|, saved, data, q, 1)
    requires Subsequence(o2[..|o1|], CustomEntries(saved)) && Subsequence(o2[|o1|..], NameEntries(data))
    ensures Layout(o2, |o1|, |o2|, |o2|, saved, data, q)
  {
    assert o2[|o2|..|o2|] == [] && o2[|o2|..] == [];
    assert o2[|o1|..|o2|] == o2[|o1|..];
  }

  lemma LayoutWithoutDigit(saved: seq<SavedSet>, data: seq<PalaceSet>, q: string)
    requires !HasDigit(q)
    ensures exists n1, n2, n3 :: Layout(Collect(saved, data, q).out, n1, n2, n3, saved, data, q)
  {
    EmptyTracked();
    var a1 := Sweep(Acc({}, []), CustomEntries(saved), q, true);
    var a2 := Sweep(a1, NameEntries(data), q, true);
    LayoutFront(saved, data, q, a1, a2);
    var a3 := Sweep(a2, GroupEntries(data), q, true);
    var a4 := Sweep(a3, NameEntries(data), q, false);
    assert Collect(saved, data, q) == a4;
    GroupBand(saved, data, q, a2, a3);
    InfixBand(saved, data, q, a2, a3, a4);
    SweepOrder(a2, GroupEntries(data), q, true);
    SweepOrder(a3, NameEntries(data), q, false);
    LayoutJoin(a1.out, a2.out, a3.out, a4.out, saved, data, q);
  }

  /** The first two stages: their bands and their order. */
  lemma LayoutFront(saved: seq<SavedSet>, data: seq<PalaceSet>, q: string, a1: Acc, a2: Acc)
    requires Tracked(Acc({}, []))
    requires a1 == Sweep(Acc({}, []), CustomEntries(saved), q, true)
    requires a2 == Sweep(a1, NameEntries(data), q, true)
    ensures Band(a2.out, 0, |a1.out|, saved, data, q, 0) && Band(a2.out, |a1.out|, |a2.out|, saved, data, q, 1)
    ensures Subsequence(a2.out[..|a1.out|], CustomEntries(saved))
    ensures Subsequence(a2.out[|a1.out|..], NameEntries(data))
  {
    CustomBand(saved, data, q, a1);
    BandExtends(a1.out, a2.out, 0, |a1.out|, saved, data, q, 0);
    NameBand(saved, data, q, a1, a2);
    SweepOrder(Acc({}, []), CustomEntries(saved), q, true);
    SweepOrder(a1, NameEntries(data), q, true);
    assert a1.out[0..] == a1.out;
  }

  /** The four stages, each read off the list it produced, laid out in
      the final list. */
  lemma LayoutJoin(o1: seq<Suggestion>, o2: seq<Suggestion>, o3: seq<Suggestion>, o4: seq<Suggestion>,
                   saved: seq<SavedSet>, data: seq<PalaceSet>, q: string)
    requires !HasDigit(q)
    requires |o1| <= |o2| <= |o3| <= |o4|
    requires o2[..|o1|] == o1 && o3[..|o2|] == o2 && o4[..|o3|] == o3
    requires Band(o2, 0, |o1|, saved, data, q, 0) && Band(o2, |o1|, |o2|, saved, data, q, 1)
    requires Band(o3, |o2|, |o3|, saved, data, q, 2) && Band(o4, |o3|, |o4|, saved, data, q, 3)
    requires Subsequence(o2[..|o1|], CustomEntries(saved)) && Subsequence(o2[|o1|..], NameEntries(data))
    requires Subsequence(o3[|o2|..], GroupEntries(data)) && Subsequence(o4[|o3|..], NameEntries(data))
    ensures Layout(o4, |o1|, |o2|, |o3|, saved, data, q)
  {
    BandExtends(o2, o3, 0, |o1|, saved, data, q, 0);
    BandExtends(o2, o3, |o1|, |o2|, saved, data, q, 1);
    BandExtends(o3, o4, 0, |o1|, saved, data, q, 0);
    BandExtends(o3, o4, |o1|, |o2|, saved, data, q, 1);
    BandExtends(o3, o4, |o2|, |o3|, saved, data, q, 2);
    LayoutSlices(o1, o2, o3, o4);
    assert o4[..|o1|] == o2[..|o1|];
  }

  /** The stages' slices, read off the final list. */
  lemma LayoutSlices(o1: seq<Suggestion>, o2: seq<Suggestion>, o3: seq<Suggestion>, o4: seq<Suggestion>)
    requires |o1| <= |o2| <= |o3| <= |o4|
    requires o2[..|o1|] == o1 && o3[..|o2|] == o2 && o4[..|o3|] == o3
    ensures o4[..|o1|] == o1
    ensures o4[|o1|..|o2|] == o2[|o1|..]
    ensures o4[|o2|..|o3|] == o3[|o2|..]
  {
    PrefixSlice(o3, o4, 0, |o2|);
    PrefixSlice(o2, o3, 0, |o1|);
    PrefixSlice(o3, o4, |o1|, |o2|);
    PrefixSlice(o3, o4, |o2|, |o3|);
    assert o4[..|o1|] == o4[0..|o1|] && o3[0..|o1|] == o3[..|o2|][0..|o1|];
    assert o2[|o1|..] == o2[|o1|..|o2|] && o3[|o2|..] == o3[|o2|..|o3|];
    assert o3[|o1|..|o2|] == o3[..|o2|][|o1|..|o2|];
  }

  lemma CollectFacts(saved: seq<SavedSet>, data: seq<PalaceSet>, q: string)
    ensures DistinctTags(Collect(saved, data, q).out)
    ensures forall i :: 0 <= i < |Collect(saved, data, q).out| ==> Offered(Collect(saved, data, q).out[i], saved, data, q)
    ensures Ranked(Collect(saved, data, q).out, q)
    ensures Complete(saved, data, q, Collect(saved, data, q).out)
  {
    var out := Collect(saved, data, q).out;
    CollectLayout(saved, data, q);
    var n1, n2, n3 :| Layout(out, n1, n2, n3, saved, data, q);
    BandsRanked(out, n1, n2, n3, saved, data, q);
    CollectComplete(saved, data, q);
  }

  lemma CollectComplete(saved: seq<SavedSet>, data: seq<PalaceSet>, q: string)
    ensures Complete(saved, data, q, Collect(saved, data, q).out)
  {
    EmptyTracked();
    var a1 := Sweep(Acc({}, []), CustomEntries(saved), q, true);
    var a2 := Sweep(a1, NameEntries(data), q, true);
    var fin := Collect(saved, data, q);
    assert a1.seen <= a2.seen <= fin.seen == Tags(fin.out);
    SavedSeen(saved, q, a1.seen, fin.out);
    NamesSeen(data, q, true, a2.seen, fin.out);
    if !HasDigit(q) {
      var a3 := Sweep(a2, GroupEntries(data), q, true);
      assert fin == Sweep(a3, NameEntries(data), q, false);
      GroupsSeen(data, q, a3.seen, fin.out);
      NamesSeen(data, q, false, fin.seen, fin.out);
    }
  }

  lemma SavedSeen(saved: seq<SavedSet>, q: string, seen: set<string>, out: seq<Suggestion>)
    requires forall c :: c in CustomEntries(saved) && Matches(c, q, true) ==> Tag(c) in seen
    requires seen <= Tags(out)
    ensures forall k :: 0 <= k < |saved| && Contains(Lower(saved[k].species + CustomSuffix), q) ==>
      "c:" + saved[k].id in Tags(out)
  {
    forall k | 0 <= k < |saved| && Contains(Lower(saved[k].species + CustomSuffix), q)
      ensures "c:" + saved[k].id in Tags(out)
    {
      var c := CustomEntries(saved)[k];
      assert c == CustomEntry(saved[k]) && c in CustomEntries(saved);
      assert Matches(c, q, true) && Tag(c) == "c:" + saved[k].id;
    }
  }

  lemma NamesSeen(data: seq<PalaceSet>, q: string, prefix: bool, seen: set<string>, out: seq<Suggestion>)
    requires forall c :: c in NameEntries(data) && Matches(c, q, prefix) ==> Tag(c) in seen
    requires seen <= Tags(out)
    ensures prefix ==> forall k :: 0 <= k < |data| && StartsWith(Lower(data[k].name), q) ==> data[k].name in Tags(out)
    ensures !prefix ==> forall k :: 0 <= k < |data| && Contains(Lower(data[k].name), q) ==> data[k].name in Tags(out)
  {
    forall k | 0 <= k < |data| && Matches(NameEntry(data[k]), q, prefix)
      ensures data[k].name in Tags(out)
    {
      assert NameEntries(data)[k] == NameEntry(data[k]);
    }
  }

  lemma GroupsSeen(data: seq<PalaceSet>, q: string, seen: set<string>, out: seq<Suggestion>)
    requires forall c :: c in GroupEntries(data) && Matches(c, q, true) ==> Tag(c) in seen
    requires seen <= Tags(out)
    ensures forall sp :: sp in BySpecies(data) && StartsWith(Lower(sp), q) ==> "sp:" + sp in Tags(out)
  {
    var keys := SortedSpecies(data);
    forall sp | sp in BySpecies(data) && StartsWith(Lower(sp), q)
      ensures "sp:" + sp in Tags(out)
    {
      var k :| 0 <= k < |keys| && keys[k] == sp;
      var c := GroupEntries(data)[k];
      assert c == Group(sp, SetCount(BySpecies(data), sp)) && c in GroupEntries(data);
      assert Matches(c, q, true) && Tag(c) == "sp:" + sp;
    }
  }

  // ---------------------------------------------------- move autocomplete

  const MaxMoveSuggestions: nat := 10

  /** The two filters of the move list: names starting with the query, and
      names containing it without starting with it. */
  predicate MoveMatch(m: string, q: string, prefix: bool) {
    if prefix then StartsWith(Lower(m), q) else !StartsWith(Lower(m), q) && Contains(Lower(m), q)
  }

  /** The test of one filter, as a function value. */
  function MoveTest(q: string, prefix: bool): string -> bool {
    m => MoveMatch(m, q, prefix)
  }

  /** `ALL_MOVES.filter(...)`: the passing moves, in list order (exactly
      the filter: `MovesWhereFilter`). */
  function MovesWhere(moves: seq<string>, q: string, prefix: bool): (r: seq<string>)
    ensures forall m :: m in r <==> m in moves && MoveMatch(m, q, prefix)
    ensures forall i :: 0 <= i < |r| ==> MoveMatch(r[i], q, prefix)
    ensures Distinct(moves) ==> Distinct(r)
    decreases |moves|
  {
    if |moves| == 0 then []
    else
      var rest := MovesWhere(moves[1..], q, prefix);
      if MoveMatch(moves[0], q, prefix) then
        assert Distinct(moves) ==> moves[0] !in moves[1..] && Distinct(moves[1..]) by {
          if Distinct(moves) {
            forall i | 0 <= i < |moves[1..]| ensures moves[1..][i] != moves[0] {
              assert moves[1..][i] == moves[i + 1];
            }
            forall i, j | 0 <= i < j < |moves[1..]| ensures moves[1..][i] != moves[1..][j] {
              assert moves[1..][i] == moves[i + 1] && moves[1..][j] == moves[j + 1];
            }
          }
        }
        [moves[0]] + rest
      else
        assert Distinct(moves) ==> Distinct(moves[1..]) by {
          if Distinct(moves) {
            forall i, j | 0 <= i < j < |moves[1..]| ensures moves[1..][i] != moves[1..][j] {
              assert moves[1..][i] == moves[i + 1] && moves[1..][j] == moves[j + 1];
            }
          }
        }
        rest
  }

  /** The partner of `MovesWhere`: it is the filter of the move list by
      the test, every passing move kept, in list order. */
  lemma {:induction false} MovesWhereFilter(moves: seq<string>, q: string, prefix: bool)
    ensures IsFilter(MovesWhere(moves, q, prefix), moves, MoveTest(q, prefix))
    decreases |moves|
  {
    if |moves| > 0 {
      MovesWhereFilter(moves[1..], q, prefix);
      FilterCons(MovesWhere(moves[1..], q, prefix), moves, MoveTest(q, prefix));
    }
  }

  /** Both filters concatenated, before `slice(0, 10)` (split into the two
      filters, each in list order: `MoveCandidatesSplit`). */
  function MoveCandidates(allMoves: seq<string>, q: string): (all: seq<string>)
    ensures forall i :: 0 <= i < |all| ==> all[i] in allMoves && Contains(Lower(all[i]), q)
    ensures forall i, j :: 0 <= i < j < |all| && StartsWith(Lower(all[j]), q) ==> StartsWith(Lower(all[i]), q)
    ensures Distinct(allMoves) ==> Distinct(all)
    ensures forall m :: m in allMoves && Contains(Lower(m), q) ==> m in all
  {
    var front := MovesWhere(allMoves, q, true);
    var back := MovesWhere(allMoves, q, false);
    var all := front + back;
    forall i | 0 <= i < |all| ensures all[i] in allMoves && Contains(Lower(all[i]), q) {
      if i < |front| { assert all[i] == front[i] && all[i] in front; }
      else { assert all[i] == back[i - |front|] && all[i] in back; }
    }
    forall i | |front| <= i < |all| ensures !StartsWith(Lower(all[i]), q) {
      assert all[i] == back[i - |front|];
    }
    forall i | 0 <= i < |front| ensures StartsWith(Lower(all[i]), q) {
      assert all[i] == front[i];
    }
    DistinctConcat(front, back, q, allMoves);
    forall m | m in allMoves && Contains(Lower(m), q) ensures m in all {
      if StartsWith(Lower(m), q) { assert m in front; } else { assert m in back; }
    }
    all
  }

  /** The candidates are the prefix filter followed by the infix filter,
      each in list order. */
  lemma MoveCandidatesSplit(allMoves: seq<string>, q: string)
    ensures var all := MoveCandidates(allMoves, q);
      exists n :: 0 <= n <= |all| && IsFilter(all[..n], allMoves, MoveTest(q, true))
        && IsFilter(all[n..], allMoves, MoveTest(q, false))
  {
    var front := MovesWhere(allMoves, q, true);
    var all := MoveCandidates(allMoves, q);
    MovesWhereFilter(allMoves, q, true);
    MovesWhereFilter(allMoves, q, false);
    assert all[..|front|] == front;
    assert all[|front|..] == MovesWhere(allMoves, q, false);
  }

  lemma DistinctConcat(front: seq<string>, back: seq<string>, q: string, allMoves: seq<string>)
    requires forall i :: 0 <= i < |front| ==> StartsWith(Lower(front[i]), q)
    requires forall i :: 0 <= i < |back| ==> !StartsWith(Lower(back[i]), q)
    requires Distinct(allMoves) ==> Distinct(front) && Distinct(back)
    ensures Distinct(allMoves) ==> Distinct(front + back)
  {
    var all := front + back;
    if Distinct(allMoves) {
      forall i, j | 0 <= i < j < |all| ensures all[i] != all[j] {
        if j < |front| { assert all[i] == front[i] && all[j] == front[j]; }
        else if i >= |front| { assert all[i] == back[i - |front|] && all[j] == back[j - |front|]; }
        else { assert all[i] == front[i] && all[j] == back[j - |front|]; }
      }
    }
  }

  /** The move suggestions for the text of a move input: nothing for a
      blank input; at most ten moves of the list, each containing the
      query; those starting with it first; no move twice when the list has
      none twice; and when fewer than ten come back, every move containing
      the query is among them. The moves shown are the first of the
      candidates, all of them when fewer than ten. */
  function MoveSuggestions(allMoves: seq<string>, input: string): (r: seq<string>)
    ensures AllSpace(input) ==> r == []
    ensures |r| <= MaxMoveSuggestions
    ensures forall i :: 0 <= i < |r| ==> r[i] in allMoves && Contains(Lower(r[i]), Normalize(input))
    ensures forall i, j :: 0 <= i < j < |r| && StartsWith(Lower(r[j]), Normalize(input)) ==>
      StartsWith(Lower(r[i]), Normalize(input))
    ensures Distinct(allMoves) ==> Distinct(r)
    ensures |r| < MaxMoveSuggestions && !AllSpace(input) ==>
      forall m :: m in allMoves && Contains(Lower(m), Normalize(input)) ==> m in r
    ensures !AllSpace(input) ==> var all := MoveCandidates(allMoves, Normalize(input));
      |r| <= |all| && r == all[..|r|] && (|r| < MaxMoveSuggestions ==> r == all)
  {
    var q := Normalize(input);
    if |q| == 0 then []
    else
      var all := MoveCandidates(allMoves, q);
      var r := Take(all, MaxMoveSuggestions);
      assert forall i :: 0 <= i < |r| ==> r[i] == all[i];
      r
  }
}
