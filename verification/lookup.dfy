/** The lookups app.js derives once from PALACE_DATA: `byName` (lower-cased
    set name to the set) and `bySpecies` (species to its sets, in data
    order), and the sorted species list the search walks. */
module Lookup {
  import opened Text
  import opened Sequences

  /** A record of PALACE_DATA, reduced to the two fields the lookups and
      the search read. */
  datatype PalaceSet = PalaceSet(name: string, species: string)

  // ---------------------------------------------------------------- byName

  /** The lower-cased names that occur in the data. */
  function Names(data: seq<PalaceSet>): set<string> {
    set i | 0 <= i < |data| :: Lower(data[i].name)
  }

  /** `byName` after the `forEach`: the keys are the lower-cased names, and
      each key holds a set carrying that name. */
  function ByName(data: seq<PalaceSet>): (m: map<string, PalaceSet>)
    ensures m.Keys == Names(data)
    ensures forall k :: k in m ==> m[k] in data && Lower(m[k].name) == k
  {
    if |data| == 0 then map[]
    else
      var p := data[|data| - 1];
      var front := data[..|data| - 1];
      var m0 := ByName(front);
      assert data == front + [p];
      assert Names(data) == Names(front) + {Lower(p.name)} by {
        assert forall i :: 0 <= i < |front| ==> data[i] == front[i];
      }
      m0[Lower(p.name) := p]
  }

  /** The set stored under a key is the LAST one carrying that lower-cased
      name. */
  lemma {:induction false} ByNameLastWins(data: seq<PalaceSet>, i: nat)
    requires i < |data|
    requires forall j :: i < j < |data| ==> Lower(data[j].name) != Lower(data[i].name)
    ensures ByName(data)[Lower(data[i].name)] == data[i]
    decreases |data|
  {
    if i < |data| - 1 {
      var front := data[..|data| - 1];
      assert front[i] == data[i];
      assert forall j :: i < j < |front| ==> front[j] == data[j];
      ByNameLastWins(front, i);
    }
  }

  // ------------------------------------------------------------- bySpecies

  /** The sets of one species, in data order: the reference the index is
      held to. */
  function SetsOf(data: seq<PalaceSet>, sp: string): (r: seq<PalaceSet>)
    ensures forall p :: p in r <==> p in data && p.species == sp
    ensures |r| <= |data|
  {
    if |data| == 0 then []
    else (if data[0].species == sp then [data[0]] else []) + SetsOf(data[1..], sp)
  }

  lemma {:induction false} SetsOfSnoc(data: seq<PalaceSet>, p: PalaceSet, sp: string)
    ensures SetsOf(data + [p], sp) == SetsOf(data, sp) + (if p.species == sp then [p] else [])
    decreases |data|
  {
    if |data| > 0 {
      assert (data + [p])[1..] == data[1..] + [p];
      SetsOfSnoc(data[1..], p, sp);
    }
  }

  /** The species that occur in the data. */
  function Species(data: seq<PalaceSet>): set<string> {
    set i | 0 <= i < |data| :: data[i].species
  }

  lemma SpeciesSnoc(front: seq<PalaceSet>, p: PalaceSet)
    ensures Species(front + [p]) == Species(front) + {p.species}
  {
    var data := front + [p];
    assert forall i :: 0 <= i < |front| ==> data[i] == front[i];
    assert data[|front|] == p;
  }

  /** `bySpecies` after the `forEach`: the keys are exactly the species that
      occur, and each holds all of its sets, in data order. */
  function BySpecies(data: seq<PalaceSet>): (m: map<string, seq<PalaceSet>>)
    ensures m.Keys == Species(data)
    ensures forall sp :: sp in m ==> m[sp] == SetsOf(data, sp)
  {
    if |data| == 0 then map[]
    else
      var front := data[..|data| - 1];
      var p := data[|data| - 1];
      assert data == front + [p];
      File(front, p, BySpecies(front))
  }

  /** Filing one more set under its species: the keys gain that species,
      its list gains the set at the end, and the other lists stay as the
      reference has them. */
  function File(front: seq<PalaceSet>, p: PalaceSet, m0: map<string, seq<PalaceSet>>): (m: map<string, seq<PalaceSet>>)
    requires m0.Keys == Species(front)
    requires forall sp :: sp in m0 ==> m0[sp] == SetsOf(front, sp)
    ensures m.Keys == Species(front + [p])
    ensures forall sp :: sp in m ==> m[sp] == SetsOf(front + [p], sp)
  {
    var m := m0[p.species := (if p.species in m0 then m0[p.species] else []) + [p]];
    FileFacts(front, p, m0, m);
    m
  }

  lemma FileFacts(front: seq<PalaceSet>, p: PalaceSet, m0: map<string, seq<PalaceSet>>, m: map<string, seq<PalaceSet>>)
    requires m0.Keys == Species(front)
    requires forall sp :: sp in m0 ==> m0[sp] == SetsOf(front, sp)
    requires m == m0[p.species := (if p.species in m0 then m0[p.species] else []) + [p]]
    ensures m.Keys == Species(front + [p])
    ensures forall sp :: sp in m ==> m[sp] == SetsOf(front + [p], sp)
  {
    SpeciesSnoc(front, p);
    FilingFacts(front, p, m0);
    forall sp | sp in m ensures m[sp] == SetsOf(front + [p], sp) {
      if sp != p.species {
        assert m[sp] == m0[sp];
      }
    }
  }

  lemma FilingFacts(front: seq<PalaceSet>, p: PalaceSet, m0: map<string, seq<PalaceSet>>)
    requires m0.Keys == Species(front)
    requires forall sp :: sp in m0 ==> m0[sp] == SetsOf(front, sp)
    ensures forall sp :: sp in m0 && sp != p.species ==> m0[sp] == SetsOf(front + [p], sp)
    ensures (if p.species in m0 then m0[p.species] else []) + [p] == SetsOf(front + [p], p.species)
  {
    forall sp | sp in m0 && sp != p.species ensures m0[sp] == SetsOf(front + [p], sp) {
      SetsOfSnoc(front, p, sp);
    }
    SetsOfSnoc(front, p, p.species);
    if p.species !in m0 {
      NoSetsOf(front, p.species);
    }
  }

  lemma NoSetsOf(data: seq<PalaceSet>, sp: string)
    requires sp !in Species(data)
    ensures SetsOf(data, sp) == []
  {
  }

  /** `bySpecies[sp].length` for a species that is a key. */
  function SetCount(m: map<string, seq<PalaceSet>>, sp: string): nat {
    if sp in m then |m[sp]| else 0
  }

  // -------------------------------------------------- Object.keys, sort

  /** `Object.keys(bySpecies)`: each species once. The order is left
      open: `Object.keys` lists integer-like keys first, and the sort that
      follows makes the order irrelevant (`SortedUnique`). */
  function SpeciesKeys(data: seq<PalaceSet>): (keys: seq<string>)
    ensures Distinct(keys)
    ensures forall sp :: sp in keys <==> sp in Species(data)
  {
    if |data| == 0 then []
    else
      var front := data[..|data| - 1];
      var sp := data[|data| - 1].species;
      var k0 := SpeciesKeys(front);
      assert data == front + [data[|data| - 1]];
      SpeciesSnoc(front, data[|data| - 1]);
      if sp in k0 then k0 else k0 + [sp]
  }

  /** The order of `Array.prototype.sort` without a comparator: by
      character code, a proper prefix first. */
  predicate Below(a: string, b: string)
    decreases |a|
  {
    if |a| == 0 then true
    else if |b| == 0 then false
    else if a[0] != b[0] then a[0] < b[0]
    else Below(a[1..], b[1..])
  }

  lemma BelowTotal(a: string, b: string)
    ensures Below(a, b) || Below(b, a)
  {
  }

  lemma BelowTrans(a: string, b: string, c: string)
    requires Below(a, b) && Below(b, c)
    ensures Below(a, c)
  {
  }

  lemma {:induction false} BelowAntisymmetric(a: string, b: string)
    requires Below(a, b) && Below(b, a)
    ensures a == b
    decreases |a|
  {
    if |a| > 0 && |b| > 0 {
      BelowAntisymmetric(a[1..], b[1..]);
      assert a == [a[0]] + a[1..];
      assert b == [b[0]] + b[1..];
    }
  }

  predicate Sorted(s: seq<string>) {
    forall i, j :: 0 <= i < j < |s| ==> Below(s[i], s[j])
  }

  /** Inserting into a sorted list keeps it sorted and adds exactly `x`. */
  function Insert(x: string, s: seq<string>): (r: seq<string>)
    requires Sorted(s)
    ensures Sorted(r)
    ensures multiset(r) == multiset(s) + multiset{x}
  {
    if |s| == 0 then [x]
    else if Below(x, s[0]) then
      InsertFront(x, s);
      [x] + s
    else
      var rest := Insert(x, s[1..]);
      BelowTotal(x, s[0]);
      assert s == [s[0]] + s[1..];
      InsertBehind(x, s, rest);
      [s[0]] + rest
  }

  lemma InsertFront(x: string, s: seq<string>)
    requires Sorted(s) && |s| > 0 && Below(x, s[0])
    ensures Sorted([x] + s)
  {
    forall j | 0 < j < |s| + 1 ensures Below(([x] + s)[0], ([x] + s)[j]) {
      if j > 1 { BelowTrans(x, s[0], s[j - 1]); }
    }
  }

  lemma InsertBehind(x: string, s: seq<string>, rest: seq<string>)
    requires Sorted(s) && |s| > 0 && Below(s[0], x)
    requires Sorted(rest) && multiset(rest) == multiset(s[1..]) + multiset{x}
    ensures Sorted([s[0]] + rest)
  {
    forall j | 0 <= j < |rest| ensures Below(s[0], rest[j]) {
      assert rest[j] in multiset(rest);
      if rest[j] != x {
        assert rest[j] in multiset(s[1..]);
        var k :| 0 <= k < |s[1..]| && s[1..][k] == rest[j];
        assert s[k + 1] == rest[j];
      }
    }
  }

  /** The sorted arrangement of a list: sorted, and the same elements with
      the same multiplicities. */
  function Sort(s: seq<string>): (r: seq<string>)
    ensures Sorted(r)
    ensures multiset(r) == multiset(s)
  {
    if |s| == 0 then []
    else
      assert s == [s[0]] + s[1..];
      Insert(s[0], Sort(s[1..]))
  }

  /** Two sorted lists with the same elements are the same list: the
      order in which `Object.keys` returns the species does not reach the
      sorted list. */
  lemma {:induction false} SortedUnique(a: seq<string>, b: seq<string>)
    requires Sorted(a) && Sorted(b) && multiset(a) == multiset(b)
    ensures a == b
    decreases |a|
  {
    if |a| > 0 {
      assert a[0] in multiset(b);
      assert b[0] in multiset(a);
      if a[0] != b[0] {
        var i :| 0 <= i < |b| && b[i] == a[0];
        var j :| 0 <= j < |a| && a[j] == b[0];
        assert Below(b[0], b[i]) && Below(a[0], a[j]);
        BelowAntisymmetric(a[0], b[0]);
      }
      assert a == [a[0]] + a[1..];
      assert b == [b[0]] + b[1..];
      assert multiset(a[1..]) == multiset(b[1..]) by {
        assert multiset(a) == multiset(a[1..]) + multiset{a[0]};
        assert multiset(b) == multiset(b[1..]) + multiset{a[0]};
        MultisetCancel(multiset(a[1..]), multiset(b[1..]), a[0]);
      }
      SortedUnique(a[1..], b[1..]);
    } else {
      assert |b| == 0;
    }
  }

  /** The species list the search walks: every species once, sorted. */
  function SortedSpecies(data: seq<PalaceSet>): (keys: seq<string>)
    ensures Sorted(keys) && Distinct(keys)
    ensures forall sp :: sp in keys <==> sp in BySpecies(data)
  {
    var k := SpeciesKeys(data);
    var r := Sort(k);
    SortKeepsDistinct(k, r);
    forall sp ensures sp in r <==> sp in k {
      assert sp in r <==> sp in multiset(r);
    }
    r
  }

  lemma SortKeepsDistinct(k: seq<string>, r: seq<string>)
    requires Distinct(k) && multiset(r) == multiset(k)
    ensures Distinct(r)
  {
    forall i, j | 0 <= i < j < |r| ensures r[i] != r[j] {
      if r[i] == r[j] {
        var x := r[i];
        assert multiset(r)[x] >= 2 by {
          assert r == r[..j] + [r[j]] + r[j + 1..];
          assert x in multiset(r[..j]) by { assert r[..j][i] == x; }
        }
        DistinctOnce(k, x);
      }
    }
  }

  lemma {:induction false} DistinctOnce(k: seq<string>, x: string)
    requires Distinct(k)
    ensures multiset(k)[x] <= 1
    decreases |k|
  {
    if |k| > 0 {
      assert k == [k[0]] + k[1..];
      assert Distinct(k[1..]) by {
        forall i, j | 0 <= i < j < |k[1..]| ensures k[1..][i] != k[1..][j] {
          assert k[1..][i] == k[i + 1] && k[1..][j] == k[j + 1];
        }
      }
      DistinctOnce(k[1..], x);
      if k[0] == x {
        assert x !in k[1..];
      }
    }
  }
}
