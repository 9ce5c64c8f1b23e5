/** The state/province facet offered in the filter drop-down
    (`populateStateFilter`): every listed state of the current results,
    sorted, each once. */
module Facets {
  import opened Text
  import opened Records

  /** Record `u` lists `x` as its state: the key is present and its value
      is not blank. */
  predicate ListsState(u: University, x: string)
  {
    u.stateProvince == Some(x) && !IsBlank(x)
  }

  ghost predicate IsStateOf(us: seq<University>, x: string)
  {
    exists u :: u in us && ListsState(u, x)
  }

  lemma IsStateOfCons(us: seq<University>, x: string)
    requires us != []
    ensures IsStateOf(us, x) <==> ListsState(us[0], x) || IsStateOf(us[1..], x)
  {
    if IsStateOf(us, x) {
      var u :| u in us && ListsState(u, x);
      if u != us[0] { assert u in us[1..]; }
    }
  }

  /** `us.map(uni => uni['state-province']).filter(state => state && state.trim() !== '')` */
  function StateValues(us: seq<University>): (r: seq<string>)
    ensures forall x :: x in r <==> IsStateOf(us, x)
  {
    if us == [] then []
    else
      var rest := StateValues(us[1..]);
      assert forall x :: IsStateOf(us, x) <==> ListsState(us[0], x) || IsStateOf(us[1..], x) by {
        forall x { IsStateOfCons(us, x); }
      }
      match us[0].stateProvince
      case Some(s) =>
        TrimEmptyIffBlank(s);
        if s != "" && Trim(s) != "" then [s] + rest else rest
      case None => rest
  }

  ghost predicate Sorted(s: seq<string>)
  {
    forall i, j :: 0 <= i < j < |s| ==> LessEq(s[i], s[j])
  }

  ghost predicate StrictlySorted(s: seq<string>)
  {
    forall i, j :: 0 <= i < j < |s| ==> Less(s[i], s[j])
  }

  lemma HeadBelowAll(x: string, s: seq<string>)
    requires Sorted(s) && s != [] && LessEq(x, s[0])
    ensures forall j :: 0 <= j < |s| ==> LessEq(x, s[j])
  {
    forall j | 0 <= j < |s| ensures LessEq(x, s[j]) {
      LessEqTransitive(x, s[0], s[j]);
    }
  }

  lemma ConsSorted(h: string, t: seq<string>)
    requires Sorted(t) && forall j :: 0 <= j < |t| ==> LessEq(h, t[j])
    ensures Sorted([h] + t)
  {
    var r := [h] + t;
    forall i, j | 0 <= i < j < |r| ensures LessEq(r[i], r[j]) {
      if i > 0 { assert r[i] == t[i - 1] && r[j] == t[j - 1]; }
    }
  }

  /** Inserts `x` into the sorted `s` before the first element not below it. */
  function Insert(x: string, s: seq<string>): (r: seq<string>)
    requires Sorted(s)
    ensures Sorted(r)
    ensures multiset(r) == multiset(s) + multiset{x}
  {
    if s == [] then [x]
    else if LessEq(x, s[0]) then
      HeadBelowAll(x, s);
      ConsSorted(x, s);
      [x] + s
    else
      var rest := Insert(x, s[1..]);
      assert s == [s[0]] + s[1..];
      InsertedAbove(x, s, rest);
      ConsSorted(s[0], rest);
      [s[0]] + rest
  }

  lemma InsertedAbove(x: string, s: seq<string>, rest: seq<string>)
    requires Sorted(s) && s != [] && !LessEq(x, s[0])
    requires multiset(rest) == multiset(s[1..]) + multiset{x}
    ensures forall j :: 0 <= j < |rest| ==> LessEq(s[0], rest[j])
  {
    LessTotal(x, s[0]);
    forall j | 0 <= j < |rest| ensures LessEq(s[0], rest[j]) {
      assert rest[j] in multiset(rest);
      if rest[j] != x {
        assert rest[j] in multiset(s[1..]);
        var k :| 0 <= k < |s[1..]| && s[1..][k] == rest[j];
        assert s[k + 1] == rest[j];
      }
    }
  }

  /** `Array.prototype.sort` with the default comparator, as an insertion sort. */
  function Sort(s: seq<string>): (r: seq<string>)
    ensures Sorted(r)
    ensures multiset(r) == multiset(s)
  {
    if s == [] then []
    else
      assert s == [s[0]] + s[1..];
      Insert(s[0], Sort(s[1..]))
  }

  lemma SortKeepsValues(s: seq<string>)
    ensures forall x :: x in Sort(s) <==> x in s
  {
    var r := Sort(s);
    forall x ensures x in r <==> x in s {
      assert x in r <==> x in multiset(r);
      assert x in s <==> x in multiset(s);
    }
  }

  lemma AppendAbove(d: seq<string>, x: string)
    requires StrictlySorted(d) && forall i :: 0 <= i < |d| ==> Less(d[i], x)
    ensures StrictlySorted(d + [x])
  {
  }

  /** `[...new Set(s)]`: the first occurrence of each value, in order. */
  function Dedup(s: seq<string>): (r: seq<string>)
    ensures forall x :: x in r <==> x in s
    ensures forall i, j :: 0 <= i < j < |r| ==> r[i] != r[j]
  {
    if s == [] then []
    else
      var d := Dedup(s[..|s| - 1]);
      var x := s[|s| - 1];
      assert s == s[..|s| - 1] + [x];
      if x in d then d else d + [x]
  }

  /** Removing the repeats of a sorted list leaves it strictly ascending. */
  lemma {:induction false} DedupOfSorted(s: seq<string>)
    requires Sorted(s)
    ensures StrictlySorted(Dedup(s))
  {
    if s != [] {
      var front := s[..|s| - 1];
      var x := s[|s| - 1];
      assert Sorted(front);
      DedupOfSorted(front);
      var d := Dedup(front);
      if x !in d {
        forall i | 0 <= i < |d| ensures Less(d[i], x) {
          assert d[i] in front;
          var k :| 0 <= k < |front| && front[k] == d[i];
          assert s[k] == d[i];
        }
        AppendAbove(d, x);
      }
    }
  }

  /** The options of the state drop-down. */
  function DeriveStates(us: seq<University>): (r: seq<string>)
    ensures StrictlySorted(r)
    ensures forall i, j :: 0 <= i < j < |r| ==> r[i] != r[j]
    ensures forall i :: 0 <= i < |r| ==> !IsBlank(r[i])
    ensures forall x :: x in r <==> IsStateOf(us, x)
  {
    SortKeepsValues(StateValues(us));
    DedupOfSorted(Sort(StateValues(us)));
    var r := Dedup(Sort(StateValues(us)));
    assert forall i :: 0 <= i < |r| ==> r[i] in r;
    r
  }

  lemma HeadIsLeast(a: seq<string>, x: string)
    requires StrictlySorted(a) && x in a
    ensures LessEq(a[0], x)
  {
  }

  lemma HeadNotInTail(a: seq<string>)
    requires StrictlySorted(a) && a != []
    ensures a[0] !in a[1..]
  {
    LessIrreflexive(a[0]);
  }

  lemma FirstIsMember(b: seq<string>)
    ensures b != [] ==> b[0] in b
  {
  }

  /** Two strictly ascending lists of the same values are the same list. */
  lemma {:induction false} StrictlySortedUnique(a: seq<string>, b: seq<string>)
    requires StrictlySorted(a) && StrictlySorted(b)
    requires forall x :: x in a <==> x in b
    ensures a == b
    decreases |a|
  {
    if a != [] {
      assert a[0] in b;
      HeadIsLeast(a, b[0]);
      HeadIsLeast(b, a[0]);
      LessAsymmetric(a[0], b[0]);
      HeadNotInTail(a);
      HeadNotInTail(b);
      forall x ensures x in a[1..] <==> x in b[1..] {
        assert x in a <==> x == a[0] || x in a[1..];
        assert x in b <==> x == b[0] || x in b[1..];
      }
      StrictlySortedUnique(a[1..], b[1..]);
      assert a == [a[0]] + a[1..] && b == [b[0]] + b[1..];
    } else {
      FirstIsMember(b);
    }
  }

  /** The facet list is the one strictly ascending enumeration of the
      states the records list. */
  lemma DeriveStatesCharacterized(us: seq<University>, r: seq<string>)
    ensures r == DeriveStates(us) <==> StrictlySorted(r) && forall x :: x in r <==> IsStateOf(us, x)
  {
    if StrictlySorted(r) && forall x :: x in r <==> IsStateOf(us, x) {
      StrictlySortedUnique(r, DeriveStates(us));
    }
  }

  /** The facets depend only on which states occur: neither the order of the
      records nor repeated states change them. */
  lemma FacetsDependOnlyOnStates(us: seq<University>, vs: seq<University>)
    requires forall x :: IsStateOf(us, x) <==> IsStateOf(vs, x)
    ensures DeriveStates(us) == DeriveStates(vs)
  {
    DeriveStatesCharacterized(vs, DeriveStates(us));
  }
}
