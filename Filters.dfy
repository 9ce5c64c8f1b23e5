/** The result filter of `applyFilters`: a state pass and a public/private
    pass over the fetched list, each an order-preserving `Array.filter`. */
module Filters {
  import opened Text
  import opened Records
  import Classifier

  /** The category buttons; the value of `currentFilter`. */
  datatype TypeFilter = All | Public | Private

  /** What a filter pass keeps. `InState`, `PublicName` and `PrivateName`
      are the callbacks of the two passes; `Selection` is the whole
      selection at once and serves as the reference for both passes. */
  datatype Criterion =
    | InState(selection: string)
    | PublicName
    | PrivateName
    | Selection(state: string, category: TypeFilter)

  /** `uni['state-province'] && uni['state-province'].toLowerCase().includes(selectedState.toLowerCase())` */
  predicate StateMatches(u: University, selection: string)
  {
    u.stateProvince.Some? && u.stateProvince.value != ""
    && Contains(Lower(u.stateProvince.value), Lower(selection))
  }

  /** The public pass: the name mentions state, public, national or government. */
  predicate HasPublicKeyword(name: string)
  {
    var n := Lower(name);
    Contains(n, "state") || Contains(n, "public") || Contains(n, "national") || Contains(n, "government")
  }

  /** The private pass: the name mentions none of the four public words. */
  predicate LacksPublicKeyword(name: string)
  {
    var n := Lower(name);
    !Contains(n, "state") && !Contains(n, "public") && !Contains(n, "national") && !Contains(n, "government")
  }

  predicate Matches(u: University, c: Criterion)
  {
    match c
    case InState(selection) => StateMatches(u, selection)
    case PublicName => HasPublicKeyword(u.name)
    case PrivateName => LacksPublicKeyword(u.name)
    case Selection(state, category) =>
      (state != "" ==> StateMatches(u, state))
      && (category == Public ==> HasPublicKeyword(u.name))
      && (category == Private ==> LacksPublicKeyword(u.name))
  }

  /** `a` is `b` with some elements left out, the rest in their order. */
  predicate IsSubsequence<T(==)>(a: seq<T>, b: seq<T>)
    decreases |b|
  {
    if a == [] then true
    else if b == [] then false
    else (a[0] == b[0] && IsSubsequence(a[1..], b[1..])) || IsSubsequence(a, b[1..])
  }

  lemma {:induction false} SubsequenceBounds<T>(a: seq<T>, b: seq<T>)
    requires IsSubsequence(a, b)
    ensures |a| <= |b|
    ensures forall x :: x in a ==> x in b
    decreases |b|
  {
    if a != [] {
      if a[0] == b[0] && IsSubsequence(a[1..], b[1..]) {
        SubsequenceBounds(a[1..], b[1..]);
        assert forall x :: x in a ==> x == b[0] || x in a[1..];
      } else {
        SubsequenceBounds(a, b[1..]);
      }
    }
  }

  /** `s.filter(x => Matches(x, c))`: the elements of `s` that meet `c`,
      in their original order. */
  function Keep(s: seq<University>, c: Criterion): (r: seq<University>)
    ensures IsSubsequence(r, s)
    ensures forall u :: u in r <==> u in s && Matches(u, c)
    ensures (forall u :: u in s ==> Matches(u, c)) ==> r == s
  {
    if s == [] then []
    else
      var rest := Keep(s[1..], c);
      assert forall u :: u in s <==> u == s[0] || u in s[1..];
      if Matches(s[0], c) then
        assert s == [s[0]] + s[1..];
        [s[0]] + rest
      else rest
  }

  /** `Array.filter` keeps every copy of a matching record and none of a
      failing one: each record occurs in the result as often as in the
      input when it meets the criterion, and not at all otherwise. */
  lemma {:induction false} KeepCounts(s: seq<University>, c: Criterion)
    ensures forall u :: multiset(Keep(s, c))[u] == if Matches(u, c) then multiset(s)[u] else 0
  {
    if s != [] {
      KeepCounts(s[1..], c);
      assert s == [s[0]] + s[1..];
    }
  }

  /** Two passes in a row keep what one pass with both criteria keeps. */
  lemma {:induction false} KeepTwice(s: seq<University>, first: Criterion, second: Criterion, both: Criterion)
    requires forall u :: Matches(u, both) <==> Matches(u, first) && Matches(u, second)
    ensures Keep(Keep(s, first), second) == Keep(s, both)
  {
    if s != [] {
      KeepTwice(s[1..], first, second, both);
    }
  }

  /** Two criteria that agree on every record keep the same records. */
  lemma {:induction false} KeepEquivalent(s: seq<University>, a: Criterion, b: Criterion)
    requires forall u :: Matches(u, a) <==> Matches(u, b)
    ensures Keep(s, a) == Keep(s, b)
  {
    if s != [] {
      KeepEquivalent(s[1..], a, b);
    }
  }

  /** The list `applyFilters` stores in `filteredUniversities`, as one pass
      with the whole selection; `selectedState == ""` is no state chosen. */
  function Filtered(universities: seq<University>, selectedState: string, currentFilter: TypeFilter): seq<University>
  {
    Keep(universities, Selection(selectedState, currentFilter))
  }

  /** The category pass `applyFilters` runs for a filter other than `All`. */
  function CategoryPass(currentFilter: TypeFilter): Criterion
    requires currentFilter != All
  {
    if currentFilter == Public then PublicName else PrivateName
  }

  /** The state pass of `applyFilters`: skipped when no state is chosen. */
  function StatePass(universities: seq<University>, selectedState: string): seq<University>
  {
    if selectedState != "" then Keep(universities, InState(selectedState)) else universities
  }

  /** The category pass of `applyFilters`: skipped under `All`. */
  function CategoryStep(filtered: seq<University>, currentFilter: TypeFilter): seq<University>
  {
    if currentFilter != All then Keep(filtered, CategoryPass(currentFilter)) else filtered
  }

  /** The state pass followed by the category pass keeps what one pass
      with the whole selection keeps. */
  lemma TwoPassesAreOneSelection(universities: seq<University>, selectedState: string, currentFilter: TypeFilter)
    ensures CategoryStep(StatePass(universities, selectedState), currentFilter)
      == Filtered(universities, selectedState, currentFilter)
  {
    var whole := Selection(selectedState, currentFilter);
    if selectedState != "" && currentFilter != All {
      KeepTwice(universities, InState(selectedState), CategoryPass(currentFilter), whole);
    } else if selectedState != "" {
      KeepEquivalent(universities, InState(selectedState), whole);
    } else if currentFilter != All {
      KeepEquivalent(universities, CategoryPass(currentFilter), whole);
    } else {
      NoSelectionShowsAll(universities);
    }
  }

  /** With no state chosen and the `All` category every record is shown,
      in the fetched order. */
  lemma NoSelectionShowsAll(universities: seq<University>)
    ensures Filtered(universities, "", All) == universities
  {
  }

  /** The filtered list is an order-preserving subsequence of the fetched
      one, so never longer; each record in it meets every selected
      criterion, and each record that meets them is in it. */
  lemma FilteredIsSelectedSubsequence(universities: seq<University>, selectedState: string, currentFilter: TypeFilter)
    ensures IsSubsequence(Filtered(universities, selectedState, currentFilter), universities)
    ensures |Filtered(universities, selectedState, currentFilter)| <= |universities|
    ensures forall u :: u in Filtered(universities, selectedState, currentFilter) <==>
      u in universities && Matches(u, Selection(selectedState, currentFilter))
  {
    SubsequenceBounds(Filtered(universities, selectedState, currentFilter), universities);
  }

  /** With a state chosen, every shown record has a non-empty state whose
      lower-case form contains the lower-cased choice; records without a
      state are never shown. */
  lemma StateChoiceKeepsOnlyThatState(universities: seq<University>, selectedState: string, currentFilter: TypeFilter)
    requires selectedState != ""
    ensures forall u :: u in Filtered(universities, selectedState, currentFilter) ==>
      u.stateProvince.Some? && Contains(Lower(u.stateProvince.value), Lower(selectedState))
    ensures forall u :: u in universities && u.stateProvince.None? ==>
      u !in Filtered(universities, selectedState, currentFilter)
  {
  }

  /** A chosen state shows every record whose state ends with it, not only
      the records listing exactly that state: with "Virginia" chosen, a
      record in "West Virginia" is shown too. */
  lemma ChosenStateShowsEndings(universities: seq<University>, prefix: string, selectedState: string)
    requires selectedState != ""
    ensures forall u :: u in universities && u.stateProvince == Some(prefix + selectedState) ==>
      u in Filtered(universities, selectedState, All)
  {
    LowerConcat(prefix, selectedState);
    ContainsSuffix(Lower(prefix), Lower(selectedState));
  }

  /** On the same input the public and the private pass split the records
      between them: each record goes to exactly one of the two. */
  lemma {:induction false} PublicPrivatePartition(s: seq<University>)
    ensures forall u :: Matches(u, PublicName) != Matches(u, PrivateName)
    ensures |Keep(s, PublicName)| + |Keep(s, PrivateName)| == |s|
    ensures multiset(Keep(s, PublicName)) + multiset(Keep(s, PrivateName)) == multiset(s)
  {
    if s != [] {
      PublicPrivatePartition(s[1..]);
      assert s == [s[0]] + s[1..];
    }
  }

  /** A stricter selection never shows more: choosing a category keeps a
      subsequence of the state-only view, and choosing a state keeps a
      subsequence of the category-only view. */
  lemma NarrowingNeverAdds(universities: seq<University>, selectedState: string, currentFilter: TypeFilter)
    ensures IsSubsequence(Filtered(universities, selectedState, currentFilter), Filtered(universities, selectedState, All))
    ensures IsSubsequence(Filtered(universities, selectedState, currentFilter), Filtered(universities, "", currentFilter))
  {
    KeepTwice(universities, Selection(selectedState, All), Selection("", currentFilter), Selection(selectedState, currentFilter));
    KeepTwice(universities, Selection("", currentFilter), Selection(selectedState, All), Selection(selectedState, currentFilter));
  }

  /** Every name the filter's public pass keeps is one the classifier
      labels public: the filter's four words are among its six. */
  lemma FilterPublicIsClassifiedPublic(name: string)
    requires HasPublicKeyword(name)
    ensures Classifier.DetectUniversityType(name) == Classifier.Public
  {
    var n := Lower(name);
    var kw := Classifier.PublicKeywords;
    assert kw[0] == "state" && kw[1] == "public" && kw[2] == "national" && kw[3] == "government";
    if Contains(n, "state") { assert Contains(n, kw[0]); }
    else if Contains(n, "public") { assert Contains(n, kw[1]); }
    else if Contains(n, "national") { assert Contains(n, kw[2]); }
    else { assert Contains(n, kw[3]); }
  }

  /** A record the classifier labels private is kept by the private pass. */
  lemma ClassifiedPrivateIsFilterPrivate(u: University)
    requires Classifier.DetectUniversityType(u.name) == Classifier.Private
    ensures Matches(u, PrivateName)
  {
    if HasPublicKeyword(u.name) {
      FilterPublicIsClassifiedPublic(u.name);
    }
  }

  lemma LowerFederalAcademy()
    ensures Lower("Federal Academy") == "federal academy"
  {
    var n := Lower("Federal Academy");
    forall i | 0 <= i < 15 ensures n[i] == "federal academy"[i] {
    }
  }

  /** No character of "federal academy" is a `t` or a `u`. */
  lemma FederalAcademyLetters(c: char)
    requires c == 't' || c == 'u'
    ensures c !in "federal academy"
  {
    var n := "federal academy";
    assert forall i :: 0 <= i < |n| ==> n[i] != c;
  }

  /** "Federal Academy" is public to the classifier, by "federal". */
  lemma FederalAcademyIsClassifiedPublic()
    ensures Classifier.DetectUniversityType("Federal Academy") == Classifier.Public
  {
    LowerFederalAcademy();
    assert StartsWith("federal academy", Classifier.PublicKeywords[5]);
  }

  /** A name without a `t` or a `u` mentions none of the four public
      words, so the private pass keeps it. */
  lemma NoTNoUIsFilterPrivate(name: string)
    requires 't' !in Lower(name) && 'u' !in Lower(name)
    ensures LacksPublicKeyword(name)
  {
    var n := Lower(name);
    MissingCharRulesOut(n, "state", 1);
    MissingCharRulesOut(n, "public", 1);
    MissingCharRulesOut(n, "national", 2);
    MissingCharRulesOut(n, "government", 9);
  }

  /** ...yet the private pass keeps it: it knows only four public words. */
  lemma FederalAcademyIsFilterPrivate()
    ensures Matches(University("Federal Academy", None, None, [], []), PrivateName)
  {
    LowerFederalAcademy();
    FederalAcademyLetters('t');
    FederalAcademyLetters('u');
    NoTNoUIsFilterPrivate("Federal Academy");
  }
}
