/** The `UniversityFinder` object: the fetched list, the filtered view, the
    category and state selection, and the search and filter handlers that
    update them. The page itself is reduced to the values it shows: the
    state options, the notice and the results-count line. */
module Finder {
  import opened Text
  import opened Records
  import opened Facets
  import opened Filters
  import opened Directory

  /** The message area: what `showError` or `showSuccessMessage` last put
      there, if anything. */
  datatype Notice =
    | Quiet
    | EnterCountry
    | NoneFound(country: string)
    | NotFound(country: string)
    | CheckConnection
    | Unavailable
    | Found(count: nat, country: string)

  /** The message for a failed search: a 404 names the country; a network
      error code or an offline browser asks to check the connection;
      anything else reports the service unavailable. */
  function FailureNotice(country: string, error: HttpError, online: bool): (n: Notice)
    ensures n == NotFound(country) <==> error.status == Some(404)
    ensures n == CheckConnection <==> error.status != Some(404) && (error.code == Some("NETWORK_ERROR") || !online)
    ensures n == Unavailable <==> error.status != Some(404) && error.code != Some("NETWORK_ERROR") && online
  {
    if error.status == Some(404) then NotFound(country)
    else if error.code == Some("NETWORK_ERROR") || !online then CheckConnection
    else Unavailable
  }

  /** The three texts of the results-count line. */
  datatype CountText = Ready | FoundAll(total: nat) | Showing(shown: nat, total: nat)

  /** `updateResultsCount(filtered, total)` */
  function ResultsCount(filtered: nat, total: nat): (t: CountText)
    ensures t == Ready <==> total == 0
    ensures t == FoundAll(total) <==> total != 0 && filtered == total
    ensures t == Showing(filtered, total) <==> total != 0 && filtered != total
  {
    if total == 0 then Ready
    else if filtered == total then FoundAll(total)
    else Showing(filtered, total)
  }

  /** The count line after filtering: "Showing" always means fewer shown
      than fetched, and without any selection a non-empty list reads as
      all found. */
  lemma CountLineAfterFiltering(universities: seq<University>, selectedState: string, currentFilter: TypeFilter)
    ensures var t := ResultsCount(|Filtered(universities, selectedState, currentFilter)|, |universities|);
      (t.Showing? ==> t.shown < t.total)
      && (universities != [] && selectedState == "" && currentFilter == All ==> t == FoundAll(|universities|))
  {
    FilteredIsSelectedSubsequence(universities, selectedState, currentFilter);
    NoSelectionShowsAll(universities);
  }

  /** The search produced a non-empty list. */
  predicate HasResults(outcome: Outcome)
  {
    outcome.Fetched? && outcome.universities != []
  }

  /** The notice of a search that produced no list: the failure message
      after an error, "no universities found" after an empty answer. */
  function MissNotice(country: string, outcome: Outcome, online: bool): (n: Notice)
    requires !HasResults(outcome)
    ensures outcome.Threw? ==> n == FailureNotice(country, outcome.error, online)
    ensures outcome.Fetched? ==> n == NoneFound(country)
  {
    if outcome.Threw? then FailureNotice(country, outcome.error, online) else NoneFound(country)
  }

  class UniversityFinder {
    var universities: seq<University>
    var filteredUniversities: seq<University>
    var currentFilter: TypeFilter
    /** The value of the state drop-down; "" is "All States/Provinces". */
    var selectedState: string
    /** The state values listed in the drop-down. */
    var stateOptions: seq<string>
    var notice: Notice
    /** The results-count line, `None` until the first filtering. */
    var resultsCount: Option<CountText>
    /** Every directory query sent so far, in order. */
    var requests: seq<Query>

    /** The filtered view is drawn from the fetched list; a chosen state is
        one of the options; the options, when listed, are the facets of
        the fetched list. */
    ghost predicate Valid()
      reads this
    {
      && IsSubsequence(filteredUniversities, universities)
      && (selectedState == "" || selectedState in stateOptions)
      && (stateOptions == [] || stateOptions == DeriveStates(universities))
    }

    constructor ()
      ensures Valid()
      ensures universities == [] && filteredUniversities == [] && currentFilter == All
      ensures selectedState == "" && stateOptions == [] && notice == Quiet
      ensures resultsCount == None && requests == []
    {
      universities := [];
      filteredUniversities := [];
      currentFilter := All;
      selectedState := "";
      stateOptions := [];
      notice := Quiet;
      resultsCount := None;
      requests := [];
    }

    /** `applyFilters`: the state pass, then the category pass, into
        `filteredUniversities`; the fetched list is left as it is. */
    method ApplyFilters()
      requires Valid()
      modifies this`filteredUniversities, this`resultsCount
      ensures Valid()
      ensures filteredUniversities == Filtered(universities, selectedState, currentFilter)
      ensures resultsCount == Some(ResultsCount(|filteredUniversities|, |universities|))
    {
      var filtered := universities;
      if selectedState != "" {
        filtered := Keep(filtered, InState(selectedState));
      }
      if currentFilter != All {
        filtered := Keep(filtered, CategoryPass(currentFilter));
      }
      assert filtered == CategoryStep(StatePass(universities, selectedState), currentFilter);
      TwoPassesAreOneSelection(universities, selectedState, currentFilter);
      FilteredIsSelectedSubsequence(universities, selectedState, currentFilter);
      filteredUniversities := filtered;
      resultsCount := Some(ResultsCount(|filtered|, |universities|));
    }

    /** `handleFilterClick`: a category button sets `currentFilter` and
        filters again, whether or not anything has been fetched. */
    method HandleFilterClick(filter: TypeFilter)
      requires Valid()
      modifies this`currentFilter, this`filteredUniversities, this`resultsCount
      ensures Valid()
      ensures currentFilter == filter
      ensures filteredUniversities == Filtered(universities, selectedState, filter)
      ensures resultsCount == Some(ResultsCount(|filteredUniversities|, |universities|))
    {
      currentFilter := filter;
      ApplyFilters();
    }

    /** The drop-down's change handler: it filters again only when a list
        has been fetched. The drop-down can only take one of its options. */
    method SelectState(value: string)
      requires Valid()
      requires value == "" || value in stateOptions
      modifies this`selectedState, this`filteredUniversities, this`resultsCount
      ensures Valid()
      ensures selectedState == value
      ensures universities != [] ==>
        filteredUniversities == Filtered(universities, value, currentFilter)
        && resultsCount == Some(ResultsCount(|filteredUniversities|, |universities|))
      ensures universities == [] ==>
        filteredUniversities == old(filteredUniversities) && resultsCount == old(resultsCount)
    {
      selectedState := value;
      if |universities| > 0 {
        ApplyFilters();
      }
    }

    /** `clearStateFilter`: the drop-down keeps only its "All" option. */
    method ClearStateFilter()
      requires Valid()
      modifies this`selectedState, this`stateOptions
      ensures Valid()
      ensures selectedState == "" && stateOptions == []
    {
      selectedState, stateOptions := "", [];
    }

    /** `populateStateFilter` for the list just stored: the drop-down lists
        the facets of that list, with nothing chosen. */
    method PopulateStateFilter()
      requires IsSubsequence(filteredUniversities, universities)
      modifies this`selectedState, this`stateOptions
      ensures Valid()
      ensures selectedState == "" && stateOptions == DeriveStates(universities)
    {
      selectedState := "";
      stateOptions := DeriveStates(universities);
    }

    /** The success branch of `handleSearch`: the answer becomes the
        fetched list, the drop-down lists its states with nothing chosen,
        and the list is filtered with the category still in force. */
    method ShowFetched(found: seq<University>)
      modifies this`universities, this`filteredUniversities, this`selectedState, this`stateOptions, this`resultsCount
      ensures Valid()
      ensures universities == found && selectedState == "" && stateOptions == DeriveStates(found)
      ensures filteredUniversities == Filtered(found, "", currentFilter)
      ensures currentFilter == All ==> filteredUniversities == found
      ensures resultsCount == Some(ResultsCount(|filteredUniversities|, |found|))
    {
      universities := found;
      filteredUniversities := [];
      PopulateStateFilter();
      ApplyFilters();
      NoSelectionShowsAll(found);
    }

    /** `handleSearch`: a blank query is refused before anything is sent.
        Otherwise the drop-down is emptied and the directory is asked; an
        error or an empty answer leaves the fetched list and the filtered
        view alone, and a non-empty answer replaces the list, lists its
        states and filters it with the category still in force. */
    method HandleSearch(input: string, api: Query -> Reply, online: bool)
      requires Valid()
      modifies this
      ensures Valid()
      ensures currentFilter == old(currentFilter)
      ensures Trim(input) == "" ==>
        && notice == EnterCountry && requests == old(requests)
        && universities == old(universities) && filteredUniversities == old(filteredUniversities)
        && selectedState == old(selectedState) && stateOptions == old(stateOptions)
        && resultsCount == old(resultsCount)
      ensures Trim(input) != "" ==>
        requests == old(requests) + FetchUniversities(Trim(input), api).issued && selectedState == ""
      ensures Trim(input) != "" && HasResults(FetchUniversities(Trim(input), api).outcome) ==>
        var found := FetchUniversities(Trim(input), api).outcome.universities;
        && universities == found
        && stateOptions == DeriveStates(found)
        && filteredUniversities == Filtered(found, "", currentFilter)
        && (currentFilter == All ==> filteredUniversities == found)
        && resultsCount == Some(ResultsCount(|filteredUniversities|, |found|))
        && notice == Found(|found|, Trim(input))
      ensures Trim(input) != "" && !HasResults(FetchUniversities(Trim(input), api).outcome) ==>
        && universities == old(universities)
        && filteredUniversities == old(filteredUniversities)
        && stateOptions == []
        && resultsCount == old(resultsCount)
        && notice == MissNotice(Trim(input), FetchUniversities(Trim(input), api).outcome, online)
    {
      var country := Trim(input);
      if country == "" {
        notice := EnterCountry;
        return;
      }
      notice := Quiet;
      ClearStateFilter();
      var fetched := FetchUniversities(country, api);
      requests := requests + fetched.issued;
      if HasResults(fetched.outcome) {
        ShowFetched(fetched.outcome.universities);
        notice := Found(|universities|, country);
      } else {
        notice := MissNotice(country, fetched.outcome, online);
      }
    }
  }
}
