/** The shared filter store: four fields, a setter for each, and a reset of
    the two filters. */
module Store {
  import Filters

  /** A snapshot of the store's four fields. */
  datatype StoreState = StoreState(
    username: string,
    nameFilter: string,
    languageFilter: string,
    availableLanguages: seq<string>)

  /** The state the store starts in. */
  function InitialState(): StoreState {
    StoreState("", "", "all", [])
  }

  /** What `resetFilters` makes of a state: the filters go back to their
      initial values and nothing else moves. */
  function ResetState(s: StoreState): (r: StoreState)
    ensures r.nameFilter == InitialState().nameFilter
    ensures r.languageFilter == InitialState().languageFilter
    ensures r.username == s.username && r.availableLanguages == s.availableLanguages
  {
    s.(nameFilter := "", languageFilter := "all")
  }

  /** Resetting twice is resetting once. */
  lemma ResetIdempotent(s: StoreState)
    ensures ResetState(ResetState(s)) == ResetState(s)
    ensures ResetState(s) == s <==> s.nameFilter == "" && s.languageFilter == "all"
  {
  }

  /** Reset turns the filter bar's active-filter flag off, whatever the
      state was, and the initial state has it off too. */
  lemma ResetDeactivatesFilters(s: StoreState)
    ensures !Filters.HasActiveFilters(ResetState(s).nameFilter, ResetState(s).languageFilter)
    ensures !Filters.HasActiveFilters(InitialState().nameFilter, InitialState().languageFilter)
  {
  }

  class RepoStore {
    var username: string
    var nameFilter: string
    var languageFilter: string
    var availableLanguages: seq<string>

    function State(): StoreState
      reads this
    {
      StoreState(username, nameFilter, languageFilter, availableLanguages)
    }

    constructor ()
      ensures State() == InitialState()
      ensures username == "" && nameFilter == "" && languageFilter == "all" && availableLanguages == []
    {
      username := "";
      nameFilter := "";
      languageFilter := "all";
      availableLanguages := [];
    }

    method SetUsername(name: string)
      modifies this
      ensures State() == old(State()).(username := name)
    {
      username := name;
    }

    /** Also the filter bar's text box handler: the raw text, untrimmed. */
    method SetNameFilter(filter: string)
      modifies this
      ensures State() == old(State()).(nameFilter := filter)
    {
      nameFilter := filter;
    }

    method SetLanguageFilter(language: string)
      modifies this
      ensures State() == old(State()).(languageFilter := language)
    {
      languageFilter := language;
    }

    method SetAvailableLanguages(languages: seq<string>)
      modifies this
      ensures State() == old(State()).(availableLanguages := languages)
    {
      availableLanguages := languages;
    }

    method ResetFilters()
      modifies this
      ensures State() == ResetState(old(State()))
      ensures nameFilter == "" && languageFilter == "all"
      ensures username == old(username) && availableLanguages == old(availableLanguages)
      ensures !Filters.HasActiveFilters(nameFilter, languageFilter)
    {
      nameFilter := "";
      languageFilter := "all";
    }
  }
}
