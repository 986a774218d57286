/** The repository list: publishes the languages of the unfiltered list to
    the store, filters with the store's filters, and picks one of three
    views: nothing, "no matches", or the filtered cards with a count. */
module RepoList {
  import opened Strings
  import opened GitHubTypes
  import opened Utils
  import Filters
  import Store

  /** Below the filter bar: the "Try adjusting your filters" message, or
      "Showing <|shown|> of <total>" over the cards of `shown`, with the
      "Filtered results" label when `filteredLabel` holds. */
  datatype ListBody =
    | NoMatches
    | Showing(shown: seq<Repository>, total: nat, filteredLabel: bool)

  datatype RepoListView =
    | RenderNothing
    | Rendered(filterBarLanguages: seq<string>, body: ListBody)

  function RenderRepoList(repositories: seq<Repository>, nameFilter: string, languageFilter: string)
    : (v: RepoListView)
    ensures v.RenderNothing? <==> repositories == []
    ensures v.Rendered? ==> v.filterBarLanguages == LanguagesOf(repositories)
    ensures v.Rendered? ==>
              (v.body.NoMatches? <==> forall i :: 0 <= i < |repositories| ==>
                                        !Matches(repositories[i], nameFilter, languageFilter))
    ensures v.Rendered? && v.body.Showing? ==>
              && v.body.shown == FilterRepositories(repositories, nameFilter, languageFilter)
              && v.body.shown != []
              && |v.body.shown| <= v.body.total == |repositories|
              && IsSubsequence(v.body.shown, repositories)
              && (v.body.filteredLabel <==> nameFilter != "" || languageFilter != "")
  {
    var filtered := FilterRepositories(repositories, nameFilter, languageFilter);
    FilterEmptyIffNoneMatch(repositories, nameFilter, languageFilter);
    FilterIsSubsequence(repositories, nameFilter, languageFilter);
    if |repositories| == 0 then RenderNothing
    else
      Rendered(
        LanguagesOf(repositories),
        if |filtered| == 0 then NoMatches
        else Showing(filtered, |repositories|, nameFilter != "" || languageFilter != ""))
  }

  /** With the store's initial filters, every repository is shown, and the
      "Filtered results" label is shown too, because the "all" sentinel is
      a non-empty string. */
  lemma InitialFiltersShowAllWithLabel(repositories: seq<Repository>)
    requires repositories != []
    ensures RenderRepoList(repositories, Store.InitialState().nameFilter, Store.InitialState().languageFilter)
         == Rendered(LanguagesOf(repositories), Showing(repositories, |repositories|, true))
  {
    NoFilterKeepsEverything(repositories, "", "all");
  }

  /** The label therefore does not mean that anything was filtered out: it
      is shown although the filter bar's active-filter flag is off. */
  lemma LabelWithoutActiveFilters()
    ensures !Filters.HasActiveFilters("", "all")
    ensures var v := RenderRepoList([Filters.BareRepository()], "", "all");
            v.Rendered? && v.body.Showing? && v.body.filteredLabel
  {
    NoFilterKeepsEverything([Filters.BareRepository()], "", "all");
  }

  /** The effect that publishes the languages: after it, the store holds
      `extractLanguages` of the list and nothing else in it has moved. The
      filter bar takes its options from the list, not from the store; the
      two agree, because the store's list equals the list the list view
      hands to the filter bar. */
  method PublishLanguages(repositories: seq<Repository>, store: Store.RepoStore)
    modifies store
    ensures store.State() == old(store.State()).(availableLanguages := LanguagesOf(repositories))
    ensures repositories != [] ==>
              store.availableLanguages
              == RenderRepoList(repositories, store.nameFilter, store.languageFilter).filterBarLanguages
    ensures repositories != [] ==>
              Filters.RenderFilterBar(store.nameFilter, store.languageFilter, store.availableLanguages).options
              == ["all"] + RenderRepoList(repositories, store.nameFilter, store.languageFilter).filterBarLanguages
  {
    var languages := ExtractLanguages(repositories);
    store.SetAvailableLanguages(languages);
  }
}
