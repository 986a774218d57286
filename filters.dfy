/** The filter bar: when the active-filter flag, the Clear button and the
    two chips appear, which value the language selector shows, and which
    options it offers. Its handlers only forward to the store setters. */
module Filters {
  import opened Strings
  import opened GitHubTypes
  import opened Utils

  /** The "Name" chip appears for any non-empty name filter. */
  predicate NameChipShown(nameFilter: string) {
    nameFilter != ""
  }

  /** The "Language" chip appears for a language filter that is neither
      empty nor the "all" sentinel. */
  predicate LanguageChipShown(languageFilter: string) {
    languageFilter != "" && languageFilter != "all"
  }

  /** `hasActiveFilters`: the name filter is truthy, or the language filter
      is truthy and not "all". */
  function HasActiveFilters(nameFilter: string, languageFilter: string): (active: bool)
    ensures active <==> NameChipShown(nameFilter) || LanguageChipShown(languageFilter)
  {
    nameFilter != "" || (languageFilter != "" && languageFilter != "all")
  }

  /** A repository with an empty name, no description and no language:
      every active filter rejects it. */
  function BareRepository(): Repository {
    Repository("", "", None, "", 0, None, "", 0, false)
  }

  /** The flag means exactly that the filters can hide something: when it
      is off every repository passes, and when it is on some repository
      is rejected. */
  lemma ActiveIffSomethingHidden(nameFilter: string, languageFilter: string)
    ensures !HasActiveFilters(nameFilter, languageFilter) ==>
              forall repo :: Matches(repo, nameFilter, languageFilter)
    ensures HasActiveFilters(nameFilter, languageFilter) ==>
              !Matches(BareRepository(), nameFilter, languageFilter)
  {
    if HasActiveFilters(nameFilter, languageFilter) && nameFilter != "" {
      assert |Lower(nameFilter)| > 0;
      assert !(Lower(nameFilter) <= Lower(""));
    }
  }

  /** What the filter bar shows for a given store state. */
  datatype FilterBarView = FilterBarView(
    nameInput: string,            // the text box shows the raw name filter
    selectValue: string,          // the selector's current value
    options: seq<string>,         // the selector's options, in order
    showClear: bool,              // the Clear button
    showActiveRow: bool,          // the "Active filters:" row
    nameChip: Option<string>,     // "Name: ..." chip
    languageChip: Option<string>) // "Language: ..." chip

  /** Renders the filter bar from the two filters and the language list. */
  function RenderFilterBar(nameFilter: string, languageFilter: string, availableLanguages: seq<string>)
    : (v: FilterBarView)
    ensures v.nameInput == nameFilter
    ensures v.selectValue != ""
    ensures v.selectValue == "all" <==> !LanguageChipShown(languageFilter)
    ensures LanguageChipShown(languageFilter) ==> v.selectValue == languageFilter
    ensures |v.options| == |availableLanguages| + 1
    ensures v.options[0] == "all" && v.options[1..] == availableLanguages
    ensures v.showClear <==> HasActiveFilters(nameFilter, languageFilter)
    ensures v.showActiveRow <==> v.showClear
    ensures v.showActiveRow <==> v.nameChip.Some? || v.languageChip.Some?
    ensures v.nameChip.Some? <==> nameFilter != ""
    ensures v.nameChip.Some? ==> v.nameChip.value == nameFilter
    ensures v.languageChip.Some? <==> LanguageChipShown(languageFilter)
    ensures v.languageChip.Some? ==> v.languageChip.value == languageFilter
  {
    var active := HasActiveFilters(nameFilter, languageFilter);
    FilterBarView(
      nameFilter,
      if languageFilter != "" then languageFilter else "all",
      ["all"] + availableLanguages,
      active,
      active,
      if nameFilter != "" then Some(nameFilter) else None,
      if languageFilter != "" && languageFilter != "all" then Some(languageFilter) else None)
  }

  /** After the filters are reset the bar is quiet: no Clear button, no
      chips, and the selector shows "all". */
  lemma ResetBarIsQuiet(availableLanguages: seq<string>)
    ensures var v := RenderFilterBar("", "all", availableLanguages);
            !v.showClear && !v.showActiveRow && v.nameChip.None? && v.languageChip.None?
            && v.selectValue == "all" && v.nameInput == ""
  {
  }
}
