/** The pure helpers of the explorer: the compound repository filter, the
    distinct-language extraction, and the number and date formatters. */
module Utils {
  import opened Strings
  import opened GitHubTypes

  // ---------------------------------------------------------------------
  // filterRepositories
  // ---------------------------------------------------------------------

  /** The name half of the filter: an empty filter passes everything;
      otherwise the filter must occur, ignoring case, in the name or in a
      present, non-empty description. */
  predicate MatchesName(repo: Repository, nameFilter: string) {
    || nameFilter == ""
    || Contains(Lower(repo.name), Lower(nameFilter))
    || (&& repo.description.Some?
        && repo.description.value != ""
        && Contains(Lower(repo.description.value), Lower(nameFilter)))
  }

  /** The language half of the filter: empty and "all" pass everything,
      any other value must equal the primary language's name exactly. */
  predicate MatchesLanguage(repo: Repository, languageFilter: string) {
    || languageFilter == ""
    || languageFilter == "all"
    || (repo.primaryLanguage.Some? && repo.primaryLanguage.value.name == languageFilter)
  }

  predicate Matches(repo: Repository, nameFilter: string, languageFilter: string) {
    MatchesName(repo, nameFilter) && MatchesLanguage(repo, languageFilter)
  }

  /** `sub` can be obtained from `s` by deleting elements, keeping order. */
  predicate IsSubsequence<T(==)>(sub: seq<T>, s: seq<T>)
    decreases |s|
  {
    if sub == [] then true
    else if s == [] then false
    else if sub[0] == s[0] then IsSubsequence(sub[1..], s[1..])
    else IsSubsequence(sub, s[1..])
  }

  /** `repositories.filter(...)`: keeps the repositories that pass both
      halves of the filter, and only those. */
  function FilterRepositories(repositories: seq<Repository>, nameFilter: string, languageFilter: string)
    : (r: seq<Repository>)
    ensures |r| <= |repositories|
    ensures forall i :: 0 <= i < |r| ==> r[i] in repositories && Matches(r[i], nameFilter, languageFilter)
    ensures forall i :: 0 <= i < |repositories| && Matches(repositories[i], nameFilter, languageFilter)
                        ==> repositories[i] in r
  {
    if repositories == [] then []
    else
      var rest := FilterRepositories(repositories[1..], nameFilter, languageFilter);
      assert forall i :: 1 <= i < |repositories| ==> repositories[i] == repositories[1..][i - 1];
      if Matches(repositories[0], nameFilter, languageFilter) then [repositories[0]] + rest else rest
  }

  /** The filter keeps the original order: its result is a subsequence. */
  lemma {:induction false} FilterIsSubsequence(repositories: seq<Repository>, nameFilter: string, languageFilter: string)
    ensures IsSubsequence(FilterRepositories(repositories, nameFilter, languageFilter), repositories)
  {
    if repositories != [] {
      FilterIsSubsequence(repositories[1..], nameFilter, languageFilter);
      var r := FilterRepositories(repositories, nameFilter, languageFilter);
      if Matches(repositories[0], nameFilter, languageFilter) {
        assert r[1..] == FilterRepositories(repositories[1..], nameFilter, languageFilter);
      }
    }
  }

  /** Filtering works element by element: it distributes over `+`. */
  lemma {:induction false} FilterConcat(a: seq<Repository>, b: seq<Repository>, nameFilter: string, languageFilter: string)
    ensures FilterRepositories(a + b, nameFilter, languageFilter)
         == FilterRepositories(a, nameFilter, languageFilter) + FilterRepositories(b, nameFilter, languageFilter)
  {
    if a == [] {
      assert a + b == b;
    } else {
      assert (a + b)[0] == a[0] && (a + b)[1..] == a[1..] + b;
      FilterConcat(a[1..], b, nameFilter, languageFilter);
    }
  }

  /** A list whose every element passes is returned unchanged. */
  lemma {:induction false} FilterKeepsPassingList(repositories: seq<Repository>, nameFilter: string, languageFilter: string)
    requires forall i :: 0 <= i < |repositories| ==> Matches(repositories[i], nameFilter, languageFilter)
    ensures FilterRepositories(repositories, nameFilter, languageFilter) == repositories
  {
    if repositories != [] {
      FilterKeepsPassingList(repositories[1..], nameFilter, languageFilter);
      assert repositories == [repositories[0]] + repositories[1..];
    }
  }

  /** Filtering the filtered list again with the same filters changes nothing. */
  lemma FilterIdempotent(repositories: seq<Repository>, nameFilter: string, languageFilter: string)
    ensures var once := FilterRepositories(repositories, nameFilter, languageFilter);
            FilterRepositories(once, nameFilter, languageFilter) == once
  {
    FilterKeepsPassingList(FilterRepositories(repositories, nameFilter, languageFilter), nameFilter, languageFilter);
  }

  /** With an empty name filter and an empty or "all" language filter,
      every repository is shown, in its original order. */
  lemma NoFilterKeepsEverything(repositories: seq<Repository>, nameFilter: string, languageFilter: string)
    requires nameFilter == "" && (languageFilter == "" || languageFilter == "all")
    ensures FilterRepositories(repositories, nameFilter, languageFilter) == repositories
  {
    FilterKeepsPassingList(repositories, nameFilter, languageFilter);
  }

  /** The filtered list is empty exactly when no repository passes. */
  lemma FilterEmptyIffNoneMatch(repositories: seq<Repository>, nameFilter: string, languageFilter: string)
    ensures FilterRepositories(repositories, nameFilter, languageFilter) == []
        <==> forall i :: 0 <= i < |repositories| ==> !Matches(repositories[i], nameFilter, languageFilter)
  {
    var r := FilterRepositories(repositories, nameFilter, languageFilter);
    if r != [] {
      var k :| 0 <= k < |repositories| && repositories[k] == r[0];
    }
  }

  /** The name filter ignores case on both sides: filters that agree up to
      case select the same repositories, and renaming a repository by
      changing the case of its name does not change whether it passes. */
  lemma NameFilterIgnoresCase(repo: Repository, renamed: Repository, f: string, g: string)
    requires Lower(f) == Lower(g)
    requires renamed == repo.(name := renamed.name) && Lower(renamed.name) == Lower(repo.name)
    ensures MatchesName(repo, f) <==> MatchesName(renamed, g)
  {
    assert f == "" <==> g == "" by {
      assert |f| == |Lower(f)| && |g| == |Lower(g)|;
    }
  }

  /** A repository without a description passes a non-empty name filter
      only through its name. */
  lemma MissingDescriptionNeverMatches(repo: Repository, nameFilter: string)
    requires repo.description.None? && nameFilter != ""
    ensures MatchesName(repo, nameFilter) <==> Contains(Lower(repo.name), Lower(nameFilter))
  {
  }

  /** A language filter other than "" and "all" is an exact, case-sensitive
      match on the primary language's name; a repository without a primary
      language never passes it. */
  lemma LanguageFilterIsExact(repo: Repository, languageFilter: string)
    requires languageFilter != "" && languageFilter != "all"
    ensures MatchesLanguage(repo, languageFilter)
        <==> repo.primaryLanguage.Some? && repo.primaryLanguage.value.name == languageFilter
    ensures repo.primaryLanguage.None? ==> !MatchesLanguage(repo, languageFilter)
  {
  }

  // ---------------------------------------------------------------------
  // extractLanguages
  // ---------------------------------------------------------------------

  /** The truthy `primaryLanguage?.name` of a repository, if any. */
  function LanguageName(repo: Repository): Option<string> {
    if repo.primaryLanguage.Some? && repo.primaryLanguage.value.name != ""
    then Some(repo.primaryLanguage.value.name)
    else None
  }

  /** Some repository of the list has `name` as its truthy language name. */
  predicate HasLanguage(repositories: seq<Repository>, name: string) {
    exists i :: 0 <= i < |repositories| && LanguageName(repositories[i]) == Some(name)
  }

  lemma HasLanguageSnoc(repositories: seq<Repository>, name: string)
    requires repositories != []
    ensures HasLanguage(repositories, name)
        <==> (|| HasLanguage(repositories[..|repositories| - 1], name)
              || LanguageName(repositories[|repositories| - 1]) == Some(name))
  {
    var init := repositories[..|repositories| - 1];
    if HasLanguage(repositories, name) {
      var i :| 0 <= i < |repositories| && LanguageName(repositories[i]) == Some(name);
      if i < |init| {
        assert init[i] == repositories[i];
      }
    }
    if HasLanguage(init, name) {
      var i :| 0 <= i < |init| && LanguageName(init[i]) == Some(name);
      assert repositories[i] == init[i];
    }
  }

  /** What the `Set` holds after the `forEach`: every truthy language name,
      once, in order of first appearance. */
  function DistinctLanguageNames(repositories: seq<Repository>): (names: seq<string>)
    ensures Distinct(names)
    ensures forall x :: x in names <==> HasLanguage(repositories, x)
    decreases |repositories|
  {
    if repositories == [] then []
    else
      var init := repositories[..|repositories| - 1];
      var prev := DistinctLanguageNames(init);
      var last := LanguageName(repositories[|repositories| - 1]);
      assert forall x :: HasLanguage(repositories, x) <==> HasLanguage(init, x) || last == Some(x) by {
        forall x ensures HasLanguage(repositories, x) <==> HasLanguage(init, x) || last == Some(x) {
          HasLanguageSnoc(repositories, x);
        }
      }
      if last.Some? && last.value !in prev then prev + [last.value] else prev
  }

  /** The value `extractLanguages` returns: the distinct names, sorted. */
  function LanguagesOf(repositories: seq<Repository>): seq<string> {
    SortStrings(DistinctLanguageNames(repositories))
  }

  /** The languages are strictly ascending (so duplicate-free) and are
      exactly the truthy primary-language names of the input. */
  lemma LanguagesOfSpec(repositories: seq<Repository>)
    ensures StrictlyAscending(LanguagesOf(repositories))
    ensures forall x :: x in LanguagesOf(repositories) <==> HasLanguage(repositories, x)
  {
    var names := DistinctLanguageNames(repositories);
    SortAscending(names);
    assert forall x :: x in LanguagesOf(repositories) <==> x in multiset(names);
  }

  /** Those two properties determine the result: any strictly ascending
      list of exactly the input's language names is `LanguagesOf`. */
  lemma LanguagesOfUnique(repositories: seq<Repository>, languages: seq<string>)
    requires StrictlyAscending(languages)
    requires forall x :: x in languages <==> HasLanguage(repositories, x)
    ensures languages == LanguagesOf(repositories)
  {
    LanguagesOfSpec(repositories);
    AscendingUnique(languages, LanguagesOf(repositories));
  }

  /** An empty list has no languages. */
  lemma LanguagesOfEmpty()
    ensures LanguagesOf([]) == []
  {
  }

  /** `extractLanguages`: collects the names into an insertion-ordered set
      in one pass, then sorts them. */
  method ExtractLanguages(repositories: seq<Repository>) returns (languages: seq<string>)
    ensures languages == LanguagesOf(repositories)
    ensures StrictlyAscending(languages)
    ensures forall x :: x in languages <==> HasLanguage(repositories, x)
  {
    var seen: seq<string> := [];
    for i := 0 to |repositories|
      invariant seen == DistinctLanguageNames(repositories[..i])
    {
      assert repositories[..i + 1][..i] == repositories[..i];
      var name := LanguageName(repositories[i]);
      if name.Some? && name.value !in seen {
        seen := seen + [name.value];
      }
    }
    assert repositories[..|repositories|] == repositories;
    languages := SortStrings(seen);
    LanguagesOfSpec(repositories);
  }

  // ---------------------------------------------------------------------
  // formatNumber
  // ---------------------------------------------------------------------

  /** `x.toFixed(1)` for the non-negative number x = tenths / 10. */
  function TenthsText(tenths: nat): string {
    NatToString(tenths / 10) + "." + [DigitChar(tenths % 10)]
  }

  /** Reads text of the shape `digits.digit`, with no leading zero in the
      integer part, back as a count of tenths. */
  function TenthsValue(s: string): Option<nat> {
    if |s| >= 3 && s[|s| - 2] == '.' && CanonicalDigits(s[..|s| - 2]) && IsDigit(s[|s| - 1])
    then Some(10 * ParseNat(s[..|s| - 2]) + DigitValue(s[|s| - 1]))
    else None
  }

  lemma TenthsTextRoundTrip(tenths: nat)
    ensures TenthsValue(TenthsText(tenths)) == Some(tenths)
  {
    var s := TenthsText(tenths);
    assert s[..|s| - 2] == NatToString(tenths / 10);
    ParseNatToString(tenths / 10);
  }

  /** Only the text `TenthsText` prints is read back: a count of tenths
      has exactly one one-decimal text. */
  lemma TenthsValueInverse(s: string)
    requires TenthsValue(s).Some?
    ensures s == TenthsText(TenthsValue(s).value)
  {
    var intPart := s[..|s| - 2];
    var c := s[|s| - 1];
    var t := TenthsValue(s).value;
    NatToStringParseNat(intPart);
    assert DigitChar(DigitValue(c)) == c;
    assert t / 10 == ParseNat(intPart) && t % 10 == DigitValue(c);
    assert s == intPart + "." + [c];
  }

  /** `n / unit` in tenths, rounded to the nearest tenth (halves upward). */
  function RoundedTenths(n: nat, unit: nat): nat
    requires unit > 0
  {
    (10 * n + unit / 2) / unit
  }

  /** `formatNumber`: plain below 1000, thousands with "K" below a million,
      millions with "M" from there on. */
  function FormatNumber(n: nat): (r: string)
    ensures r != []
    ensures n < 1000 ==> CanonicalDigits(r)
    ensures r[|r| - 1] == 'K' <==> 1000 <= n < 1000000
    ensures r[|r| - 1] == 'M' <==> n >= 1000000
  {
    if n >= 1000000 then TenthsText(RoundedTenths(n, 1000000)) + "M"
    else if n >= 1000 then TenthsText(RoundedTenths(n, 1000)) + "K"
    else NatToString(n)
  }

  /** Below 1000 the count is printed as a plain integer. */
  lemma FormatNumberPlain(n: nat)
    requires n < 1000
    ensures CanonicalDigits(FormatNumber(n)) && ParseNat(FormatNumber(n)) == n
  {
    ParseNatToString(n);
  }

  /** From 1000 up to a million the text is the count in thousands, to the
      nearest tenth, followed by "K". */
  lemma FormatNumberThousands(n: nat)
    requires 1000 <= n < 1000000
    ensures var s := FormatNumber(n);
            && s != [] && s[|s| - 1] == 'K'
            && TenthsValue(s[..|s| - 1]).Some?
            && 100 * TenthsValue(s[..|s| - 1]).value <= n + 50 < 100 * TenthsValue(s[..|s| - 1]).value + 100
  {
    var t := RoundedTenths(n, 1000);
    var s := FormatNumber(n);
    assert s[..|s| - 1] == TenthsText(t);
    TenthsTextRoundTrip(t);
  }

  /** From a million on the text is the count in millions, to the nearest
      tenth, followed by "M". */
  lemma FormatNumberMillions(n: nat)
    requires n >= 1000000
    ensures var s := FormatNumber(n);
            && s != [] && s[|s| - 1] == 'M'
            && TenthsValue(s[..|s| - 1]).Some?
            && 100000 * TenthsValue(s[..|s| - 1]).value <= n + 50000 < 100000 * TenthsValue(s[..|s| - 1]).value + 100000
  {
    var t := RoundedTenths(n, 1000000);
    var s := FormatNumber(n);
    assert s[..|s| - 1] == TenthsText(t);
    TenthsTextRoundTrip(t);
  }

  // ---------------------------------------------------------------------
  // formatDate (bucketing of the whole-day difference)
  // ---------------------------------------------------------------------

  /** The text `formatDate` shows: a relative phrase, or, a year or more
      back, a locale-formatted calendar date (not modelled). */
  datatype DateText = Relative(text: string) | CalendarDate

  /** `formatDate` after the day difference has been computed. */
  function FormatDate(diffInDays: int): (r: DateText)
    ensures r.CalendarDate? <==> diffInDays >= 365
    ensures r.Relative? ==> r.text != []
  {
    if diffInDays == 0 then Relative("Today")
    else if diffInDays == 1 then Relative("Yesterday")
    else if diffInDays < 7 then Relative(IntToString(diffInDays) + " days ago")
    else if diffInDays < 30 then Relative(NatToString(diffInDays / 7) + " weeks ago")
    else if diffInDays < 365 then Relative(NatToString(diffInDays / 30) + " months ago")
    else CalendarDate
  }

  /** Each bucket shows the number of whole units elapsed. Timestamps in
      the future (negative differences) fall into the "days ago" bucket. */
  lemma FormatDateBuckets(d: int)
    ensures d == 0 ==> FormatDate(d) == Relative("Today")
    ensures d == 1 ==> FormatDate(d) == Relative("Yesterday")
    ensures 2 <= d < 7 ==> FormatDate(d) == Relative(NatToString(d) + " days ago")
    ensures d < 0 ==> FormatDate(d) == Relative("-" + NatToString(-d) + " days ago")
    ensures 7 <= d < 30 ==>
      exists w: nat :: 1 <= w <= 4 && 7 * w <= d < 7 * w + 7
                       && FormatDate(d) == Relative(NatToString(w) + " weeks ago")
    ensures 30 <= d < 365 ==>
      exists m: nat :: 1 <= m <= 12 && 30 * m <= d < 30 * m + 30
                       && FormatDate(d) == Relative(NatToString(m) + " months ago")
    ensures FormatDate(d).CalendarDate? <==> d >= 365
  {
    if 7 <= d < 30 {
      var w: nat := d / 7;
      assert FormatDate(d) == Relative(NatToString(w) + " weeks ago");
    }
    if 30 <= d < 365 {
      var m: nat := d / 30;
      assert FormatDate(d) == Relative(NatToString(m) + " months ago");
    }
  }
  // ---------------------------------------------------------------------
  // The cases the unit tests pin down
  // ---------------------------------------------------------------------

  /** A repository of the filter tests, with the name, description and
      language they give it; the other fields play no part in filtering. */
  function SampleRepository(id: string, name: string, description: Option<string>, language: Option<string>): Repository {
    Repository(id, name, description, "", 0,
               if language.Some? then Some(PrimaryLanguage(language.value, "")) else None,
               "2024-01-01T00:00:00Z", 0, false)
  }

  function ReactApp(): Repository {
    SampleRepository("1", "react-app", Some("A React application"), Some("TypeScript"))
  }

  function PythonScript(): Repository {
    SampleRepository("2", "python-script", Some("A Python utility script"), Some("Python"))
  }

  function NodeApi(): Repository {
    SampleRepository("3", "node-api", Some("Node.js API server"), Some("JavaScript"))
  }

  /** Filtering three repositories, spelled out. */
  lemma FilterThree(a: Repository, b: Repository, c: Repository, nameFilter: string, languageFilter: string)
    ensures FilterRepositories([a, b, c], nameFilter, languageFilter)
         == (if Matches(a, nameFilter, languageFilter) then [a] else [])
          + (if Matches(b, nameFilter, languageFilter) then [b] else [])
          + (if Matches(c, nameFilter, languageFilter) then [c] else [])
  {
    var fa := FilterRepositories([a], nameFilter, languageFilter);
    var fb := FilterRepositories([b], nameFilter, languageFilter);
    var fc := FilterRepositories([c], nameFilter, languageFilter);
    assert [a][1..] == [] && [b][1..] == [] && [c][1..] == [];
    assert fa == (if Matches(a, nameFilter, languageFilter) then [a] else []);
    assert fb == (if Matches(b, nameFilter, languageFilter) then [b] else []);
    assert fc == (if Matches(c, nameFilter, languageFilter) then [c] else []);
    FilterConcat([a], [b], nameFilter, languageFilter);
    assert [a] + [b] + [c] == [a, b, c];
    FilterConcat([a] + [b], [c], nameFilter, languageFilter);
  }

  /** The filter test without filters: all three repositories are kept. */
  lemma FilterExamplesNoName(a: Repository, b: Repository, c: Repository)
    requires a == ReactApp() && b == PythonScript() && c == NodeApi()
    ensures FilterRepositories([a, b, c], "", "")
         == [a, b, c]
  {
    FilterThree(a, b, c, "", "");
  }

  /** The language test: only the TypeScript repository is kept. */
  lemma FilterExamplesLanguage(a: Repository, b: Repository, c: Repository)
    requires a == ReactApp() && b == PythonScript() && c == NodeApi()
    ensures FilterRepositories([a, b, c], "", "TypeScript") == [a]
  {
    FilterThree(a, b, c, "", "TypeScript");
  }

  /** The formatter tests in the plain range. */
  lemma FormatNumberExamplesPlain()
    ensures FormatNumber(0) == "0" && FormatNumber(999) == "999"
  {
    assert NatToString(9) == "9";
    assert NatToString(99) == "99";
  }

  /** The formatter tests in the thousands: round values and a half. */
  lemma FormatNumberExamplesThousands()
    ensures FormatNumber(1000) == "1.0K" && FormatNumber(1500) == "1.5K"
  {
    assert RoundedTenths(1000, 1000) == 10 && RoundedTenths(1500, 1000) == 15;
    assert NatToString(1) == "1";
  }

  /** The formatter test that rounds up into the next integer. */
  lemma FormatNumberExamplesRoundUp()
    ensures FormatNumber(9999) == "10.0K"
  {
    assert RoundedTenths(9999, 1000) == 100;
    assert NatToString(10) == "10";
  }

  /** The formatter tests just below a million: the thousands keep growing
      instead of switching to "M". */
  lemma FormatNumberExamplesLarge()
    ensures FormatNumber(999999) == "1000.0K" && FormatNumber(100000) == "100.0K"
  {
    assert RoundedTenths(999999, 1000) == 10000;
    assert RoundedTenths(100000, 1000) == 1000;
    assert NatToString(1) == "1";
    assert NatToString(10) == "10";
    assert NatToString(100) == "100";
    assert NatToString(1000) == "1000";
  }

  /** The formatter tests in the millions. */
  lemma FormatNumberExamplesMillions()
    ensures FormatNumber(1000000) == "1.0M" && FormatNumber(1500000) == "1.5M"
    ensures FormatNumber(9999999) == "10.0M"
  {
    assert RoundedTenths(9999999, 1000000) == 100;
    assert NatToString(10) == "10";
  }

  /** The date tests, by whole days elapsed. */
  lemma FormatDateExamples()
    ensures FormatDate(0) == Relative("Today") && FormatDate(1) == Relative("Yesterday")
    ensures FormatDate(3) == Relative("3 days ago") && FormatDate(14) == Relative("2 weeks ago")
    ensures FormatDate(60) == Relative("2 months ago") && FormatDate(730) == CalendarDate
  {
  }
}
