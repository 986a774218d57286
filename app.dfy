/** The search session: the seven pieces of state of the page component,
    the transitions that start, complete, retry and reset a search, the two
    effects that turn a query result into a list or an error message, and
    the choice of which panels the page shows. */
module App {
  import opened Strings
  import opened GitHubTypes
  import SearchBar
  import Store

  // ---------------------------------------------------------------------
  // Query outcomes and error messages
  // ---------------------------------------------------------------------

  /** An error raised by the query: only its optional `message` is read. */
  datatype QueryError = QueryError(message: Option<string>)

  /** How a query ends. With the "all" error policy a resolved query can
      carry data and an error at once, either of them possibly absent. */
  datatype QueryOutcome =
    | Resolved(data: Option<SearchResponse>, error: Option<QueryError>)
    | Rejected(thrown: QueryError)

  const RateLimitMessage: string :=
    "GitHub API rate limit exceeded." + " Please try again later or check your token."
  const BadCredentialsMessage: string :=
    "Invalid GitHub token." + " Please check your VITE_GITHUB_TOKEN in .env file."
  const ApiErrorPrefix: string := "GitHub API error: "

  function NotFoundMessage(username: string): string {
    "User \"" + username + "\" not found on GitHub"
  }

  predicate MentionsRateLimit(e: QueryError) {
    e.message.Some? && Contains(e.message.value, "rate limit")
  }

  predicate MentionsBadCredentials(e: QueryError) {
    e.message.Some? && Contains(e.message.value, "Bad credentials")
  }

  /** The detail of a generic error: the message, or "Unknown error" when
      it is missing or empty. */
  function ErrorDetail(e: QueryError): (d: string)
    ensures d != ""
    ensures e.message.Some? && e.message.value != "" ==> d == e.message.value
    ensures !(e.message.Some? && e.message.value != "") ==> d == "Unknown error"
  {
    if e.message.Some? && e.message.value != "" then e.message.value else "Unknown error"
  }

  /** The message the error effect shows for a query error. The three
      kinds of message cannot be confused: each text identifies its case. */
  function ClassifyQueryError(e: QueryError): (msg: string)
    ensures msg == RateLimitMessage <==> MentionsRateLimit(e)
    ensures msg == BadCredentialsMessage <==> !MentionsRateLimit(e) && MentionsBadCredentials(e)
    ensures ApiErrorPrefix <= msg <==> !MentionsRateLimit(e) && !MentionsBadCredentials(e)
    ensures ApiErrorPrefix <= msg ==> msg[|ApiErrorPrefix|..] == ErrorDetail(e)
  {
    assert RateLimitMessage[11] == 'r' && BadCredentialsMessage[0] == 'I';
    assert ApiErrorPrefix[0] == 'G' && ApiErrorPrefix[11] == 'e';
    if MentionsRateLimit(e) then RateLimitMessage
    else if MentionsBadCredentials(e) then BadCredentialsMessage
    else
      var msg := ApiErrorPrefix + ErrorDetail(e);
      assert msg[0] == 'G' && msg[11] == 'e';
      msg
  }

  /** A "not found" message is never mistaken for a query error's message. */
  lemma NotFoundIsNotAQueryError(username: string, e: QueryError)
    ensures NotFoundMessage(username) != ClassifyQueryError(e)
  {
    var m := ClassifyQueryError(e);
    assert NotFoundMessage(username)[0] == 'U';
    if m == RateLimitMessage {
      assert m[0] == 'G';
    } else if m == BadCredentialsMessage {
      assert m[0] == 'I';
    } else {
      assert m[0] == ApiErrorPrefix[0];
    }
  }

  // ---------------------------------------------------------------------
  // The session state and its transitions
  // ---------------------------------------------------------------------

  /** The seven state variables of the search page. */
  datatype Session = Session(
    searchUsername: string,
    inputValue: string,
    repositories: seq<Repository>,
    error: Option<string>,
    loading: bool,
    queryError: Option<QueryError>,
    data: Option<SearchResponse>)

  function InitialSession(): Session {
    Session("", "", [], None, false, None, None)
  }

  /** A string-or-null value used as a condition. */
  predicate Truthy(s: Option<string>) {
    s.Some? && s.value != ""
  }

  /** The invariant every reachable session keeps: while a query runs
      nothing of the previous one is left, and an error is shown only
      with an empty list and a non-empty text. */
  predicate Valid(s: Session) {
    && (s.loading ==> s.error.None? && s.repositories == [] && s.queryError.None? && s.data.None?)
    && (s.error.Some? ==> s.error.value != "" && s.repositories == [])
  }

  /** `handleSearch`, first half: everything is cleared and the spinner
      starts; the text box is left alone. */
  function StartSearch(s: Session, username: string): (r: Session)
    ensures r.searchUsername == username && r.loading
    ensures r.error.None? && r.repositories == [] && r.queryError.None? && r.data.None?
    ensures r.inputValue == s.inputValue
    ensures Valid(r)
  {
    Session(username, s.inputValue, [], None, true, None, None)
  }

  /** `handleSearch`, second half: the result is stored and the spinner
      stops. A rejected query leaves `data` as it was. */
  function SettleQuery(s: Session, outcome: QueryOutcome): (r: Session)
    ensures !r.loading
    ensures outcome.Resolved? ==>
              r == s.(data := outcome.data, queryError := outcome.error, loading := false)
    ensures outcome.Rejected? ==>
              r == s.(queryError := Some(outcome.thrown), loading := false)
  {
    match outcome
    case Resolved(data, error) => s.(data := data, queryError := error, loading := false)
    case Rejected(thrown) => s.(queryError := Some(thrown), loading := false)
  }

  /** The repositories of a found account: its nodes, or none when the
      nodes are absent. */
  function NodesOf(u: User): seq<Repository> {
    if u.repositories.nodes.Some? then u.repositories.nodes.value else []
  }

  /** The effect on `data`: a found account fills the list and clears the
      error; an explicit "no such account" with a name being searched
      shows the not-found message; anything else changes nothing. */
  function DataEffect(s: Session): (r: Session)
    ensures r.searchUsername == s.searchUsername && r.inputValue == s.inputValue
    ensures r.loading == s.loading && r.queryError == s.queryError && r.data == s.data
    ensures s.data.Some? && s.data.value.user.Some? ==>
              r == s.(repositories := NodesOf(s.data.value.user.value), error := None)
    ensures s.data.Some? && s.data.value.user.None? && s.searchUsername != "" ==>
              r == s.(error := Some(NotFoundMessage(s.searchUsername)), repositories := [])
    ensures s.data.None? || (s.data.value.user.None? && s.searchUsername == "") ==> r == s
  {
    if s.data.Some? && s.data.value.user.Some? then
      s.(repositories := NodesOf(s.data.value.user.value), error := None)
    else if s.data.Some? && s.data.value.user.None? && s.searchUsername != "" then
      s.(error := Some(NotFoundMessage(s.searchUsername)), repositories := [])
    else s
  }

  /** The effect on `queryError`: any error replaces the message by its
      classification and empties the list. */
  function ErrorEffect(s: Session): (r: Session)
    ensures r.searchUsername == s.searchUsername && r.inputValue == s.inputValue
    ensures r.loading == s.loading && r.queryError == s.queryError && r.data == s.data
    ensures s.queryError.Some? ==>
              r == s.(error := Some(ClassifyQueryError(s.queryError.value)), repositories := [])
    ensures s.queryError.None? ==> r == s
  {
    if s.queryError.Some? then
      s.(error := Some(ClassifyQueryError(s.queryError.value)), repositories := [])
    else s
  }

  /** A query completes: the result is stored, then the two effects run in
      the order they are declared. */
  function CompleteQuery(s: Session, outcome: QueryOutcome): (r: Session)
    ensures !r.loading
    ensures r.searchUsername == s.searchUsername && r.inputValue == s.inputValue
    // an error always wins, and always empties the list
    ensures outcome.Rejected? ==>
              r.error == Some(ClassifyQueryError(outcome.thrown)) && r.repositories == []
    ensures outcome.Resolved? && outcome.error.Some? ==>
              r.error == Some(ClassifyQueryError(outcome.error.value)) && r.repositories == []
    // without an error: a found account's repositories, or "not found"
    ensures outcome.Resolved? && outcome.error.None? && outcome.data.Some? && outcome.data.value.user.Some? ==>
              r.repositories == NodesOf(outcome.data.value.user.value) && r.error.None?
    ensures outcome.Resolved? && outcome.error.None? && outcome.data.Some? && outcome.data.value.user.None?
            && s.searchUsername != "" ==>
              r.error == Some(NotFoundMessage(s.searchUsername)) && r.repositories == []
    // and with neither, nothing but the spinner changes
    ensures outcome.Resolved? && outcome.error.None?
            && (outcome.data.None? || (outcome.data.value.user.None? && s.searchUsername == "")) ==>
              r == s.(data := outcome.data, queryError := None, loading := false)
  {
    ErrorEffect(DataEffect(SettleQuery(s, outcome)))
  }

  /** `handleRetry`: searches again for the current name, if there is one. */
  function Retry(s: Session): (r: Session)
    ensures s.searchUsername != "" ==> r == StartSearch(s, s.searchUsername)
    ensures s.searchUsername == "" ==> r == s
  {
    if s.searchUsername != "" then StartSearch(s, s.searchUsername) else s
  }

  /** `handleReset`: back to the initial session. */
  function Reset(s: Session): (r: Session)
    ensures r == InitialSession()
  {
    Session("", "", [], None, false, None, None)
  }

  /** Every transition keeps the invariant. */
  lemma TransitionsKeepValid(s: Session, username: string, outcome: QueryOutcome, text: string)
    requires Valid(s)
    ensures Valid(StartSearch(s, username))
    ensures Valid(CompleteQuery(s, outcome))
    ensures Valid(Retry(s))
    ensures Valid(Reset(s))
    ensures Valid(s.(inputValue := text))
  {
    var settled := SettleQuery(s, outcome);
    var afterData := DataEffect(settled);
    assert afterData.error.Some? ==> afterData.error.value != "" && afterData.repositories == [];
  }

  lemma InitialSessionValid()
    ensures Valid(InitialSession())
    ensures InitialSession().searchUsername == "" && !InitialSession().loading
  {
  }

  // ---------------------------------------------------------------------
  // View selection
  // ---------------------------------------------------------------------

  /** Which panels the page shows below the search bar. */
  datatype Screen = Screen(
    readyPrompt: bool,               // "Ready to explore?"
    spinner: bool,                   // "Searching for repositories..."
    errorPanel: Option<string>,      // the error with Retry and "Start New Search"
    noRepositories: bool,            // "No repositories found"
    list: Option<seq<Repository>>)   // the found list and the repository list

  function SelectScreen(s: Session): (v: Screen)
    ensures v.readyPrompt <==> s.searchUsername == ""
    ensures v.spinner <==> s.searchUsername != "" && s.loading
    ensures v.errorPanel.Some? <==> s.searchUsername != "" && Truthy(s.error)
    ensures v.errorPanel.Some? ==> v.errorPanel == s.error
    ensures v.noRepositories <==>
              s.searchUsername != "" && !s.loading && !Truthy(s.error) && s.repositories == []
    ensures v.list.Some? <==>
              s.searchUsername != "" && !s.loading && !Truthy(s.error) && s.repositories != []
    ensures v.list.Some? ==> v.list.value == s.repositories
    ensures !(v.noRepositories && v.list.Some?)
  {
    var active := s.searchUsername != "";
    var settled := active && !s.loading && !Truthy(s.error);
    Screen(
      !active,
      active && s.loading,
      if active && Truthy(s.error) then s.error else None,
      settled && |s.repositories| == 0,
      if settled && |s.repositories| > 0 then Some(s.repositories) else None)
  }

  /** The number of panels a screen shows. */
  function PanelCount(v: Screen): nat {
    (if v.readyPrompt then 1 else 0) + (if v.spinner then 1 else 0)
    + (if v.errorPanel.Some? then 1 else 0) + (if v.noRepositories then 1 else 0)
    + (if v.list.Some? then 1 else 0)
  }

  /** In every valid session the page shows exactly one panel. */
  lemma ExactlyOnePanel(s: Session)
    requires Valid(s)
    ensures PanelCount(SelectScreen(s)) == 1
  {
  }

  /** A reset always lands on the "Ready to explore?" prompt, and a retry
      with a name shows the spinner. */
  lemma ResetAndRetryScreens(s: Session)
    ensures SelectScreen(Reset(s)).readyPrompt && PanelCount(SelectScreen(Reset(s))) == 1
    ensures s.searchUsername != "" ==> SelectScreen(Retry(s)).spinner && PanelCount(SelectScreen(Retry(s))) == 1
  {
  }

  /** A search for an existing account with repositories ends on the list
      of exactly those repositories, whatever the session was before. */
  lemma FoundAccountShowsList(s: Session, username: string, u: User)
    requires username != "" && u.repositories.nodes.Some? && u.repositories.nodes.value != []
    ensures var r := CompleteQuery(StartSearch(s, username), Resolved(Some(SearchResponse(Some(u))), None));
            SelectScreen(r).list == Some(u.repositories.nodes.value) && PanelCount(SelectScreen(r)) == 1
  {
    var r := CompleteQuery(StartSearch(s, username), Resolved(Some(SearchResponse(Some(u))), None));
    assert r.error.None?;
  }

  /** A search for a name without an account ends on the error panel with
      the not-found message naming it. */
  lemma MissingAccountShowsNotFound(s: Session, username: string)
    requires username != ""
    ensures var r := CompleteQuery(StartSearch(s, username), Resolved(Some(SearchResponse(None)), None));
            SelectScreen(r).errorPanel == Some(NotFoundMessage(username)) && PanelCount(SelectScreen(r)) == 1
  {
  }

  // ---------------------------------------------------------------------
  // The page component
  // ---------------------------------------------------------------------

  class GitHubSearch {
    var searchUsername: string
    var inputValue: string
    var repositories: seq<Repository>
    var error: Option<string>
    var loading: bool
    var queryError: Option<QueryError>
    var data: Option<SearchResponse>

    function State(): Session
      reads this
    {
      Session(searchUsername, inputValue, repositories, error, loading, queryError, data)
    }

    constructor ()
      ensures State() == InitialSession()
    {
      searchUsername := "";
      inputValue := "";
      repositories := [];
      error := None;
      loading := false;
      queryError := None;
      data := None;
    }

    /** The search bar's text box: keeps the raw, untrimmed text. */
    method SetInputValue(text: string)
      modifies this
      ensures State() == old(State()).(inputValue := text)
    {
      inputValue := text;
    }

    /** `handleSearch` up to the query: clears the old result and starts
      the spinner. */
    method HandleSearch(username: string)
      modifies this
      ensures State() == StartSearch(old(State()), username)
    {
      searchUsername := username;
      error := None;
      repositories := [];
      loading := true;
      queryError := None;
      data := None;
    }

    /** The data effect, applied to the fields in place. */
    method ProcessData()
      modifies this
      ensures State() == DataEffect(old(State()))
    {
      if data.Some? && data.value.user.Some? {
        var user := data.value.user.value;
        repositories := if user.repositories.nodes.Some? then user.repositories.nodes.value else [];
        error := None;
      } else if data.Some? && data.value.user.None? && searchUsername != "" {
        error := Some(NotFoundMessage(searchUsername));
        repositories := [];
      }
    }

    /** The query-error effect, applied to the fields in place. */
    method ProcessQueryError()
      modifies this
      ensures State() == ErrorEffect(old(State()))
    {
      if queryError.Some? {
        var e := queryError.value;
        if e.message.Some? && Contains(e.message.value, "rate limit") {
          error := Some(RateLimitMessage);
        } else if e.message.Some? && Contains(e.message.value, "Bad credentials") {
          error := Some(BadCredentialsMessage);
        } else {
          error := Some(ApiErrorPrefix + ErrorDetail(e));
        }
        repositories := [];
      }
    }

    /** `handleSearch` after the query: stores the outcome, stops the
      spinner, then the effects run. No check is made that the outcome
      belongs to the latest search. */
    method CompleteSearch(outcome: QueryOutcome)
      modifies this
      ensures State() == CompleteQuery(old(State()), outcome)
    {
      match outcome {
        case Resolved(d, e) =>
          data := d;
          queryError := e;
        case Rejected(thrown) =>
          queryError := Some(thrown);
      }
      loading := false;
      ProcessData();
      ProcessQueryError();
    }

    method HandleRetry()
      modifies this
      ensures State() == Retry(old(State()))
    {
      if searchUsername != "" {
        HandleSearch(searchUsername);
      }
    }

    method HandleReset()
      modifies this
      ensures State() == Reset(old(State()))
    {
      searchUsername := "";
      inputValue := "";
      repositories := [];
      error := None;
      loading := false;
      queryError := None;
      data := None;
    }

    /** The search bar's submit wired to `handleSearch`: a non-empty trimmed
      input is stored as the username and searched for; otherwise neither
      the page nor the store changes. */
    method SubmitSearch(store: Store.RepoStore)
      modifies this, store
      ensures var u := SearchBar.SubmittedUsername(old(inputValue));
              if u.Some? then
                && State() == StartSearch(old(State()), u.value)
                && store.State() == old(store.State()).(username := u.value)
              else
                && State() == old(State())
                && store.State() == old(store.State())
    {
      var searched := SearchBar.HandleSubmit(inputValue, store);
      if searched.Some? {
        HandleSearch(searched.value);
      }
    }
  }
}
