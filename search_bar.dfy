/** The search bar: submit trims the typed text, refuses an empty result,
    and otherwise commits it to the store and starts a search; Enter acts
    as submit; the input and the button are disabled while a search runs. */
module SearchBar {
  import opened Strings
  import opened GitHubTypes
  import Store

  /** The username a submit would search for: the trimmed input, or
      nothing when the trimmed input is empty. */
  function SubmittedUsername(inputValue: string): (r: Option<string>)
    ensures r.None? <==> AllWhitespace(inputValue)
    ensures r.Some? ==> r.value != [] && r.value == Trim(inputValue)
    ensures r.Some? ==> !IsWhitespace(r.value[0]) && !IsWhitespace(r.value[|r.value| - 1])
  {
    var trimmed := Trim(inputValue);
    if trimmed != [] then Some(trimmed) else None
  }

  /** Surrounding whitespace never reaches the search, and a padded name
      is searched for as the bare name. */
  lemma SubmitStripsPadding(pre: string, name: string, post: string)
    requires AllWhitespace(pre) && AllWhitespace(post)
    requires name != [] && !IsWhitespace(name[0]) && !IsWhitespace(name[|name| - 1])
    ensures SubmittedUsername(pre + name + post) == Some(name)
  {
    TrimPadded(pre, name, post);
  }

  /** The test inputs: "testuser" with and without padding is searched
      for as "testuser". */
  lemma SubmitExamplesAccepted(name: string)
    requires name == "testuser"
    ensures SubmittedUsername(name) == Some(name)
    ensures SubmittedUsername("  " + name + "  ") == Some(name)
  {
    assert !IsWhitespace(name[0]) && !IsWhitespace(name[|name| - 1]);
    SubmitStripsPadding([], name, []);
    assert [] + name + [] == name;
    assert AllWhitespace("  ");
    SubmitStripsPadding("  ", name, "  ");
  }

  /** The test inputs: empty and blank input is refused. */
  lemma SubmitExamplesRefused()
    ensures SubmittedUsername("") == None
    ensures SubmittedUsername("   ") == None
  {
    assert AllWhitespace("   ");
  }

  /** Whether the text box and the submit button are disabled. */
  datatype Controls = Controls(inputDisabled: bool, submitDisabled: bool)

  function RenderControls(inputValue: string, isLoading: bool): (c: Controls)
    ensures c.inputDisabled <==> isLoading
    ensures c.submitDisabled <==> isLoading || AllWhitespace(inputValue)
    ensures !c.submitDisabled ==> SubmittedUsername(inputValue).Some?
  {
    Controls(isLoading, Trim(inputValue) == [] || isLoading)
  }

  /** `handleSubmit`: with a non-empty trimmed input, stores it as the
      username and returns it as the argument of the search callback;
      otherwise changes nothing and returns nothing. */
  method HandleSubmit(inputValue: string, store: Store.RepoStore) returns (searched: Option<string>)
    modifies store
    ensures searched == SubmittedUsername(inputValue)
    ensures searched.Some? ==> store.State() == old(store.State()).(username := searched.value)
    ensures searched.None? ==> store.State() == old(store.State())
  {
    var trimmedUsername := Trim(inputValue);
    if trimmedUsername != [] {
      store.SetUsername(trimmedUsername);
      searched := Some(trimmedUsername);
    } else {
      searched := None;
    }
  }

  /** `handleKeyPress`: Enter submits, every other key does nothing. */
  method HandleKeyPress(key: string, inputValue: string, store: Store.RepoStore) returns (searched: Option<string>)
    modifies store
    ensures key == "Enter" ==> searched == SubmittedUsername(inputValue)
    ensures key == "Enter" && searched.Some? ==>
              store.State() == old(store.State()).(username := searched.value)
    ensures key != "Enter" || searched.None? ==> store.State() == old(store.State())
    ensures key != "Enter" ==> searched.None?
  {
    if key == "Enter" {
      searched := HandleSubmit(inputValue, store);
    } else {
      searched := None;
    }
  }
}
