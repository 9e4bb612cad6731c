/**
 * The client picker of src/components/clients/client-autocomplete.tsx: the
 * clients are loaded once, the list shown while typing matches the name
 * (lower-cased) or the phone, the list shown on focus matches the name only,
 * and every keystroke and every pick is reported to the form.
 */
module ClientAutocomplete {
  import opened Wrappers
  import Strings
  import Seqs

  /** A client row; the name and the phone may be missing (`c.name?`, `c.phone?`). */
  datatype Client = Client(id: string, name: Option<string>, phone: Option<string>)

  /** What `onSelect` receives: a picked row, or the typed name with the current phone. */
  datatype Report = Picked(client: Client) | Typed(name: string, phone: string)

  /** `c.name?.toLowerCase().includes(q)` with `q` the lower-cased query. */
  predicate NameMatches(c: Client, query: string) {
    c.name.Some? && Strings.Contains(Strings.Lower(c.name.value), Strings.Lower(query))
  }

  /** The typing filter: the name test, or `c.phone?.includes(q)` with the same
      lower-cased `q`. */
  predicate TypedMatches(c: Client, query: string) {
    NameMatches(c, query) || (c.phone.Some? && Strings.Contains(c.phone.value, Strings.Lower(query)))
  }

  function ByName(query: string): Client -> bool {
    (c: Client) => NameMatches(c, query)
  }

  function ByNameOrPhone(query: string): Client -> bool {
    (c: Client) => TypedMatches(c, query)
  }

  /** The list the filter effect shows: every client for a blank query, else the
      clients whose name or phone matches, in their loaded order. */
  function TypedSuggestions(all: seq<Client>, query: string): (r: seq<Client>)
    ensures Strings.IsBlank(query) ==> r == all
    ensures forall c :: c in r <==> c in all && (Strings.IsBlank(query) || TypedMatches(c, query))
  {
    Strings.TrimEmptyIffBlank(query);
    if Strings.Trim(query) == [] then all
    else
      var r := Seqs.Filter(all, ByNameOrPhone(query));
      assert forall c :: c in all && TypedMatches(c, query) ==> c in r by {
        forall c | c in all && TypedMatches(c, query) ensures c in r {
          var k :| 0 <= k < |all| && all[k] == c;
        }
      }
      r
  }

  /** The list `handleFocus` shows: every client for a blank query, else the clients
      whose name matches. */
  function FocusSuggestions(all: seq<Client>, query: string): (r: seq<Client>)
    ensures Strings.IsBlank(query) ==> r == all
    ensures forall c :: c in r <==> c in all && (Strings.IsBlank(query) || NameMatches(c, query))
  {
    Strings.TrimEmptyIffBlank(query);
    if Strings.Trim(query) == [] then all
    else
      var r := Seqs.Filter(all, ByName(query));
      assert forall c :: c in all && NameMatches(c, query) ==> c in r by {
        forall c | c in all && NameMatches(c, query) ensures c in r {
          var k :| 0 <= k < |all| && all[k] == c;
        }
      }
      r
  }

  /** The focus list is the typing list with the phone-only matches taken out, in the
      same order. */
  lemma FocusNarrowsTyped(all: seq<Client>, query: string)
    ensures !Strings.IsBlank(query) ==>
      Seqs.Filter(TypedSuggestions(all, query), ByName(query)) == FocusSuggestions(all, query)
    ensures forall c :: c in FocusSuggestions(all, query) ==> c in TypedSuggestions(all, query)
  {
    Strings.TrimEmptyIffBlank(query);
    if !Strings.IsBlank(query) {
      Seqs.FilterFilter(all, ByNameOrPhone(query), ByName(query));
    }
  }

  /** A client found only by the phone is in the typing list but not in `handleFocus`'s
      own list (the filter effect replaces the latter; see `FocusThenRefresh`). */
  lemma PhoneOnlyMatch()
    ensures var c := Client("1", Some("Ana"), Some("119"));
      TypedSuggestions([c], "9") == [c] && FocusSuggestions([c], "9") == []
  {
    var c := Client("1", Some("Ana"), Some("119"));
    PhoneOnlyMatchTests(c);
    Strings.TrimEmptyIffBlank("9");
    Seqs.FilterAll([c], ByNameOrPhone("9"));
    Seqs.FilterNone([c], ByName("9"));
  }

  lemma PhoneOnlyMatchTests(c: Client)
    requires c == Client("1", Some("Ana"), Some("119"))
    ensures !Strings.IsBlank("9") && Strings.Lower("9") == "9"
    ensures !NameMatches(c, "9") && TypedMatches(c, "9")
  {
    assert !Strings.IsBlank("9") && Strings.Lower("9") == "9" by {
      assert "9"[0] == '9' && !Strings.IsSpace('9');
    }
    assert Strings.OccursAt("119", "9", 2);
    assert Strings.Lower("Ana") == "ana";
    forall i | 0 <= i <= 3 ensures !Strings.OccursAt("ana", "9", i) {
      if 0 <= i < 3 {
        assert "ana"[i..i + 1] == ["ana"[i]];
      }
    }
  }

  class AutocompleteState {
    var query: string
    var phone: string
    var allClients: seq<Client>
    var suggestions: seq<Client>
    var showSuggestions: bool
    var loading: bool

    /** `defaultValue || ''` and `defaultPhone || ''`. */
    constructor (defaultValue: Option<string>, defaultPhone: Option<string>)
      ensures query == defaultValue.GetOr("") && phone == defaultPhone.GetOr("")
      ensures allClients == [] && suggestions == [] && !showSuggestions && !loading
    {
      query := defaultValue.GetOr("");
      phone := defaultPhone.GetOr("");
      allClients := [];
      suggestions := [];
      showSuggestions := false;
      loading := false;
    }

    /** The load on mount: `results || []`, and loading is off again. */
    method LoadAll(results: Option<seq<Client>>)
      modifies this
      ensures allClients == results.GetOr([]) && !loading
      ensures query == old(query) && phone == old(phone)
      ensures suggestions == old(suggestions) && showSuggestions == old(showSuggestions)
    {
      loading := true;
      allClients := results.GetOr([]);
      loading := false;
    }

    /** The filter effect: nothing while the list is hidden, else the typing list. */
    method RefreshSuggestions()
      modifies this
      ensures !old(showSuggestions) ==> suggestions == old(suggestions)
      ensures old(showSuggestions) ==> suggestions == TypedSuggestions(old(allClients), old(query))
      ensures query == old(query) && phone == old(phone) && allClients == old(allClients)
      ensures showSuggestions == old(showSuggestions) && loading == old(loading)
    {
      if !showSuggestions {
        return;
      }
      suggestions := TypedSuggestions(allClients, query);
    }

    /** `handleFocus`'s own list: every client for a blank query, else the name matches. */
    method HandleFocus()
      modifies this
      ensures suggestions == FocusSuggestions(old(allClients), old(query)) && showSuggestions
      ensures query == old(query) && phone == old(phone) && allClients == old(allClients)
      ensures loading == old(loading)
    {
      suggestions := FocusSuggestions(allClients, query);
      showSuggestions := true;
    }

    /** A focus as the component runs it: `handleFocus` shows the list, and since
        `showSuggestions` is a dependency of the filter effect, the effect runs next and
        replaces the focus list with the typing list. */
    method FocusThenRefresh()
      modifies this
      ensures suggestions == TypedSuggestions(old(allClients), old(query)) && showSuggestions
      ensures query == old(query) && phone == old(phone) && allClients == old(allClients)
      ensures loading == old(loading)
    {
      HandleFocus();
      RefreshSuggestions();
    }

    /** The phone box: `setPhone(e.target.value)`; the form is not told. */
    method HandlePhoneChange(text: string)
      modifies this
      ensures phone == text
      ensures query == old(query) && allClients == old(allClients) && suggestions == old(suggestions)
      ensures showSuggestions == old(showSuggestions) && loading == old(loading)
    {
      phone := text;
    }

    /** `handleBlur`, once its delay has passed. */
    method HandleBlur()
      modifies this
      ensures !showSuggestions
      ensures query == old(query) && phone == old(phone) && allClients == old(allClients)
      ensures suggestions == old(suggestions) && loading == old(loading)
    {
      showSuggestions := false;
    }

    /** `handleSelect`: the name and the phone are copied, a missing phone as `''`
        (`client.phone || ''`); the list is hidden and the row is reported. A client
        without a name is not modelled (the query is always a text). */
    method HandleSelect(c: Client) returns (report: Report)
      modifies this
      ensures query == c.name.GetOr("") && phone == c.phone.GetOr("") && !showSuggestions
      ensures report == Picked(c)
      ensures allClients == old(allClients) && suggestions == old(suggestions) && loading == old(loading)
    {
      query := c.name.GetOr("");
      phone := c.phone.GetOr("");
      showSuggestions := false;
      report := Picked(c);
    }

    /** Typing: the query takes the text and the form hears the text with the phone it
        had. */
    method HandleChange(value: string) returns (report: Report)
      modifies this
      ensures query == value && report == Typed(value, old(phone))
      ensures phone == old(phone) && allClients == old(allClients) && suggestions == old(suggestions)
      ensures showSuggestions == old(showSuggestions) && loading == old(loading)
    {
      query := value;
      report := Typed(value, phone);
    }

    /** `handleCreateSuccess` empties the list. */
    method HandleCreateSuccess()
      modifies this
      ensures suggestions == []
      ensures query == old(query) && phone == old(phone) && allClients == old(allClients)
      ensures showSuggestions == old(showSuggestions) && loading == old(loading)
    {
      suggestions := [];
    }
  }

  /** After a focus, as the effects settle, a client found only by the phone is listed. */
  method PhoneOnlyShownAfterFocus() returns (shown: seq<Client>)
    ensures shown == [Client("1", Some("Ana"), Some("119"))]
  {
    var c := Client("1", Some("Ana"), Some("119"));
    var picker := new AutocompleteState(Some("9"), None);
    picker.LoadAll(Some([c]));
    picker.FocusThenRefresh();
    PhoneOnlyMatch();
    shown := picker.suggestions;
  }
}
