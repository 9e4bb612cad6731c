/**
 * The item finder of src/components/quotes/product-search.tsx: typing
 * filters the saved services, picking one fills in its description and
 * price, and adding checks the fields, hands the product to the quote form
 * and resets the fields.
 */
module ProductSearch {
  import opened Wrappers
  import opened Toasts
  import Strings
  import Numbers
  import Seqs
  import ServiceActions
  import QuoteForm

  /** A saved service as loaded for suggestions; its price is shown with `toString`. */
  datatype SavedService = SavedService(id: string, description: string, defaultPrice: Numbers.CanonicalDecimal)

  /** `s.description.toLowerCase().includes(value.toLowerCase())`. */
  predicate MatchesQuery(s: SavedService, query: string) {
    Strings.Contains(Strings.Lower(s.description), Strings.Lower(query))
  }

  function Matching(query: string): SavedService -> bool {
    (s: SavedService) => MatchesQuery(s, query)
  }

  /** The suggestions for a query: every saved service for a blank query, else the
      matching ones (the query is matched as typed, untrimmed). */
  function Suggestions(saved: seq<SavedService>, query: string): (r: seq<SavedService>)
    ensures Strings.IsBlank(query) ==> r == saved
    ensures forall s :: s in r <==> s in saved && (Strings.IsBlank(query) || MatchesQuery(s, query))
  {
    Strings.TrimEmptyIffBlank(query);
    if Strings.Trim(query) == [] then saved
    else
      var r := Seqs.Filter(saved, Matching(query));
      assert forall s :: s in saved && MatchesQuery(s, query) ==> s in r by {
        forall s | s in saved && MatchesQuery(s, query) ensures s in r {
          var k :| 0 <= k < |saved| && saved[k] == s;
        }
      }
      r
  }

  /** The suggestions keep the saved order. */
  lemma SuggestionsConcat(a: seq<SavedService>, b: seq<SavedService>, query: string)
    ensures Suggestions(a + b, query) == Suggestions(a, query) + Suggestions(b, query)
  {
    Strings.TrimEmptyIffBlank(query);
    Seqs.FilterConcat(a, b, Matching(query));
  }

  /** Letter case in the query never changes the suggestions. */
  lemma SuggestionsIgnoreCase(saved: seq<SavedService>, query: string)
    ensures Suggestions(saved, Strings.Lower(query)) == Suggestions(saved, query)
  {
    Strings.LowerBlank(query);
    Strings.TrimEmptyIffBlank(query);
    Strings.TrimEmptyIffBlank(Strings.Lower(query));
    if !Strings.IsBlank(query) {
      var lowered := Strings.Lower(query);
      Strings.LowerIdempotent(query);
      assert Strings.Lower(lowered) == Strings.Lower(query);
      forall i | 0 <= i < |saved| ensures Matching(lowered)(saved[i]) == Matching(query)(saved[i]) {
        assert MatchesQuery(saved[i], lowered) == MatchesQuery(saved[i], query);
      }
      Seqs.FilterSame(saved, Matching(lowered), Matching(query));
    }
  }

  /** `default_price.toString()` read back by `handleAdd` is the service's own price. */
  lemma SelectedPriceReadsBack(s: SavedService)
    ensures Numbers.OrZero(ServiceActions.ParsePrice(Numbers.DecimalToString(s.defaultPrice))) ==
      Numbers.DecimalValue(s.defaultPrice)
  {
    ServiceActions.ParsePriceComma(s.defaultPrice);
  }

  function PriceValue(text: string): (x: real)
    ensures ServiceActions.ParsePrice(text).None? ==> x == 0.0
    ensures ServiceActions.ParsePrice(text).Some? ==> x == ServiceActions.ParsePrice(text).value
  {
    Numbers.OrZero(ServiceActions.ParsePrice(text))
  }

  /** `parseFloat(quantity) || 1`. */
  function QuantityValue(text: string): (q: real)
    ensures Numbers.ParseDecimal(text).None? ==> q == 1.0
    ensures Numbers.ParseDecimal(text).Some? && Numbers.ParseDecimal(text).value == 0.0 ==> q == 1.0
    ensures Numbers.ParseDecimal(text).Some? && Numbers.ParseDecimal(text).value != 0.0 ==>
      q == Numbers.ParseDecimal(text).value
  {
    Numbers.OrDefault(Numbers.ParseDecimal(text), 1.0)
  }

  /** The checks of `handleAdd`, in their order, and the product they let through. */
  function CheckAdd(description: string, price: string, quantity: string): (r: Result)
    ensures Strings.IsBlank(description) ==> r == Refused(ErrorToast("Informe a descrição do item."))
    ensures !Strings.IsBlank(description) && PriceValue(price) <= 0.0 ==>
      r == Refused(WarningToast("O preço deve ser maior que zero."))
    ensures r.Added? <==> !Strings.IsBlank(description) && PriceValue(price) > 0.0
    ensures r.Added? ==>
      r.product == QuoteForm.Product(Strings.Trim(description), PriceValue(price),
                                     QuantityValue(quantity)) && r.product.price > 0.0
  {
    Strings.TrimEmptyIffBlank(description);
    if Strings.Trim(description) == [] then Refused(ErrorToast("Informe a descrição do item."))
    else
      if PriceValue(price) <= 0.0 then Refused(WarningToast("O preço deve ser maior que zero."))
      else Added(QuoteForm.Product(Strings.Trim(description), PriceValue(price), QuantityValue(quantity)))
  }

  datatype Result = Refused(toast: Toast) | Added(product: QuoteForm.Product)

  class ProductSearchState {
    var description: string
    var price: string
    var quantity: string
    var savedServices: seq<SavedService>
    var suggestions: seq<SavedService>
    var showSuggestions: bool

    constructor ()
      ensures description == "" && price == "" && quantity == "1"
      ensures savedServices == [] && suggestions == [] && !showSuggestions
    {
      description := "";
      price := "";
      quantity := "1";
      savedServices := [];
      suggestions := [];
      showSuggestions := false;
    }

    /** The load on mount: the services are kept when the query returned data. */
    method Loaded(data: Option<seq<SavedService>>)
      modifies this
      ensures data.Some? ==> savedServices == data.value
      ensures data.None? ==> savedServices == old(savedServices)
      ensures description == old(description) && price == old(price) && quantity == old(quantity)
      ensures suggestions == old(suggestions) && showSuggestions == old(showSuggestions)
    {
      if data.Some? {
        savedServices := data.value;
      }
    }

    /** `handleDescriptionChange`: the list is shown exactly when it is not empty. */
    method HandleDescriptionChange(value: string)
      modifies this
      ensures description == value
      ensures suggestions == Suggestions(old(savedServices), value)
      ensures showSuggestions <==> |suggestions| > 0
      ensures price == old(price) && quantity == old(quantity) && savedServices == old(savedServices)
    {
      var found := Suggestions(savedServices, value);
      SetTyped(value, found);
    }

    /** The three state updates of a keystroke. */
    method SetTyped(value: string, found: seq<SavedService>)
      modifies this
      ensures description == value && suggestions == found && (showSuggestions <==> |found| > 0)
      ensures price == old(price) && quantity == old(quantity) && savedServices == old(savedServices)
    {
      description := value;
      suggestions := found;
      showSuggestions := |found| > 0;
    }

    /** Focusing the input: an empty description offers every saved service, otherwise
        the last suggestions come back when there are any. */
    method HandleFocus()
      modifies this
      ensures Strings.IsBlank(old(description)) && |old(savedServices)| > 0 ==>
        suggestions == old(savedServices) && showSuggestions
      ensures !(Strings.IsBlank(old(description)) && |old(savedServices)| > 0) ==>
        suggestions == old(suggestions) && showSuggestions == (old(showSuggestions) || |old(suggestions)| > 0)
      ensures description == old(description) && price == old(price) && quantity == old(quantity)
      ensures savedServices == old(savedServices)
    {
      Strings.TrimEmptyIffBlank(description);
      if |Strings.Trim(description)| == 0 && |savedServices| > 0 {
        suggestions := savedServices;
        showSuggestions := true;
      } else if |suggestions| > 0 {
        showSuggestions := true;
      }
    }

    /** `selectSuggestion`. */
    method SelectSuggestion(s: SavedService)
      modifies this
      ensures description == s.description && price == Numbers.DecimalToString(s.defaultPrice)
      ensures !showSuggestions
      ensures quantity == old(quantity) && savedServices == old(savedServices) && suggestions == old(suggestions)
    {
      description := s.description;
      price := Numbers.DecimalToString(s.defaultPrice);
      showSuggestions := false;
    }

    /** A click outside the list hides it. */
    method CloseSuggestions()
      modifies this
      ensures !showSuggestions
      ensures description == old(description) && price == old(price) && quantity == old(quantity)
      ensures savedServices == old(savedServices) && suggestions == old(suggestions)
    {
      showSuggestions := false;
    }

    /** `handleAdd`: a refused input keeps every field; an added product resets the
        fields to `''`, `''` and `'1'`. */
    method HandleAdd() returns (toast: Toast, added: Option<QuoteForm.Product>)
      modifies this
      ensures var r := CheckAdd(old(description), old(price), old(quantity));
        r.Refused? ==>
          (toast == r.toast && added.None? &&
           description == old(description) && price == old(price) && quantity == old(quantity))
      ensures var r := CheckAdd(old(description), old(price), old(quantity));
        r.Added? ==>
          (added == Some(r.product) && toast == SuccessToast("Item adicionado!") &&
           description == "" && price == "" && quantity == "1")
      ensures savedServices == old(savedServices) && suggestions == old(suggestions)
      ensures showSuggestions == old(showSuggestions)
    {
      var r := CheckAdd(description, price, quantity);
      match r
      case Refused(t) =>
        toast, added := t, None;
      case Added(product) =>
        added := Some(product);
        Clear();
        toast := SuccessToast("Item adicionado!");
    }

    /** The three state setters of a successful add. */
    method Clear()
      modifies this
      ensures description == "" && price == "" && quantity == "1"
      ensures savedServices == old(savedServices) && suggestions == old(suggestions)
      ensures showSuggestions == old(showSuggestions)
    {
      description, price, quantity := "", "", "1";
    }
  }

  /** Picking a saved service with a positive price and adding it hands on that service's
      trimmed description and its price. */
  lemma PickThenAdd(s: SavedService, quantity: string)
    requires !Strings.IsBlank(s.description) && Numbers.DecimalValue(s.defaultPrice) > 0.0
    ensures CheckAdd(s.description, Numbers.DecimalToString(s.defaultPrice), quantity) ==
      Added(QuoteForm.Product(Strings.Trim(s.description), Numbers.DecimalValue(s.defaultPrice), QuantityValue(quantity)))
  {
    SelectedPriceReadsBack(s);
  }
}
