/**
 * The quote editor of src/components/quotes/quote-form.tsx: the list of
 * items with its add, remove and per-field update handlers, the running
 * total, and the checks made before the form is sent to the server.
 * Item ids come from `Math.random` in the application; here the caller
 * supplies the new id.
 */
module QuoteForm {
  import opened Wrappers
  import opened Toasts
  import Numbers
  import Seqs
  import Strings
  import ClientAutocomplete

  datatype QuoteItem = QuoteItem(id: string, description: string, quantity: real, unitPrice: real)

  /** What the product search hands to `handleAddItem`. */
  datatype Product = Product(name: string, price: real, quantity: real)

  // ------------------------------------------------------------------ total

  /** `items.reduce((acc, item) => acc + item.quantity * item.unitPrice, 0)`. */
  function Total(items: seq<QuoteItem>): real {
    if items == [] then 0.0
    else Total(items[..|items| - 1]) + items[|items| - 1].quantity * items[|items| - 1].unitPrice
  }

  /** The total of a list is the sum of the totals of its parts; an empty list totals 0. */
  lemma {:induction false} TotalConcat(a: seq<QuoteItem>, b: seq<QuoteItem>)
    ensures Total(a + b) == Total(a) + Total(b)
    ensures Total([]) == 0.0
  {
    if b == [] {
      assert a + b == a;
    } else {
      var p := b[..|b| - 1];
      assert (a + b)[..|a + b| - 1] == a + p;
      TotalConcat(a, p);
    }
  }

  // -------------------------------------------------------------- the list

  /** `handleAddItem`: the new item carries the product's name, quantity and price. */
  function NewItem(id: string, product: Product): (item: QuoteItem)
    ensures item.id == id && item.description == product.name
    ensures item.quantity == product.quantity && item.unitPrice == product.price
  {
    QuoteItem(id, product.name, product.quantity, product.price)
  }

  function OtherId(id: string): QuoteItem -> bool {
    (i: QuoteItem) => i.id != id
  }

  /** `items.filter(i => i.id !== id)`. */
  function RemoveItems(items: seq<QuoteItem>, id: string): (r: seq<QuoteItem>)
    ensures forall k :: 0 <= k < |r| ==> r[k].id != id
    ensures forall i :: i in r <==> i in items && i.id != id
  {
    var r := Seqs.Filter(items, OtherId(id));
    assert forall i :: i in items && i.id != id ==> i in r by {
      forall i | i in items && i.id != id ensures i in r {
        var k :| 0 <= k < |items| && items[k] == i;
      }
    }
    r
  }

  /** Removal works piecewise, so the remaining items keep their order; an id no item
      has changes nothing. */
  lemma RemoveItemsLaws(a: seq<QuoteItem>, b: seq<QuoteItem>, id: string)
    ensures RemoveItems(a + b, id) == RemoveItems(a, id) + RemoveItems(b, id)
    ensures (forall k :: 0 <= k < |a| ==> a[k].id != id) ==> RemoveItems(a, id) == a
  {
    Seqs.FilterConcat(a, b, OtherId(id));
    if forall k :: 0 <= k < |a| ==> a[k].id != id {
      Seqs.FilterAll(a, OtherId(id));
    }
  }

  /** The three fields the item rows edit. */
  datatype Edit = SetDescription(text: string) | SetQuantity(amount: real) | SetUnitPrice(amount: real)

  /** `{ ...i, [field]: value }`: the named field takes the value, the others stay. */
  function Apply(i: QuoteItem, e: Edit): (r: QuoteItem)
    ensures r.id == i.id
    ensures r.description == if e.SetDescription? then e.text else i.description
    ensures r.quantity == if e.SetQuantity? then e.amount else i.quantity
    ensures r.unitPrice == if e.SetUnitPrice? then e.amount else i.unitPrice
  {
    match e
    case SetDescription(text) => i.(description := text)
    case SetQuantity(amount) => i.(quantity := amount)
    case SetUnitPrice(amount) => i.(unitPrice := amount)
  }

  /** `items.map(i => i.id === id ? { ...i, [field]: value } : i)`. */
  function UpdateItems(items: seq<QuoteItem>, id: string, e: Edit): (r: seq<QuoteItem>)
    ensures |r| == |items|
    ensures forall k :: 0 <= k < |items| ==> r[k] == if items[k].id == id then Apply(items[k], e) else items[k]
  {
    seq(|items|, k requires 0 <= k < |items| => if items[k].id == id then Apply(items[k], e) else items[k])
  }

  /** An update keeps every id in place and touches nothing but the items with that id. */
  lemma UpdateItemsScope(items: seq<QuoteItem>, id: string, e: Edit)
    ensures forall k :: 0 <= k < |items| ==> UpdateItems(items, id, e)[k].id == items[k].id
    ensures forall k :: (0 <= k < |items| && UpdateItems(items, id, e)[k] != items[k]) ==> items[k].id == id
    ensures (forall k :: 0 <= k < |items| ==> items[k].id != id) ==> UpdateItems(items, id, e) == items
  {
  }

  /** `parseFloat(text) || 0`, the value the quantity and price inputs store. */
  function NumericInput(text: string): (x: real)
    ensures Numbers.ParseDecimal(text).None? ==> x == 0.0
    ensures Numbers.ParseDecimal(text).Some? ==> x == Numbers.ParseDecimal(text).value
  {
    Numbers.OrZero(Numbers.ParseDecimal(text))
  }

  /** A number typed as digits is stored as that number. */
  lemma NumericInputOfNat(n: nat)
    ensures NumericInput(Numbers.NatToString(n)) == n as real
  {
    Numbers.ParseDecimalOfNat(n);
  }

  /** An empty input, or one that starts with a letter, is stored as 0. */
  lemma NumericInputOfText(text: string)
    requires text == [] || 'a' <= text[0] <= 'z'
    ensures NumericInput(text) == 0.0
  {
    if text != [] {
      Strings.TrimStartKeeps(text);
      assert Numbers.SplitSign(text) == (1, text);
      assert !Numbers.IsDigit(text[0], 10);
      assert Numbers.DigitPrefix(text, 10) == [];
    }
  }

  // ---------------------------------------------------------- submission

  /** The checks of `handleSubmit`, in their order: the error toast, or none. */
  function Validate(items: seq<QuoteItem>, clientName: string): (error: Option<string>)
    ensures items == [] ==> error == Some("Adicione pelo menos um item.")
    ensures items != [] && clientName == "" ==> error == Some("Informe o nome do cliente.")
    ensures error.None? <==> items != [] && clientName != ""
  {
    if |items| == 0 then Some("Adicione pelo menos um item.")
    else if clientName == "" then Some("Informe o nome do cliente.")
    else None
  }

  /** What the form sends: the items, the client's name, the `clientPhone` the server
      reads, and the id of the quote being edited (`updateQuote`) or none (`createQuote`). */
  datatype Submission = Submission(items: seq<QuoteItem>, clientName: string, clientPhone: string,
                                   editing: Option<string>)

  /** The form's `clientPhone` entries, in document order: the picker's phone box, then the
      hidden input holding the form's phone; `formData.set` replaces them all by the form's
      phone when it is non-empty. */
  function PhoneEntries(pickerPhone: string, statePhone: string): (entries: seq<string>)
    ensures |entries| >= 1
    ensures statePhone in entries
  {
    if statePhone != "" then [statePhone] else [pickerPhone, statePhone]
  }

  /** `formData.get('clientPhone')`, the first entry: the form's phone when there is one,
      else what the picker's phone box holds (never a missing value). */
  function SentPhone(pickerPhone: string, statePhone: string): (p: string)
    ensures statePhone != "" ==> p == statePhone
    ensures statePhone == "" ==> p == pickerPhone
  {
    PhoneEntries(pickerPhone, statePhone)[0]
  }

  /** How the server call ended. */
  datatype Reply = Saved | Failed(error: string) | Threw

  /** The toast after the server call. */
  function ReplyToast(reply: Reply, editing: Option<string>): (t: Toast)
    ensures reply.Failed? ==> t == ErrorToast(reply.error)
    ensures reply.Threw? ==> t == ErrorToast("Erro ao salvar orçamento.")
    ensures reply.Saved? && editing.Some? ==> t == SuccessToast("Orçamento atualizado!")
    ensures reply.Saved? && editing.None? ==> t == SuccessToast("Orçamento criado!")
  {
    match reply
    case Saved => SuccessToast(if editing.Some? then "Orçamento atualizado!" else "Orçamento criado!")
    case Failed(error) => ErrorToast(error)
    case Threw => ErrorToast("Erro ao salvar orçamento.")
  }

  /** The data a form is opened with when a quote is edited. */
  datatype InitialData = InitialData(id: Option<string>, clientName: string, clientPhone: Option<string>,
                                     items: seq<QuoteItem>)

  class QuoteFormState {
    var items: seq<QuoteItem>
    var clientName: string
    var clientPhone: string
    var loading: bool
    var editing: Option<string>

    /** A new quote starts empty; an edited one starts from its data. */
    constructor (initial: Option<InitialData>)
      ensures initial.None? ==> items == [] && clientName == "" && clientPhone == "" && editing.None?
      ensures initial.Some? ==>
        (items == initial.value.items && clientName == initial.value.clientName &&
         clientPhone == initial.value.clientPhone.GetOr("") && editing == initial.value.id)
      ensures !loading
    {
      if initial.Some? {
        items := initial.value.items;
        clientName := initial.value.clientName;
        clientPhone := initial.value.clientPhone.GetOr("");
        editing := initial.value.id;
      } else {
        items := [];
        clientName := "";
        clientPhone := "";
        editing := None;
      }
      loading := false;
    }

    method HandleAddItem(product: Product, freshId: string)
      modifies this
      ensures items == old(items) + [NewItem(freshId, product)]
      ensures clientName == old(clientName) && clientPhone == old(clientPhone)
      ensures loading == old(loading) && editing == old(editing)
    {
      items := items + [NewItem(freshId, product)];
    }

    method HandleRemoveItem(id: string)
      modifies this
      ensures items == RemoveItems(old(items), id)
      ensures clientName == old(clientName) && clientPhone == old(clientPhone)
      ensures loading == old(loading) && editing == old(editing)
    {
      items := RemoveItems(items, id);
    }

    method HandleUpdateItem(id: string, e: Edit)
      modifies this
      ensures items == UpdateItems(old(items), id, e)
      ensures clientName == old(clientName) && clientPhone == old(clientPhone)
      ensures loading == old(loading) && editing == old(editing)
    {
      items := UpdateItems(items, id, e);
    }

    /** The quantity input: what was typed, read with `parseFloat(...) || 0`. */
    method HandleQuantityInput(id: string, text: string)
      modifies this
      ensures items == UpdateItems(old(items), id, SetQuantity(NumericInput(text)))
      ensures clientName == old(clientName) && clientPhone == old(clientPhone)
      ensures loading == old(loading) && editing == old(editing)
    {
      HandleUpdateItem(id, SetQuantity(NumericInput(text)));
    }

    /** The unit-price input, read the same way. */
    method HandleUnitPriceInput(id: string, text: string)
      modifies this
      ensures items == UpdateItems(old(items), id, SetUnitPrice(NumericInput(text)))
      ensures clientName == old(clientName) && clientPhone == old(clientPhone)
      ensures loading == old(loading) && editing == old(editing)
    {
      HandleUpdateItem(id, SetUnitPrice(NumericInput(text)));
    }

    /** The picker's `onSelect`: a picked client's name and phone (a missing one as `''`),
        or the typed name with the phone the picker holds. */
    method HandleClientReport(report: ClientAutocomplete.Report)
      modifies this
      ensures report.Picked? ==>
        clientName == report.client.name.GetOr("") && clientPhone == report.client.phone.GetOr("")
      ensures report.Typed? ==> clientName == report.name && clientPhone == report.phone
      ensures items == old(items) && loading == old(loading) && editing == old(editing)
    {
      match report
      case Picked(c) =>
        clientName := c.name.GetOr("");
        clientPhone := c.phone.GetOr("");
      case Typed(name, phone) =>
        clientName := name;
        clientPhone := phone;
    }

    /**
     * `handleSubmit`: a failed check shows its toast and sends nothing;
     * otherwise the form is sent (`reply` is how the server call ends), the
     * reply's toast is shown and loading is off again. `pickerPhone` is what
     * the picker's phone box holds.
     */
    method HandleSubmit(reply: Reply, pickerPhone: string) returns (toast: Toast, sent: Option<Submission>)
      modifies this
      ensures Validate(old(items), old(clientName)).Some? ==>
        toast == ErrorToast(Validate(old(items), old(clientName)).value) && sent.None? && loading == old(loading)
      ensures Validate(old(items), old(clientName)).None? ==>
        sent == Some(Submission(old(items), old(clientName), SentPhone(pickerPhone, old(clientPhone)), old(editing))) &&
        toast == ReplyToast(reply, old(editing)) && !loading
      ensures items == old(items) && clientName == old(clientName) && clientPhone == old(clientPhone)
      ensures editing == old(editing)
    {
      var error := Validate(items, clientName);
      if error.Some? {
        return ErrorToast(error.value), None;
      }
      loading := true;
      sent := Some(Submission(items, clientName, SentPhone(pickerPhone, clientPhone), editing));
      toast := ReplyToast(reply, editing);
      loading := false;
    }
  }

  /** Adding an item raises the total by its quantity times its price. */
  lemma AddRaisesTotal(items: seq<QuoteItem>, freshId: string, product: Product)
    ensures Total(items + [NewItem(freshId, product)]) == Total(items) + product.quantity * product.price
  {
    assert (items + [NewItem(freshId, product)])[..|items|] == items;
  }

  /** The form gives the picker the client's name but not the phone, so the picker's phone
      box starts empty: retyping the name of an edited quote empties the form's phone, and
      a submission made before anything is typed into the box sends the empty phone. */
  method RetypedNameDropsPhone(initial: InitialData, typed: string, reply: Reply)
    returns (statePhone: string, sent: Option<Submission>)
    ensures statePhone == ""
    ensures sent.Some? <==> initial.items != [] && typed != ""
    ensures sent.Some? ==> sent.value.clientPhone == "" && sent.value.clientName == typed
  {
    var form := new QuoteFormState(Some(initial));
    var picker := new ClientAutocomplete.AutocompleteState(Some(form.clientName), None);
    var report := picker.HandleChange(typed);
    form.HandleClientReport(report);
    statePhone := form.clientPhone;
    var toast, s := form.HandleSubmit(reply, picker.phone);
    sent := s;
  }

  /** A phone typed into the picker's box after the name reaches the server, even though
      the form's own phone stays empty. */
  method PhoneTypedAfterName(product: Product, freshId: string, name: string, phone: string, reply: Reply)
    returns (sent: Option<Submission>)
    requires name != ""
    ensures sent == Some(Submission([NewItem(freshId, product)], name, phone, None))
  {
    var form := new QuoteFormState(None);
    form.HandleAddItem(product, freshId);
    assert form.items == [NewItem(freshId, product)];
    var picker := new ClientAutocomplete.AutocompleteState(Some(form.clientName), None);
    var report := picker.HandleChange(name);
    form.HandleClientReport(report);
    picker.HandlePhoneChange(phone);
    assert form.clientName == name && form.clientPhone == "" && picker.phone == phone;
    var toast, s := form.HandleSubmit(reply, picker.phone);
    sent := s;
  }
}
