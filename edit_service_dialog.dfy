/**
 * The edit dialog of src/components/profile/edit-service-dialog.tsx: its
 * fields start from the stored service (the price shown with a decimal
 * comma, no folder shown as `none`), and saving sends a form to
 * `updateService` that leaves out blank details and an empty folder.
 * How the server call ends is an input.
 */
module EditServiceDialog {
  import opened Wrappers
  import opened Toasts
  import Strings
  import Numbers
  import ServiceActions

  /** A stored service as the dialog receives it. */
  datatype Service = Service(id: string, description: string, defaultPrice: Numbers.CanonicalDecimal,
                             kind: Option<string>, details: Option<string>, folderId: Option<string>)

  /** `default_price.toString().replace('.', ',')`: the first point becomes a comma. */
  function PriceDisplay(d: Numbers.CanonicalDecimal): (s: string)
    ensures '.' !in Numbers.DecimalToString(d) ==> s == Numbers.DecimalToString(d)
  {
    Strings.ReplaceFirst(Numbers.DecimalToString(d), '.', ',')
  }

  /** The shown price is read back by the server as the stored price. */
  lemma PriceDisplayReadsBack(d: Numbers.CanonicalDecimal)
    ensures ServiceActions.ParsePrice(PriceDisplay(d)) == Some(Numbers.DecimalValue(d))
  {
    ServiceActions.ParsePriceComma(d);
  }

  /** A negative stored price, which the dialog can save, is shown with its sign and
      read back by the server as that price. */
  lemma NegativePriceShown()
    ensures PriceDisplay(Numbers.Decimal(true, 5, "5")) == "-5,5"
    ensures ServiceActions.ParsePrice(PriceDisplay(Numbers.Decimal(true, 5, "5"))) == Some(-5.5)
  {
    var d := Numbers.Decimal(true, 5, "5");
    NegativeText(d);
    PriceDisplayReadsBack(d);
    NegativeValue(d);
  }

  lemma NegativeText(d: Numbers.CanonicalDecimal)
    requires d == Numbers.Decimal(true, 5, "5")
    ensures PriceDisplay(d) == "-5,5"
  {
    assert Numbers.NatToString(5) == "5";
    assert Numbers.UnsignedText(d) == "5.5";
    var s := Numbers.DecimalToString(d);
    assert s == "-5.5";
    assert s[0] == '-' && s[0] != '.' && s[1..] == "5.5";
    assert "5.5"[0] != '.' && "5.5"[1..] == ".5";
    assert ".5"[0] == '.' && ".5"[1..] == "5";
    assert Strings.ReplaceFirst(".5", '.', ',') == ",5";
    assert Strings.ReplaceFirst("5.5", '.', ',') == "5,5";
  }

  lemma NegativeValue(d: Numbers.CanonicalDecimal)
    requires d == Numbers.Decimal(true, 5, "5")
    ensures Numbers.DecimalValue(d) == -5.5
  {
    assert Numbers.Value("5", 10) == 5 by { assert "5"[..0] == []; }
    assert Numbers.Shift(5, 1) == 0.5;
  }

  /** `service.type || 'service'`. */
  function InitialKind(s: Service): (k: string)
    ensures k != ""
    ensures s.kind.Some? && s.kind.value != "" ==> k == s.kind.value
  {
    if s.kind.Some? && s.kind.value != "" then s.kind.value else "service"
  }

  /** `folderId || 'none'`: the value the folder list shows. */
  function FolderShown(folderId: string): (v: string)
    ensures v != ""
    ensures folderId != "" ==> v == folderId
  {
    if folderId == "" then "none" else folderId
  }

  /** `val === 'none' ? '' : val`: the folder id a choice stores. */
  function FolderChosen(v: string): (folderId: string)
    ensures folderId != "none"
    ensures v != "none" ==> folderId == v
  {
    if v == "none" then "" else v
  }

  /** Showing and choosing are inverse: an unchanged list keeps the folder, and the
      choice the list shows is the one that was made. */
  lemma FolderRoundTrip(folderId: string, v: string)
    ensures folderId != "none" ==> FolderChosen(FolderShown(folderId)) == folderId
    ensures v != "" ==> FolderShown(FolderChosen(v)) == v
  {
  }

  /** The form `handleSave` builds: description, price and type always, details only
      when not blank, the folder only when one is chosen. */
  function SaveForm(description: string, price: string, kind: string, details: string, folderId: string)
    : (form: ServiceActions.Form)
    ensures "description" in form && form["description"] == description
    ensures "price" in form && form["price"] == price
    ensures "type" in form && form["type"] == kind
    ensures "details" in form <==> !Strings.IsBlank(details)
    ensures "details" in form ==> form["details"] == details
    ensures "folder_id" in form <==> folderId != ""
    ensures "folder_id" in form ==> form["folder_id"] == folderId
    ensures form.Keys <= {"description", "price", "type", "details", "folder_id"}
  {
    Strings.TrimEmptyIffBlank(details);
    var base := map["description" := description, "price" := price, "type" := kind];
    var withDetails := if Strings.Trim(details) != [] then base["details" := details] else base;
    if folderId != "" then withDetails["folder_id" := folderId] else withDetails
  }

  /** The toast after `updateService`: an error text that is not empty is shown, a thrown
      error shows the generic message. */
  function ReplyToast(reply: ServiceActions.Outcome): (t: Toast)
    ensures reply.Failure? && reply.error != "" ==> t == ErrorToast(reply.error)
    ensures reply.Thrown? ==> t == ErrorToast("Erro ao atualizar.")
    ensures (reply.Done? || reply == ServiceActions.Failure("")) ==> t == SuccessToast("Serviço atualizado!")
  {
    match reply
    case Failure(error) => if error != "" then ErrorToast(error) else SuccessToast("Serviço atualizado!")
    case Done => SuccessToast("Serviço atualizado!")
    case Thrown => ErrorToast("Erro ao atualizar.")
  }

  /** Whether the reply closes the dialog: only a reply without an error text does. */
  predicate Closes(reply: ServiceActions.Outcome) {
    reply.Done? || reply == ServiceActions.Failure("")
  }

  class EditDialogState {
    var open: bool
    var description: string
    var price: string
    var kind: string
    var details: string
    var folderId: string
    var saving: bool
    const serviceId: string

    /** The dialog starts closed, with the fields taken from the service. */
    constructor (s: Service)
      ensures !open && !saving && serviceId == s.id
      ensures description == s.description && price == PriceDisplay(s.defaultPrice)
      ensures kind == InitialKind(s) && details == s.details.GetOr("") && folderId == s.folderId.GetOr("")
    {
      open := false;
      description := s.description;
      price := PriceDisplay(s.defaultPrice);
      kind := InitialKind(s);
      details := s.details.GetOr("");
      folderId := s.folderId.GetOr("");
      saving := false;
      serviceId := s.id;
    }

    /** `onOpenChange`. */
    method SetOpen(value: bool)
      modifies this
      ensures open == value
      ensures description == old(description) && price == old(price) && kind == old(kind)
      ensures details == old(details) && folderId == old(folderId) && saving == old(saving)
    {
      open := value;
    }

    /** The folder list's `onValueChange`. */
    method ChooseFolder(v: string)
      modifies this
      ensures folderId == FolderChosen(v)
      ensures open == old(open) && description == old(description) && price == old(price)
      ensures kind == old(kind) && details == old(details) && saving == old(saving)
    {
      folderId := FolderChosen(v);
    }

    /**
     * `handleSave`: a blank description only shows its toast. Otherwise the
     * form is sent (`reply` is how `updateService` ends), the reply's toast is
     * shown, the dialog closes only when no error came back, and saving is
     * off again.
     */
    method HandleSave(reply: ServiceActions.Outcome) returns (toast: Toast, sent: Option<ServiceActions.Form>)
      modifies this
      ensures Strings.IsBlank(old(description)) ==>
        toast == ErrorToast("Informe a descrição.") && sent.None? && open == old(open) && saving == old(saving)
      ensures !Strings.IsBlank(old(description)) ==>
        sent == Some(SaveForm(old(description), old(price), old(kind), old(details), old(folderId))) &&
        toast == ReplyToast(reply) && !saving &&
        open == (old(open) && !Closes(reply))
      ensures description == old(description) && price == old(price) && kind == old(kind)
      ensures details == old(details) && folderId == old(folderId)
    {
      Strings.TrimEmptyIffBlank(description);
      if Strings.Trim(description) == [] {
        return ErrorToast("Informe a descrição."), None;
      }
      sent := Some(SaveForm(description, price, kind, details, folderId));
      toast := ReplyToast(reply);
      Settle(reply);
    }

    /** Saving is on while the call runs; afterwards the dialog closes when no error
        came back, and saving is off again. */
    method Settle(reply: ServiceActions.Outcome)
      modifies this
      ensures open == (old(open) && !Closes(reply)) && !saving
      ensures description == old(description) && price == old(price) && kind == old(kind)
      ensures details == old(details) && folderId == old(folderId)
    {
      saving := true;
      if Closes(reply) {
        open := false;
      }
      saving := false;
    }
  }

  /** The form an untouched dialog saves. */
  function InitialForm(s: Service): ServiceActions.Form {
    SaveForm(s.description, PriceDisplay(s.defaultPrice), InitialKind(s), s.details.GetOr(""), s.folderId.GetOr(""))
  }

  /** Saving an untouched dialog of a service with a description hands the server the
      service's own price, type and folder: the comma written by the dialog is read back
      as the decimal point. */
  lemma UntouchedSaveKeepsService(s: Service)
    requires !Strings.IsBlank(s.description)
    ensures var r := ServiceActions.ReadService(InitialForm(s));
      r.Valid? &&
      r.record.description == Strings.Trim(s.description) &&
      r.record.defaultPrice == Numbers.DecimalValue(s.defaultPrice) &&
      r.record.kind == InitialKind(s) &&
      r.record.folderId == (if s.folderId.Some? && s.folderId.value != "" && s.folderId.value != "none"
                            then s.folderId else None)
  {
    var form := InitialForm(s);
    PriceDisplayReadsBack(s.defaultPrice);
    assert form["description"] != "";
    assert ServiceActions.ParsePrice(form["price"]) == Some(Numbers.DecimalValue(s.defaultPrice));
  }
}
