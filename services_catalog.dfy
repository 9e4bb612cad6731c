/**
 * The catalogue editor of src/components/profile/services-catalog.tsx: a
 * new service is checked, saved and put at the front of the list; a deleted
 * one is filtered out. Whether each database call succeeds, and the id the
 * database assigns, are inputs.
 */
module ServicesCatalog {
  import opened Toasts
  import opened Wrappers
  import Strings
  import Numbers
  import Seqs
  import ServiceActions

  datatype Service = Service(id: string, description: string, defaultPrice: real)

  /** The row sent to the database on save. */
  datatype NewService = NewService(userId: string, description: string, defaultPrice: real)

  /** `parseFloat(price.replace(',', '.')) || 0`. */
  function PriceValue(text: string): (x: real)
    ensures ServiceActions.ParsePrice(text).None? ==> x == 0.0
    ensures ServiceActions.ParsePrice(text).Some? ==> x == ServiceActions.ParsePrice(text).value
  {
    Numbers.OrZero(ServiceActions.ParsePrice(text))
  }

  /** The checks of `handleAdd`, in their order. */
  datatype Check = Rejected(toast: Toast) | Accepted(description: string, price: real)

  function CheckInput(description: string, price: string): (c: Check)
    ensures Strings.IsBlank(description) ==> c == Rejected(ErrorToast("Informe a descrição do serviço/produto."))
    ensures !Strings.IsBlank(description) && PriceValue(price) <= 0.0 ==>
      c == Rejected(WarningToast("Informe um valor válido."))
    ensures c.Accepted? <==> !Strings.IsBlank(description) && PriceValue(price) > 0.0
    ensures c.Accepted? ==> c.description == Strings.Trim(description) && c.price == PriceValue(price)
  {
    Strings.TrimEmptyIffBlank(description);
    if Strings.Trim(description) == [] then Rejected(ErrorToast("Informe a descrição do serviço/produto."))
    else if PriceValue(price) <= 0.0 then Rejected(WarningToast("Informe um valor válido."))
    else Accepted(Strings.Trim(description), PriceValue(price))
  }

  /** A price typed with a decimal comma is accepted as that amount. */
  lemma CommaPriceAccepted(description: string, d: Numbers.CanonicalDecimal)
    requires !Strings.IsBlank(description) && Numbers.DecimalValue(d) > 0.0
    ensures CheckInput(description, Strings.ReplaceFirst(Numbers.DecimalToString(d), '.', ',')) ==
      Accepted(Strings.Trim(description), Numbers.DecimalValue(d))
  {
    ServiceActions.ParsePriceComma(d);
  }

  function OtherId(id: string): Service -> bool {
    (s: Service) => s.id != id
  }

  /** `services.filter(s => s.id !== id)`. */
  function RemoveService(services: seq<Service>, id: string): (r: seq<Service>)
    ensures forall s :: s in r <==> s in services && s.id != id
  {
    var r := Seqs.Filter(services, OtherId(id));
    assert forall s :: s in services && s.id != id ==> s in r by {
      forall s | s in services && s.id != id ensures s in r {
        var k :| 0 <= k < |services| && services[k] == s;
      }
    }
    r
  }

  /** Removal keeps the others in order, and removing an id no entry has changes nothing. */
  lemma RemoveServiceLaws(a: seq<Service>, b: seq<Service>, id: string)
    ensures RemoveService(a + b, id) == RemoveService(a, id) + RemoveService(b, id)
    ensures (forall k :: 0 <= k < |a| ==> a[k].id != id) ==> RemoveService(a, id) == a
  {
    Seqs.FilterConcat(a, b, OtherId(id));
    if forall k :: 0 <= k < |a| ==> a[k].id != id {
      Seqs.FilterAll(a, OtherId(id));
    }
  }

  class CatalogState {
    var services: seq<Service>
    var description: string
    var price: string
    var saving: bool
    const userId: string

    constructor (initialServices: seq<Service>, userId: string)
      ensures services == initialServices && description == "" && price == "" && !saving
      ensures this.userId == userId
    {
      services := initialServices;
      description := "";
      price := "";
      saving := false;
      this.userId := userId;
    }

    /**
     * `handleAdd`: a rejected input only shows its toast. An accepted one is
     * sent; on success the returned row goes to the front and the fields are
     * cleared, on failure the list and fields stay. Saving is off afterwards.
     */
    method HandleAdd(freshId: string, insertFails: bool) returns (toast: Toast, sent: Option<NewService>)
      modifies this
      ensures CheckInput(old(description), old(price)).Rejected? ==>
        (toast == CheckInput(old(description), old(price)).toast && sent.None? &&
         services == old(services) && description == old(description) && price == old(price) && saving == old(saving))
      ensures CheckInput(old(description), old(price)).Accepted? ==>
        (sent == Some(NewService(userId, CheckInput(old(description), old(price)).description,
                                 CheckInput(old(description), old(price)).price)) && !saving)
      ensures CheckInput(old(description), old(price)).Accepted? && insertFails ==>
        (toast == ErrorToast("Erro ao salvar serviço.") &&
         services == old(services) && description == old(description) && price == old(price))
      ensures CheckInput(old(description), old(price)).Accepted? && !insertFails ==>
        (toast == SuccessToast("Serviço salvo!") &&
         services == [Service(freshId, CheckInput(old(description), old(price)).description,
                              CheckInput(old(description), old(price)).price)] + old(services) &&
         description == "" && price == "")
    {
      var check := CheckInput(description, price);
      if check.Rejected? {
        return check.toast, None;
      }
      toast, sent := Save(check.description, check.price, freshId, insertFails);
    }

    /** The insert of an accepted entry: on success the row goes to the front and the
        fields are cleared; on failure the list and fields stay. */
    method Save(d: string, p: real, freshId: string, insertFails: bool) returns (toast: Toast, sent: Option<NewService>)
      modifies this
      ensures sent == Some(NewService(userId, d, p)) && !saving
      ensures insertFails ==>
        toast == ErrorToast("Erro ao salvar serviço.") &&
        services == old(services) && description == old(description) && price == old(price)
      ensures !insertFails ==>
        toast == SuccessToast("Serviço salvo!") &&
        services == [Service(freshId, d, p)] + old(services) && description == "" && price == ""
    {
      saving := true;
      sent := Some(NewService(userId, d, p));
      if insertFails {
        toast := ErrorToast("Erro ao salvar serviço.");
      } else {
        services := [Service(freshId, d, p)] + services;
        description := "";
        price := "";
        toast := SuccessToast("Serviço salvo!");
      }
      saving := false;
    }

    /** `handleDelete`: on success every entry with that id leaves the list. */
    method HandleDelete(id: string, deleteFails: bool) returns (toast: Toast)
      modifies this
      ensures deleteFails ==> toast == ErrorToast("Erro ao remover.") && services == old(services)
      ensures !deleteFails ==> toast == SuccessToast("Serviço removido.") && services == RemoveService(old(services), id)
      ensures description == old(description) && price == old(price) && saving == old(saving)
    {
      if deleteFails {
        return ErrorToast("Erro ao remover.");
      }
      services := RemoveService(services, id);
      toast := SuccessToast("Serviço removido.");
    }
  }
}
