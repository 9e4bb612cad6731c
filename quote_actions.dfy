/**
 * The quote server actions of src/app/actions/quotes.ts: reading a submitted
 * form into the stored quote record, mapping the edited items to item rows,
 * and the create, update and delete steps on the two tables that hold quotes
 * and their items. The signed-in user, the ids the database assigns, the
 * clock and the success of each database step are inputs; so is the result
 * of `JSON.parse` on the items and payment-method fields.
 */
module QuoteActions {
  import opened Wrappers
  import Numbers
  import Seqs
  import QuoteForm
  import Notifications

  /** The submitted form: each present field's text. */
  type Form = map<string, string>

  // --------------------------------------------------------------- fields

  /** `formData.get(key) === 'true'`. */
  predicate Flag(form: Form, key: string) {
    key in form && form[key] == "true"
  }

  /** `formData.get(key) as string`: the text, or null. */
  function Text(form: Form, key: string): (v: Option<string>)
    ensures v.Some? <==> key in form
    ensures key in form ==> v.value == form[key]
  {
    if key in form then Some(form[key]) else None
  }

  /** `formData.get(key) as string || null`: an empty text is stored as null too. */
  function TextOrNull(form: Form, key: string): (v: Option<string>)
    ensures v.Some? <==> key in form && form[key] != ""
    ensures v.Some? ==> v.value == form[key]
  {
    if key in form && form[key] != "" then Some(form[key]) else None
  }

  /**
   * `formData.get(key) ? parseInt(formData.get(key)) : absent`: a present,
   * non-empty field is read with `parseInt` and no radix (whose NaN is stored
   * as null, `None`), any other gets the default.
   */
  function IntField(form: Form, key: string, absent: Option<int>): (v: Option<int>)
    ensures key !in form || form[key] == "" ==> v == absent
    ensures key in form && form[key] != "" ==> v == Numbers.ParseIntAuto(form[key])
  {
    if key in form && form[key] != "" then Numbers.ParseIntAuto(form[key]) else absent
  }

  /** `paymentMethodsStr ? JSON.parse(paymentMethodsStr) : []`, given what the parse yields. */
  function PaymentMethods(form: Form, parsed: seq<string>): (methods: seq<string>)
    ensures "payment_methods" !in form || form["payment_methods"] == "" ==> methods == []
    ensures "payment_methods" in form && form["payment_methods"] != "" ==> methods == parsed
  {
    if "payment_methods" in form && form["payment_methods"] != "" then parsed else []
  }

  // -------------------------------------------------------------- payload

  /** The quote columns both create and update write. */
  datatype Payload = Payload(
    clientName: Option<string>,
    clientPhone: Option<string>,
    expirationDate: Option<string>,
    paymentTerms: Option<string>,
    notes: Option<string>,
    total: real,
    showTimeline: bool,
    showPaymentOptions: bool,
    estimatedDays: Option<int>,
    cashDiscountPercent: Option<int>,
    paymentMethods: seq<string>,
    installmentCount: Option<int>)

  /** The record read from the form, with the parsed items and payment methods. */
  function ReadPayload(form: Form, items: seq<QuoteForm.QuoteItem>, parsedMethods: seq<string>): (p: Payload)
    ensures p.total == QuoteForm.Total(items)
    ensures p.showTimeline <==> Text(form, "show_timeline") == Some("true")
    ensures p.showPaymentOptions <==> Text(form, "show_payment_options") == Some("true")
    ensures p.clientName == Text(form, "clientName") && p.clientPhone == Text(form, "clientPhone")
    ensures p.expirationDate == TextOrNull(form, "expirationDate")
    ensures p.paymentTerms == Text(form, "paymentTerms") && p.notes == Text(form, "notes")
    ensures p.estimatedDays == IntField(form, "estimated_days", None)
    ensures p.cashDiscountPercent == IntField(form, "cash_discount_percent", Some(0))
    ensures p.installmentCount == IntField(form, "installment_count", None)
    ensures p.paymentMethods == PaymentMethods(form, parsedMethods)
  {
    Payload(
      Text(form, "clientName"),
      Text(form, "clientPhone"),
      TextOrNull(form, "expirationDate"),
      Text(form, "paymentTerms"),
      Text(form, "notes"),
      QuoteForm.Total(items),
      Flag(form, "show_timeline"),
      Flag(form, "show_payment_options"),
      IntField(form, "estimated_days", None),
      IntField(form, "cash_discount_percent", Some(0)),
      PaymentMethods(form, parsedMethods),
      IntField(form, "installment_count", None))
  }

  /** A form that leaves the optional fields out (or sends them empty) stores the
      defaults: no expiration date, no estimate, a 0% cash discount, no installments,
      no payment methods and both sections hidden. */
  lemma PayloadDefaults(form: Form, items: seq<QuoteForm.QuoteItem>, parsedMethods: seq<string>)
    requires forall key :: key in form ==> form[key] == ""
    ensures ReadPayload(form, items, parsedMethods).expirationDate.None?
    ensures ReadPayload(form, items, parsedMethods).estimatedDays.None?
    ensures ReadPayload(form, items, parsedMethods).cashDiscountPercent == Some(0)
    ensures ReadPayload(form, items, parsedMethods).installmentCount.None?
    ensures ReadPayload(form, items, parsedMethods).paymentMethods == []
    ensures !ReadPayload(form, items, parsedMethods).showTimeline
    ensures !ReadPayload(form, items, parsedMethods).showPaymentOptions
  {
  }

  /** Only the exact text `true` turns a section on; a number field holding digits is
      stored as their value. */
  lemma FieldReadings(form: Form, n: nat)
    ensures form == map["show_timeline" := "True"] ==> !ReadPayload(form, [], []).showTimeline
    ensures form == map["estimated_days" := Numbers.NatToString(n)] ==>
      ReadPayload(form, [], []).estimatedDays == Some(n)
    ensures form == map["estimated_days" := "0x1e"] ==> ReadPayload(form, [], []).estimatedDays == Some(30)
  {
    if form == map["estimated_days" := Numbers.NatToString(n)] {
      Numbers.ParseIntAutoExamples(n);
      assert IntField(form, "estimated_days", None) == Some(n);
    } else if form == map["estimated_days" := "0x1e"] {
      Numbers.ParseIntAutoExamples(n);
      assert IntField(form, "estimated_days", None) == Some(30);
    }
  }

  // ----------------------------------------------------------------- rows

  /** A row of the quotes table. */
  datatype QuoteRow = QuoteRow(id: string, userId: string, status: string, payload: Payload, updatedAt: Option<int>)

  /** A row of the quote items table; `unitPrice` is the `unit_price` column. */
  datatype ItemRow = ItemRow(quoteId: string, description: string, quantity: real, unitPrice: real)

  /** The row `createQuote` inserts: the user's, in status `draft`. */
  function NewQuoteRow(id: string, userId: string, p: Payload): (row: QuoteRow)
    ensures row.id == id && row.userId == userId && row.payload == p
    ensures row.status == "draft" && row.updatedAt.None?
  {
    QuoteRow(id, userId, "draft", p, None)
  }

  /** `items.map(item => ({ quote_id, description, quantity, unit_price: item.unitPrice }))`. */
  function ItemRows(quoteId: string, items: seq<QuoteForm.QuoteItem>): (rows: seq<ItemRow>)
    ensures |rows| == |items|
    ensures forall k :: 0 <= k < |items| ==>
      rows[k] == ItemRow(quoteId, items[k].description, items[k].quantity, items[k].unitPrice)
  {
    seq(|items|, k requires 0 <= k < |items| =>
      ItemRow(quoteId, items[k].description, items[k].quantity, items[k].unitPrice))
  }

  /** Σ quantity × unit price over item rows. */
  function RowsTotal(rows: seq<ItemRow>): real {
    if rows == [] then 0.0
    else RowsTotal(rows[..|rows| - 1]) + rows[|rows| - 1].quantity * rows[|rows| - 1].unitPrice
  }

  /** The total stored on the quote is the sum over the item rows stored with it. */
  lemma {:induction false} StoredTotalMatchesItems(quoteId: string, items: seq<QuoteForm.QuoteItem>)
    ensures RowsTotal(ItemRows(quoteId, items)) == QuoteForm.Total(items)
  {
    if items != [] {
      var p := items[..|items| - 1];
      assert ItemRows(quoteId, items)[..|items| - 1] == ItemRows(quoteId, p);
      StoredTotalMatchesItems(quoteId, p);
    }
  }

  function Targets(id: string, userId: string): QuoteRow -> bool {
    (row: QuoteRow) => row.id == id && row.userId == userId
  }

  /** `.update(...).eq('id', id).eq('user_id', user.id)`: the user's row with that id
      takes the new payload and update time; any other row stays. */
  function UpdateRows(rows: seq<QuoteRow>, id: string, userId: string, p: Payload, now: int): (r: seq<QuoteRow>)
    ensures |r| == |rows|
    ensures forall k :: 0 <= k < |rows| ==>
      r[k] == if Targets(id, userId)(rows[k]) then rows[k].(payload := p, updatedAt := Some(now)) else rows[k]
  {
    seq(|rows|, k requires 0 <= k < |rows| =>
      if Targets(id, userId)(rows[k]) then rows[k].(payload := p, updatedAt := Some(now)) else rows[k])
  }

  /** An update never touches another user's quote or another id, never changes a
      quote's id, owner or status, and repeating it changes nothing more. */
  lemma UpdateRowsScope(rows: seq<QuoteRow>, id: string, userId: string, p: Payload, now: int)
    ensures forall k :: (0 <= k < |rows| && (rows[k].id != id || rows[k].userId != userId)) ==>
      UpdateRows(rows, id, userId, p, now)[k] == rows[k]
    ensures forall k :: 0 <= k < |rows| ==>
      (UpdateRows(rows, id, userId, p, now)[k].id == rows[k].id &&
       UpdateRows(rows, id, userId, p, now)[k].userId == rows[k].userId &&
       UpdateRows(rows, id, userId, p, now)[k].status == rows[k].status)
    ensures UpdateRows(UpdateRows(rows, id, userId, p, now), id, userId, p, now) == UpdateRows(rows, id, userId, p, now)
  {
  }

  function Untargeted(id: string, userId: string): QuoteRow -> bool {
    (row: QuoteRow) => !(row.id == id && row.userId == userId)
  }

  /** `.delete().eq('id', id).eq('user_id', user.id)`. */
  function DeleteRows(rows: seq<QuoteRow>, id: string, userId: string): (r: seq<QuoteRow>)
    ensures forall row :: row in r <==> row in rows && !(row.id == id && row.userId == userId)
  {
    var r := Seqs.Filter(rows, Untargeted(id, userId));
    assert forall row :: row in rows && !(row.id == id && row.userId == userId) ==> row in r by {
      forall row | row in rows && !(row.id == id && row.userId == userId) ensures row in r {
        var k :| 0 <= k < |rows| && rows[k] == row;
      }
    }
    r
  }

  /** Deleting keeps the other rows in their order, and a second delete changes nothing. */
  lemma DeleteRowsLaws(a: seq<QuoteRow>, b: seq<QuoteRow>, id: string, userId: string)
    ensures DeleteRows(a + b, id, userId) == DeleteRows(a, id, userId) + DeleteRows(b, id, userId)
    ensures DeleteRows(DeleteRows(a, id, userId), id, userId) == DeleteRows(a, id, userId)
  {
    Seqs.FilterConcat(a, b, Untargeted(id, userId));
    var d := DeleteRows(a, id, userId);
    Seqs.FilterAll(d, Untargeted(id, userId));
  }

  function OfQuote(quoteId: string): ItemRow -> bool {
    (row: ItemRow) => row.quoteId == quoteId
  }

  function NotOfQuote(quoteId: string): ItemRow -> bool {
    (row: ItemRow) => row.quoteId != quoteId
  }

  /** The item rows of one quote, in table order. */
  function ItemsOf(rows: seq<ItemRow>, quoteId: string): (r: seq<ItemRow>)
    ensures forall k :: 0 <= k < |r| ==> r[k].quoteId == quoteId && r[k] in rows
  {
    Seqs.Filter(rows, OfQuote(quoteId))
  }

  /** `.from('quote_items').delete().eq('quote_id', id)`: by quote id alone. */
  function DeleteItems(rows: seq<ItemRow>, quoteId: string): (r: seq<ItemRow>)
    ensures forall row :: row in r <==> row in rows && row.quoteId != quoteId
  {
    var r := Seqs.Filter(rows, NotOfQuote(quoteId));
    assert forall row :: row in rows && row.quoteId != quoteId ==> row in r by {
      forall row | row in rows && row.quoteId != quoteId ensures row in r {
        var k :| 0 <= k < |rows| && rows[k] == row;
      }
    }
    r
  }

  /** Delete-then-insert: afterwards the quote's items are exactly the new rows, in the
      order of the edited list, and every other quote keeps its items. */
  lemma {:induction false} ReplaceItems(rows: seq<ItemRow>, quoteId: string, items: seq<QuoteForm.QuoteItem>, other: string)
    requires other != quoteId
    ensures ItemsOf(DeleteItems(rows, quoteId) + ItemRows(quoteId, items), quoteId) == ItemRows(quoteId, items)
    ensures ItemsOf(DeleteItems(rows, quoteId) + ItemRows(quoteId, items), other) == ItemsOf(rows, other)
  {
    var kept := DeleteItems(rows, quoteId);
    var added := ItemRows(quoteId, items);
    Seqs.FilterConcat(kept, added, OfQuote(quoteId));
    Seqs.FilterConcat(kept, added, OfQuote(other));
    Seqs.FilterAll(added, OfQuote(quoteId));
    assert forall k :: 0 <= k < |kept| ==> kept[k] in kept;
    Seqs.FilterNone(kept, OfQuote(quoteId));
    Seqs.FilterNone(added, OfQuote(other));
    Seqs.FilterFilter(rows, NotOfQuote(quoteId), OfQuote(other));
  }

  // -------------------------------------------------------------- actions

  /** How a server action ends: a redirect, a returned `{ error }`, a returned
      `{ success: true }`, or a thrown error. */
  datatype Outcome = Redirect(path: string) | Failure(error: string) | Done | Thrown(message: string)

  /** A template-literal interpolation of a form text; a missing one prints `null`. */
  function Interpolated(v: Option<string>): (s: string)
    ensures v.Some? ==> s == v.value
  {
    if v.Some? then v.value else "null"
  }

  /** The body of the notification `createQuote` sends; the formatted amount is an input. */
  function CreatedMessage(clientName: Option<string>, amountText: string): string {
    "Orçamento para " + Interpolated(clientName) + " no valor de " + amountText + " foi gerado."
  }

  /** The outcome of `updateQuoteStatus`: a status is one of the two decisions. */
  datatype Decision = Approved | Rejected

  function StatusText(d: Decision): (s: string)
    ensures s == "approved" || s == "rejected"
    ensures (s == "approved") <==> d == Approved
  {
    if d == Approved then "approved" else "rejected"
  }

  /** The remote procedure call `update_quote_status` is made with these arguments. */
  datatype StatusCall = StatusCall(procedure: string, quoteId: string, newStatus: string)

  /** `updateQuoteStatus(id, status)`: no sign-in is asked for; the call names the quote
      and the status, and a failing call throws. */
  function UpdateQuoteStatus(id: string, d: Decision, callFails: bool): (r: (StatusCall, Outcome))
    ensures r.0.procedure == "update_quote_status" && r.0.quoteId == id && r.0.newStatus == StatusText(d)
    ensures callFails <==> r.1 == Thrown("Failed to update status")
    ensures !callFails <==> r.1 == Done
  {
    (StatusCall("update_quote_status", id, StatusText(d)),
     if callFails then Thrown("Failed to update status") else Done)
  }

  /** The two tables. Row ids come from the database (`freshId`); the model does not
      assume them unique, so a scoped update or delete acts on every row that matches. */
  class QuoteStore {
    var quotes: seq<QuoteRow>
    var items: seq<ItemRow>

    constructor ()
      ensures quotes == [] && items == []
    {
      quotes := [];
      items := [];
    }

    /**
     * `createQuote`: without a user, a redirect to the login page. Otherwise
     * the quote is inserted (`freshId` is the id the database assigns); when
     * that fails nothing is stored. Then its item rows are inserted; when that
     * fails the quote stays without items. On success the user is notified
     * and taken to the new quote.
     */
    method CreateQuote(user: Option<string>, form: Form, parsedItems: seq<QuoteForm.QuoteItem>,
                       parsedMethods: seq<string>, freshId: string, quoteInsertFails: bool,
                       itemsInsertFails: bool, inbox: Notifications.NotificationTable, now: int,
                       amountText: string)
      returns (outcome: Outcome)
      requires inbox.Valid()
      modifies this, inbox
      ensures inbox.Valid()
      ensures user.None? ==>
        outcome == Redirect("/login") && quotes == old(quotes) && items == old(items) && inbox.rows == old(inbox.rows)
      ensures user.Some? && quoteInsertFails ==>
        outcome == Failure("Failed to create quote") && quotes == old(quotes) && items == old(items) &&
        inbox.rows == old(inbox.rows)
      ensures user.Some? && !quoteInsertFails ==>
        quotes == old(quotes) + [NewQuoteRow(freshId, user.value, ReadPayload(form, parsedItems, parsedMethods))]
      ensures user.Some? && !quoteInsertFails && itemsInsertFails ==>
        outcome == Failure("Failed to create items") && items == old(items) && inbox.rows == old(inbox.rows)
      ensures user.Some? && !quoteInsertFails && !itemsInsertFails ==>
        (outcome == Redirect("/quotes/" + freshId) &&
         items == old(items) + ItemRows(freshId, parsedItems) &&
         inbox.rows == old(inbox.rows) + [Notifications.Notification(|old(inbox.rows)|, user.value,
           "Novo Orçamento Criado", CreatedMessage(Text(form, "clientName"), amountText),
           "/quotes/" + freshId, Notifications.Success, false, now)])
    {
      if user.None? {
        return Redirect("/login");
      }
      var payload := ReadPayload(form, parsedItems, parsedMethods);
      if quoteInsertFails {
        return Failure("Failed to create quote");
      }
      quotes := quotes + [NewQuoteRow(freshId, user.value, payload)];
      if itemsInsertFails {
        return Failure("Failed to create items");
      }
      items := items + ItemRows(freshId, parsedItems);
      inbox.CreateNotification(user.value, "Novo Orçamento Criado", CreatedMessage(Text(form, "clientName"), amountText),
                               "/quotes/" + freshId, now, Notifications.Success);
      outcome := Redirect("/quotes/" + freshId);
    }

    /**
     * `updateQuote`: the user's quote with that id takes the new payload;
     * then every item row of that quote id is deleted and the new rows are
     * inserted. A failing step returns its error and leaves the earlier steps
     * in place.
     */
    method UpdateQuote(id: string, user: Option<string>, form: Form, parsedItems: seq<QuoteForm.QuoteItem>,
                       parsedMethods: seq<string>, now: int, updateFails: bool, deleteFails: bool,
                       insertFails: bool)
      returns (outcome: Outcome)
      modifies this
      ensures user.None? ==> outcome == Redirect("/login") && quotes == old(quotes) && items == old(items)
      ensures user.Some? && updateFails ==>
        outcome == Failure("Failed to update quote") && quotes == old(quotes) && items == old(items)
      ensures user.Some? && !updateFails ==>
        quotes == UpdateRows(old(quotes), id, user.value, ReadPayload(form, parsedItems, parsedMethods), now)
      ensures user.Some? && !updateFails && deleteFails ==>
        outcome == Failure("Failed to update items") && items == old(items)
      ensures user.Some? && !updateFails && !deleteFails && insertFails ==>
        outcome == Failure("Failed to update items") && items == DeleteItems(old(items), id)
      ensures user.Some? && !updateFails && !deleteFails && !insertFails ==>
        outcome == Redirect("/quotes/" + id) && items == DeleteItems(old(items), id) + ItemRows(id, parsedItems)
    {
      if user.None? {
        return Redirect("/login");
      }
      var payload := ReadPayload(form, parsedItems, parsedMethods);
      if updateFails {
        return Failure("Failed to update quote");
      }
      quotes := UpdateRows(quotes, id, user.value, payload, now);
      if deleteFails {
        return Failure("Failed to update items");
      }
      items := DeleteItems(items, id);
      if insertFails {
        return Failure("Failed to update items");
      }
      items := items + ItemRows(id, parsedItems);
      outcome := Redirect("/quotes/" + id);
    }

    /** `deleteQuote`: the user's quote with that id is removed; a database error throws. */
    method DeleteQuote(id: string, user: Option<string>, deleteFails: bool) returns (outcome: Outcome)
      modifies this
      ensures user.None? ==> outcome == Redirect("/login") && quotes == old(quotes)
      ensures user.Some? && deleteFails ==> outcome == Thrown("Failed to delete quote") && quotes == old(quotes)
      ensures user.Some? && !deleteFails ==> outcome == Done && quotes == DeleteRows(old(quotes), id, user.value)
      ensures items == old(items)
    {
      if user.None? {
        return Redirect("/login");
      }
      if deleteFails {
        return Thrown("Failed to delete quote");
      }
      quotes := DeleteRows(quotes, id, user.value);
      outcome := Done;
    }
  }
}
