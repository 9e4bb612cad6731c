/**
 * The catalogue server actions of src/app/actions/services.ts: a submitted
 * form is normalised into a service record (price with a decimal comma,
 * default type, trimmed texts, and the folder choice `none` read as no
 * folder), validated, and written to the user's services.
 */
module ServiceActions {
  import opened Wrappers
  import Strings
  import Numbers
  import Seqs

  type Form = map<string, string>

  /** `parseFloat(text.replace(',', '.'))`: the first comma is read as the decimal point. */
  function ParsePrice(text: string): (r: Option<real>)
    ensures ',' !in text ==> r == Numbers.ParseDecimal(text)
  {
    Numbers.ParseDecimal(Strings.ReplaceFirst(text, ',', '.'))
  }

  /** A price written with a decimal comma reads as the same price written with a point. */
  lemma ParsePriceComma(d: Numbers.CanonicalDecimal)
    ensures ParsePrice(Strings.ReplaceFirst(Numbers.DecimalToString(d), '.', ',')) == Some(Numbers.DecimalValue(d))
    ensures ParsePrice(Numbers.DecimalToString(d)) == Some(Numbers.DecimalValue(d))
  {
    Strings.ReplaceFirstRoundTrip(Numbers.DecimalToString(d), '.', ',');
    Numbers.ParseDecimalToString(d);
  }

  /** A service as stored, without its id and owner. */
  datatype ServiceRecord = ServiceRecord(description: string, defaultPrice: real, kind: string,
                                         details: Option<string>, folderId: Option<string>)

  /** `(formData.get('type') as string) || 'service'`. */
  function Kind(form: Form): (k: string)
    ensures k != ""
    ensures "type" in form && form["type"] != "" ==> k == form["type"]
    ensures ("type" !in form || form["type"] == "") ==> k == "service"
  {
    if "type" in form && form["type"] != "" then form["type"] else "service"
  }

  /** `details?.trim() || null`: blank or absent details are stored as null. */
  function Details(form: Form): (d: Option<string>)
    ensures d.Some? <==> "details" in form && !Strings.IsBlank(form["details"])
    ensures d.Some? ==> d.value == Strings.Trim(form["details"])
  {
    Strings.TrimEmptyIffBlank(if "details" in form then form["details"] else "");
    if "details" in form && Strings.Trim(form["details"]) != "" then Some(Strings.Trim(form["details"])) else None
  }

  /** `folderIdRaw && folderIdRaw !== 'none' ? folderIdRaw : null`. */
  function FolderId(form: Form): (f: Option<string>)
    ensures f.None? <==> "folder_id" !in form || form["folder_id"] == "" || form["folder_id"] == "none"
    ensures f.Some? ==> f.value == form["folder_id"]
  {
    if "folder_id" in form && form["folder_id"] != "" && form["folder_id"] != "none" then Some(form["folder_id"]) else None
  }

  /** What reading the form ends in: `priceRaw.replace` throws on a missing
      price, a missing description or NaN price is `Invalid data`. */
  datatype Reading = PriceMissing | Invalid | Valid(record: ServiceRecord)

  function ReadService(form: Form): (r: Reading)
    ensures r.PriceMissing? <==> "price" !in form
    ensures r.Invalid? <==>
      ("price" in form && ("description" !in form || form["description"] == "" || ParsePrice(form["price"]).None?))
    ensures r.Valid? ==>
      ("description" in form && "price" in form &&
       r.record == ServiceRecord(Strings.Trim(form["description"]), ParsePrice(form["price"]).value,
                                 Kind(form), Details(form), FolderId(form)))
  {
    if "price" !in form then PriceMissing
    else
      var price := ParsePrice(form["price"]);
      if "description" !in form || form["description"] == "" || price.None? then Invalid
      else Valid(ServiceRecord(Strings.Trim(form["description"]), price.value, Kind(form), Details(form),
                               FolderId(form)))
  }

  /** A stored record is normalised: the description and details have no white space at
      either end, details are never blank, a type is always set, and the folder is never
      `''` or `none`. */
  lemma StoredRecordIsNormalised(form: Form)
    requires ReadService(form).Valid?
    ensures var r := ReadService(form).record;
      (r.description == [] || (!Strings.IsSpace(r.description[0]) && !Strings.IsSpace(r.description[|r.description| - 1]))) &&
      (r.details.Some? ==> r.details.value != [] && !Strings.IsSpace(r.details.value[0])) &&
      r.kind != "" &&
      r.folderId != Some("") && r.folderId != Some("none")
  {
    Strings.TrimEnds(form["description"]);
    if "details" in form {
      Strings.TrimEnds(form["details"]);
    }
  }

  /** The server checks only that the description is non-empty: one made of spaces alone
      passes and is stored as the empty text. */
  lemma BlankDescriptionStoredEmpty(form: Form)
    requires "price" in form && ParsePrice(form["price"]).Some?
    requires "description" in form && form["description"] != "" && Strings.IsBlank(form["description"])
    ensures ReadService(form).Valid? && ReadService(form).record.description == ""
  {
    Strings.TrimEmptyIffBlank(form["description"]);
  }

  // ---------------------------------------------------------------- table

  datatype ServiceRow = ServiceRow(id: string, userId: string, record: ServiceRecord)

  /** How an action ends: `{ error }`, `{ success: true }`, or a thrown error. */
  datatype Outcome = Failure(error: string) | Done | Thrown

  function Targets(id: string, userId: string): ServiceRow -> bool {
    (row: ServiceRow) => row.id == id && row.userId == userId
  }

  function Untargeted(id: string, userId: string): ServiceRow -> bool {
    (row: ServiceRow) => !(row.id == id && row.userId == userId)
  }

  /** `.update(record).eq('id', id).eq('user_id', user.id)`. */
  function UpdateRows(rows: seq<ServiceRow>, id: string, userId: string, record: ServiceRecord): (r: seq<ServiceRow>)
    ensures |r| == |rows|
    ensures forall k :: 0 <= k < |rows| ==>
      r[k] == if Targets(id, userId)(rows[k]) then rows[k].(record := record) else rows[k]
  {
    seq(|rows|, k requires 0 <= k < |rows| =>
      if Targets(id, userId)(rows[k]) then rows[k].(record := record) else rows[k])
  }

  /** `.delete().eq('id', id).eq('user_id', user.id)`. */
  function DeleteRows(rows: seq<ServiceRow>, id: string, userId: string): (r: seq<ServiceRow>)
    ensures forall row :: row in r <==> row in rows && !(row.id == id && row.userId == userId)
  {
    var r := Seqs.Filter(rows, Untargeted(id, userId));
    assert forall row :: row in rows && !(row.id == id && row.userId == userId) ==> row in r by {
      forall row | row in rows && !(row.id == id && row.userId == userId) ensures row in r {
        var k :| 0 <= k < |rows| && rows[k] == row;
      }
    }
    r
  }

  /** Neither an update nor a delete reaches a row of another user, and each is idempotent. */
  lemma ScopedWrites(rows: seq<ServiceRow>, id: string, userId: string, record: ServiceRecord)
    ensures forall k :: (0 <= k < |rows| && rows[k].userId != userId) ==> UpdateRows(rows, id, userId, record)[k] == rows[k]
    ensures forall row :: row in rows && row.userId != userId ==> row in DeleteRows(rows, id, userId)
    ensures UpdateRows(UpdateRows(rows, id, userId, record), id, userId, record) == UpdateRows(rows, id, userId, record)
    ensures DeleteRows(DeleteRows(rows, id, userId), id, userId) == DeleteRows(rows, id, userId)
  {
    var d := DeleteRows(rows, id, userId);
    Seqs.FilterAll(d, Untargeted(id, userId));
  }

  class ServiceStore {
    var rows: seq<ServiceRow>

    constructor ()
      ensures rows == []
    {
      rows := [];
    }

    /** `createService`: `Unauthorized` first, then the form is read, then the row is
        inserted (`freshId` is the id the database assigns). */
    method CreateService(user: Option<string>, form: Form, freshId: string, insertFails: bool)
      returns (outcome: Outcome)
      modifies this
      ensures user.None? ==> outcome == Failure("Unauthorized") && rows == old(rows)
      ensures user.Some? && ReadService(form).PriceMissing? ==> outcome == Thrown && rows == old(rows)
      ensures user.Some? && ReadService(form).Invalid? ==> outcome == Failure("Invalid data") && rows == old(rows)
      ensures user.Some? && ReadService(form).Valid? && insertFails ==>
        outcome == Failure("Failed to create service") && rows == old(rows)
      ensures user.Some? && ReadService(form).Valid? && !insertFails ==>
        outcome == Done && rows == old(rows) + [ServiceRow(freshId, user.value, ReadService(form).record)]
    {
      if user.None? {
        return Failure("Unauthorized");
      }
      var reading := ReadService(form);
      if reading.PriceMissing? {
        return Thrown;
      }
      if reading.Invalid? {
        return Failure("Invalid data");
      }
      if insertFails {
        return Failure("Failed to create service");
      }
      rows := rows + [ServiceRow(freshId, user.value, reading.record)];
      outcome := Done;
    }

    /** `updateService`: the same checks, then the user's row with that id is rewritten. */
    method UpdateService(id: string, user: Option<string>, form: Form, updateFails: bool)
      returns (outcome: Outcome)
      modifies this
      ensures user.None? ==> outcome == Failure("Unauthorized") && rows == old(rows)
      ensures user.Some? && ReadService(form).PriceMissing? ==> outcome == Thrown && rows == old(rows)
      ensures user.Some? && ReadService(form).Invalid? ==> outcome == Failure("Invalid data") && rows == old(rows)
      ensures user.Some? && ReadService(form).Valid? && updateFails ==>
        outcome == Failure("Failed to update service") && rows == old(rows)
      ensures user.Some? && ReadService(form).Valid? && !updateFails ==>
        outcome == Done && rows == UpdateRows(old(rows), id, user.value, ReadService(form).record)
    {
      if user.None? {
        return Failure("Unauthorized");
      }
      var reading := ReadService(form);
      if reading.PriceMissing? {
        return Thrown;
      }
      if reading.Invalid? {
        return Failure("Invalid data");
      }
      if updateFails {
        return Failure("Failed to update service");
      }
      rows := UpdateRows(rows, id, user.value, reading.record);
      outcome := Done;
    }

    /** `deleteService`: the user's row with that id is removed. */
    method DeleteService(id: string, user: Option<string>, deleteFails: bool) returns (outcome: Outcome)
      modifies this
      ensures user.None? ==> outcome == Failure("Unauthorized") && rows == old(rows)
      ensures user.Some? && deleteFails ==> outcome == Failure("Failed to delete service") && rows == old(rows)
      ensures user.Some? && !deleteFails ==> outcome == Done && rows == DeleteRows(old(rows), id, user.value)
    {
      if user.None? {
        return Failure("Unauthorized");
      }
      if deleteFails {
        return Failure("Failed to delete service");
      }
      rows := DeleteRows(rows, id, user.value);
      outcome := Done;
    }
  }
}
