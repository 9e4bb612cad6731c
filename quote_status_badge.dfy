/**
 * The status badge of src/components/quotes/quote-status-badge.tsx: a
 * lookup of the status in a four-entry object, falling back to the draft
 * entry. JavaScript's lookup `statusMap[status]` also sees the names every
 * object inherits (`toString`, `constructor`, ...), whose values are truthy
 * and have no `label`; `StatusConfigAsWritten` keeps that behaviour, while
 * `StatusLabel` is the fallback the component means.
 */
module QuoteStatusBadge {
  import opened Wrappers
  import opened JsObjects

  datatype StatusConfig = StatusConfig(caption: string, color: string)

  const StatusMap: map<string, StatusConfig> := map[
    "draft" := StatusConfig("Rascunho", "bg-slate-100 text-slate-800 border-slate-200 hover:bg-slate-100"),
    "sent" := StatusConfig("Enviado", "bg-blue-100 text-blue-800 border-blue-200 hover:bg-blue-100"),
    "approved" := StatusConfig("Aprovado", "bg-emerald-100 text-emerald-800 border-emerald-200 hover:bg-emerald-100"),
    "rejected" := StatusConfig("Recusado", "bg-red-100 text-red-800 border-red-200 hover:bg-red-100")
  ]

  /** `statusMap[status] || statusMap.draft` as JavaScript evaluates it: an inherited name
      yields a value that is not a status entry, so no label is rendered (`None`). */
  function StatusConfigAsWritten(status: string): (c: Option<StatusConfig>)
    ensures status in StatusMap ==> c == Some(StatusMap[status])
    ensures status in InheritedNames ==> c.None?
    ensures status !in StatusMap && status !in InheritedNames ==> c == Some(StatusMap["draft"])
  {
    if status in StatusMap then Some(StatusMap[status])
    else if status in InheritedNames then None
    else Some(StatusMap["draft"])
  }

  /** The lookup the component means: own entries only, anything else is a draft. */
  function StatusConfigOf(status: string): (c: StatusConfig)
    ensures status in StatusMap ==> c == StatusMap[status]
    ensures status !in StatusMap ==> c == StatusMap["draft"]
  {
    if status in StatusMap then StatusMap[status] else StatusMap["draft"]
  }

  function StatusLabel(status: string): string {
    StatusConfigOf(status).caption
  }

  /** The four statuses have four different labels, and every other status reads as
      a draft. */
  lemma StatusLabels(status: string)
    ensures StatusLabel("draft") == "Rascunho" && StatusLabel("sent") == "Enviado"
    ensures StatusLabel("approved") == "Aprovado" && StatusLabel("rejected") == "Recusado"
    ensures status !in {"draft", "sent", "approved", "rejected"} ==> StatusLabel(status) == "Rascunho"
    ensures forall a, b :: a in StatusMap && b in StatusMap && a != b ==> StatusMap[a].caption != StatusMap[b].caption
  {
    assert StatusMap.Keys == {"draft", "sent", "approved", "rejected"};
  }

  /** The two lookups agree on every status but the inherited names; with `toString` the
      written lookup finds no entry where the intended one shows `Rascunho`. */
  lemma AsWrittenDiffers(status: string)
    ensures status !in InheritedNames ==> StatusConfigAsWritten(status) == Some(StatusConfigOf(status))
    ensures StatusConfigAsWritten("toString").None? && StatusLabel("toString") == "Rascunho"
  {
    assert "toString" !in StatusMap;
  }
}
