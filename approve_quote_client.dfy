/**
 * The public approval widget of src/components/quotes/approve-quote-client.tsx:
 * two buttons open a confirmation dialog, confirming sends the verdict to
 * the server, and a verdict the server accepted replaces the widget with a
 * final screen. The server call is an input saying whether it threw; a
 * confirm is one event, after which `loading` is off again.
 */
module ApproveQuoteClient {
  import opened Wrappers

  /** The open dialog: `'approve'` or `'reject'`. */
  datatype Choice = Approve | Reject

  /** The recorded outcome: `'approved'` or `'rejected'`. */
  datatype Verdict = Approved | Rejected

  /** `dialog === 'approve' ? 'approved' : 'rejected'`. */
  function VerdictFor(c: Choice): (v: Verdict)
    ensures v == Approved <==> c == Approve
  {
    if c == Approve then Approved else Rejected
  }

  function VerdictName(v: Verdict): (s: string)
    ensures v == Approved ==> s == "approved"
    ensures v == Rejected ==> s == "rejected"
  {
    if v == Approved then "approved" else "rejected"
  }

  /** What is rendered: a final screen once there is a verdict, otherwise the two buttons
      with at most one of the dialogs open. */
  datatype Screen = Final(heading: string) | Buttons(approveOpen: bool, rejectOpen: bool)

  function ScreenFor(dialog: Option<Choice>, done: Option<Verdict>): (s: Screen)
    ensures s.Final? <==> done.Some?
    ensures done == Some(Approved) ==> s.heading == "Orçamento Aprovado! 🎉"
    ensures done == Some(Rejected) ==> s.heading == "Proposta Recusada"
    ensures s.Buttons? ==> (s.approveOpen <==> dialog == Some(Approve)) && (s.rejectOpen <==> dialog == Some(Reject))
    ensures s.Buttons? ==> !(s.approveOpen && s.rejectOpen)
  {
    match done
    case Some(Approved) => Final("Orçamento Aprovado! 🎉")
    case Some(Rejected) => Final("Proposta Recusada")
    case None => Buttons(dialog == Some(Approve), dialog == Some(Reject))
  }

  class ApprovalState {
    var loading: bool
    var dialog: Option<Choice>
    var done: Option<Verdict>

    /** Between events nothing is loading, and a final screen has no dialog behind it. */
    ghost predicate Valid()
      reads this
    {
      !loading && (done.Some? ==> dialog.None?)
    }

    constructor ()
      ensures Valid() && !loading && dialog.None? && done.None?
    {
      loading := false;
      dialog := None;
      done := None;
    }

    /** `Aceitar Orçamento` and `Recusar Proposta`: they open their dialog, and exist only
        while there is no verdict. */
    method Choose(c: Choice)
      requires Valid()
      modifies this
      ensures Valid()
      ensures old(done).None? ==> dialog == Some(c)
      ensures old(done).Some? ==> dialog == old(dialog)
      ensures done == old(done) && loading == old(loading)
    {
      if done.None? {
        dialog := Some(c);
      }
    }

    /** `Voltar e revisar` / `Cancelar`, and closing the dialog (`onOpenChange(false)`). */
    method Dismiss()
      requires Valid()
      modifies this
      ensures Valid() && dialog.None? && done == old(done) && loading == old(loading)
    {
      dialog := None;
    }

    method OpenChange(open: bool)
      requires Valid()
      modifies this
      ensures Valid()
      ensures !open ==> dialog.None?
      ensures open ==> dialog == old(dialog)
      ensures done == old(done) && loading == old(loading)
    {
      if !open {
        dialog := None;
      }
    }

    /** `handleConfirm`: without a dialog nothing happens; otherwise the verdict of the
        dialog is sent, recorded unless the call threw, and the dialog closes. */
    method HandleConfirm(callThrows: bool) returns (sent: Option<Verdict>)
      requires Valid()
      modifies this
      ensures Valid()
      ensures old(dialog).None? ==> sent.None? && dialog.None? && done == old(done)
      ensures old(dialog).Some? ==> sent == Some(VerdictFor(old(dialog).value)) && dialog.None?
      ensures old(dialog).Some? && !callThrows ==> done == sent
      ensures old(dialog).Some? && callThrows ==> done == old(done)
      ensures old(done).Some? ==> done == old(done) && sent.None?
    {
      if dialog.None? {
        return None;
      }
      loading := true;
      var v := VerdictFor(dialog.value);
      sent := Some(v);
      if !callThrows {
        done := Some(v);
      }
      loading := false;
      dialog := None;
    }
  }

  /** A session: approve and confirm, then click again and confirm once more. An approval
      the server took stays on the approved screen whatever follows; one whose call threw
      leaves the buttons, ready for the next choice. */
  method ApproveThenClick(c: Choice, callThrows: bool) returns (s: Screen)
    ensures !callThrows ==> s == Final("Orçamento Aprovado! 🎉")
    ensures callThrows ==> s == Buttons(c == Approve, c == Reject)
  {
    var w := new ApprovalState();
    w.Choose(Approve);
    var sent := w.HandleConfirm(callThrows);
    assert sent == Some(Approved);
    w.Choose(c);
    var again := w.HandleConfirm(true);
    if !callThrows {
      assert again.None?;
    }
    if callThrows {
      w.Dismiss();
      w.Choose(c);
    }
    s := ScreenFor(w.dialog, w.done);
  }

  lemma VerdictNames()
    ensures VerdictName(VerdictFor(Approve)) == "approved" && VerdictName(VerdictFor(Reject)) == "rejected"
    ensures forall c, d :: VerdictFor(c) == VerdictFor(d) ==> c == d
  {
  }
}
