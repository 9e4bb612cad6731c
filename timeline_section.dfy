/**
 * The schedule of src/components/quotes/timeline-section.tsx: three fixed
 * phases, the middle one lasting the quote's estimated days when it has a
 * non-zero estimate, and a total that adds the three days of the other
 * phases. A missing estimate and an estimate of 0 read alike.
 */
module TimelineSection {
  import opened Wrappers
  import Numbers

  datatype PhaseStatus = Pending | Current | Completed

  datatype Phase = Phase(phase: string, duration: string, status: PhaseStatus)

  /** `estimatedDays ? ... : ...`: the estimate counts only when present and not 0. */
  predicate HasEstimate(estimatedDays: Option<int>) {
    estimatedDays.Some? && estimatedDays.value != 0
  }

  /** The three phases, in their fixed order. */
  function Phases(estimatedDays: Option<int>): (ps: seq<Phase>)
    ensures |ps| == 3
    ensures ps[0] == Phase("Aprovação e Início", "1-2 dias", Current)
    ensures ps[1].phase == "Execução do Serviço" && ps[1].status == Pending
    ensures HasEstimate(estimatedDays) ==> ps[1].duration == Numbers.IntToString(estimatedDays.value) + " dias"
    ensures !HasEstimate(estimatedDays) ==> ps[1].duration == "3-5 dias"
    ensures ps[2] == Phase("Revisão e Entrega", "1 dia", Pending)
  {
    [Phase("Aprovação e Início", "1-2 dias", Current),
     Phase("Execução do Serviço",
           if HasEstimate(estimatedDays) then Numbers.IntToString(estimatedDays.value) + " dias" else "3-5 dias",
           Pending),
     Phase("Revisão e Entrega", "1 dia", Pending)]
  }

  /** `Prazo total estimado`: the estimate plus 3 working days, or `5-8 dias úteis`. */
  function TotalText(estimatedDays: Option<int>): (s: string)
    ensures HasEstimate(estimatedDays) ==> s == Numbers.IntToString(estimatedDays.value + 3) + " dias úteis"
    ensures !HasEstimate(estimatedDays) ==> s == "5-8 dias úteis"
  {
    if HasEstimate(estimatedDays) then Numbers.IntToString(estimatedDays.value + 3) + " dias úteis"
    else "5-8 dias úteis"
  }

  /** `index < phases.length - 1`: a connector follows every phase but the last. */
  predicate HasConnector(ps: seq<Phase>, index: int) {
    index < |ps| - 1
  }

  /** Exactly one phase is current (the one marked `Aguardando sua aprovação`) and it
      comes first; only phases 0 and 1 draw a connector. */
  lemma PhaseShape(estimatedDays: Option<int>)
    ensures var ps := Phases(estimatedDays);
      (forall k :: 0 <= k < |ps| ==> (ps[k].status == Current <==> k == 0)) &&
      (forall k :: 0 <= k < |ps| ==> (HasConnector(ps, k) <==> k < 2))
  {
  }

  /** An estimate of 0 is shown exactly like a missing one. */
  lemma ZeroIsMissing()
    ensures Phases(Some(0)) == Phases(None) && TotalText(Some(0)) == TotalText(None)
  {
  }

  /** Two different non-zero estimates give different execution texts and different
      totals. */
  lemma EstimateTexts(m: int, n: int)
    requires m != 0 && n != 0 && m != n
    ensures Phases(Some(m))[1].duration != Phases(Some(n))[1].duration
    ensures TotalText(Some(m)) != TotalText(Some(n))
  {
    SuffixCancel(Numbers.IntToString(m), Numbers.IntToString(n), " dias");
    SuffixCancel(Numbers.IntToString(m + 3), Numbers.IntToString(n + 3), " dias úteis");
    if Numbers.IntToString(m) == Numbers.IntToString(n) {
      Numbers.IntToStringInjective(m, n);
    }
    if Numbers.IntToString(m + 3) == Numbers.IntToString(n + 3) {
      Numbers.IntToStringInjective(m + 3, n + 3);
    }
  }

  lemma SuffixCancel(a: string, b: string, t: string)
    ensures a + t == b + t ==> a == b
  {
    if a + t == b + t {
      assert a == (a + t)[..|a|];
      assert b == (b + t)[..|b|];
    }
  }
}
