/**
 * What src/components/onboarding/wizard-content-client.tsx renders for a
 * step: four progress dots while the step is below 5, and one screen for
 * each of the steps 1 to 5.
 */
module WizardContent {
  import opened Wrappers

  datatype Screen = Step1 | Step2 | Step3 | Step4 | LoadingSuccess

  /** The screen for `step`; a step past 5, which `nextStep` can reach, shows none. */
  function ScreenFor(step: int): (s: Option<Screen>)
    ensures s.Some? <==> 1 <= step <= 5
    ensures s == Some(LoadingSuccess) <==> step == 5
  {
    if step == 1 then Some(Step1)
    else if step == 2 then Some(Step2)
    else if step == 3 then Some(Step3)
    else if step == 4 then Some(Step4)
    else if step == 5 then Some(LoadingSuccess)
    else None
  }

  /** Different steps never share a screen. */
  lemma ScreensDistinct(a: int, b: int)
    requires ScreenFor(a).Some? && ScreenFor(a) == ScreenFor(b)
    ensures a == b
  {
  }

  datatype DotStatus = Current | Done | Pending

  /** Dot `s` for the current `step`. */
  function DotStatusOf(s: int, step: int): (d: DotStatus)
    ensures d == Current <==> s == step
    ensures d == Done <==> s < step
    ensures d == Pending <==> s > step
  {
    if s == step then Current else if s < step then Done else Pending
  }

  /** The progress dots: none from step 5 on, otherwise dots 1 to 4. */
  function Dots(step: int): (dots: Option<seq<DotStatus>>)
    ensures dots.Some? <==> step < 5
    ensures dots.Some? ==> (|dots.value| == 4 &&
      forall i :: 0 <= i < 4 ==> dots.value[i] == DotStatusOf(i + 1, step))
  {
    if step < 5 then Some(seq(4, i requires 0 <= i < 4 => DotStatusOf(i + 1, step))) else None
  }

  /** On steps 1 to 4 exactly one dot is current, and it is the step's own dot; the dots
      before it are done and those after it pending. */
  lemma OneCurrentDot(step: int)
    requires 1 <= step <= 4
    ensures Dots(step).Some?
    ensures Dots(step).value[step - 1] == Current
    ensures forall i :: 0 <= i < 4 && i != step - 1 ==> Dots(step).value[i] != Current
    ensures forall i :: 0 <= i < step - 1 ==> Dots(step).value[i] == Done
    ensures forall i :: step - 1 < i < 4 ==> Dots(step).value[i] == Pending
  {
  }
}
