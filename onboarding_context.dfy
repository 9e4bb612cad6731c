/**
 * The onboarding state of src/components/onboarding/onboarding-context.tsx:
 * the wizard's current step and the data gathered so far. The step starts at
 * 1, `nextStep` has no upper bound and `prevStep` never goes below 1.
 */
module OnboardingContext {
  import opened OnboardingData

  /** `setStep(prev => prev + 1)`. */
  function Next(step: int): (s: int)
    ensures s == step + 1
  {
    step + 1
  }

  /** `setStep(prev => Math.max(1, prev - 1))`. */
  function Prev(step: int): (s: int)
    ensures s >= 1
    ensures step >= 2 ==> s == step - 1
    ensures step <= 2 ==> s == 1
  {
    if step - 1 > 1 then step - 1 else 1
  }

  /** Going forward and then back returns to the same step; going back from step 2
      or later and then forward does too, while from step 1 it reaches step 2. */
  lemma StepRoundTrips(step: int)
    requires step >= 1
    ensures Prev(Next(step)) == step
    ensures step >= 2 ==> Next(Prev(step)) == step
    ensures step == 1 ==> Next(Prev(step)) == 2
  {
  }

  class OnboardingProvider {
    var data: OnboardingData
    var step: int

    ghost predicate Valid()
      reads this
    {
      step >= 1
    }

    constructor ()
      ensures Valid()
      ensures data == InitialOnboardingData && step == 1
    {
      data := InitialOnboardingData;
      step := 1;
    }

    method UpdateData(updates: Update)
      requires Valid()
      modifies this
      ensures Valid()
      ensures data == Merge(old(data), updates) && step == old(step)
    {
      data := Merge(data, updates);
    }

    method NextStep()
      requires Valid()
      modifies this
      ensures Valid()
      ensures step == Next(old(step)) && data == old(data)
    {
      step := step + 1;
    }

    method PrevStep()
      requires Valid()
      modifies this
      ensures Valid()
      ensures step == Prev(old(step)) && data == old(data)
    {
      step := if step - 1 > 1 then step - 1 else 1;
    }
  }
}
