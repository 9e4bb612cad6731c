/**
 * The specialty step of src/components/onboarding/wizard-step-2.tsx: the
 * options offered for the chosen category, the toggle that adds or removes
 * a specialty, and the Continue button that needs at least one specialty.
 */
module WizardStep2 {
  import opened Wrappers
  import opened JsObjects
  import opened OnboardingData
  import OnboardingContext
  import Seqs

  datatype SpecialtyOption = SpecialtyOption(caption: string, value: string)

  const SpecialtiesByCategory: map<string, seq<SpecialtyOption>> := map[
    "auto" := [
      SpecialtyOption("Mecânica Geral", "mecanica_geral"),
      SpecialtyOption("Auto Elétrica", "eletrica"),
      SpecialtyOption("Funilaria e Pintura", "funilaria"),
      SpecialtyOption("Estética Automotiva", "estetica"),
      SpecialtyOption("Suspensão e Freios", "freios"),
      SpecialtyOption("Som e Acessórios", "som")],
    "construction" := [
      SpecialtyOption("Pedreiro / Alvenaria", "pedreiro"),
      SpecialtyOption("Pintura e Acabamento", "pintor"),
      SpecialtyOption("Marido de Aluguel", "marido_aluguel"),
      SpecialtyOption("Gesso e Drywall", "gesso"),
      SpecialtyOption("Telhados e Coberturas", "telhado")],
    "tech" := [
      SpecialtyOption("Eletricista Residencial", "eletricista"),
      SpecialtyOption("Ar Condicionado", "ar_condicionado"),
      SpecialtyOption("Informática / TI", "ti"),
      SpecialtyOption("Segurança Eletrônica", "seguranca")],
    "beauty" := [
      SpecialtyOption("Cabeleireiro(a)", "cabelo"),
      SpecialtyOption("Barbearia", "barbearia"),
      SpecialtyOption("Manicure / Pedicure", "unhas"),
      SpecialtyOption("Estética Facial/Corporal", "estetica")],
    "education" := [
      SpecialtyOption("Professor Particular", "professor"),
      SpecialtyOption("Personal Trainer", "personal"),
      SpecialtyOption("Consultoria", "consultoria")],
    "food" := [
      SpecialtyOption("Salgados e Doces", "salgados"),
      SpecialtyOption("Confeitaria", "confeitaria"),
      SpecialtyOption("Buffet Completo", "buffet"),
      SpecialtyOption("Serviços Extras (Garçom, Copeira)", "servicos"),
      SpecialtyOption("Decoração de Eventos", "decoracao")]
  ]

  /** The options the step means to show: nothing is rendered without a category
      (`None`); a category whose slug is not an own entry gets an empty list. */
  function Options(category: Option<Category>): (r: Option<seq<SpecialtyOption>>)
    ensures category.None? <==> r.None?
    ensures category.Some? && category.value.slug in SpecialtiesByCategory ==>
      r == Some(SpecialtiesByCategory[category.value.slug])
    ensures category.Some? && category.value.slug !in SpecialtiesByCategory ==> r == Some([])
  {
    if category.None? then None
    else if category.value.slug in SpecialtiesByCategory then Some(SpecialtiesByCategory[category.value.slug])
    else Some([])
  }

  /** What the step renders in place of its options: nothing (no category), a list, or
      an error thrown while rendering. */
  datatype OptionsView = NoCategory | Listed(options: seq<SpecialtyOption>) | RenderThrows

  /** `SPECIALTIES_BY_CATEGORY[slug || ""] || []` followed by `options.map(...)` as
      JavaScript runs it: an inherited name finds a truthy value that is not an array,
      and calling its `map` throws. */
  function OptionsAsWritten(category: Option<Category>): (v: OptionsView)
    ensures category.None? <==> v.NoCategory?
    ensures category.Some? && category.value.slug in SpecialtiesByCategory ==>
      v == Listed(SpecialtiesByCategory[category.value.slug])
    ensures category.Some? && category.value.slug in InheritedNames ==> v.RenderThrows?
    ensures category.Some? && category.value.slug !in SpecialtiesByCategory && category.value.slug !in InheritedNames ==>
      v == Listed([])
  {
    if category.None? then NoCategory
    else if category.value.slug in SpecialtiesByCategory then Listed(SpecialtiesByCategory[category.value.slug])
    else if category.value.slug in InheritedNames then RenderThrows
    else Listed([])
  }

  /** The two lookups agree on every slug but the inherited names; with `constructor`
      the written step throws where the intended one shows no options. */
  lemma OptionsAsWrittenDiffers(category: Option<Category>)
    ensures category.None? ==> OptionsAsWritten(category).NoCategory? && Options(category).None?
    ensures category.Some? && category.value.slug !in InheritedNames ==>
      OptionsAsWritten(category) == Listed(Options(category).value)
    ensures OptionsAsWritten(Some(Category("", "", "constructor"))).RenderThrows?
    ensures Options(Some(Category("", "", "constructor"))) == Some([])
  {
    assert "constructor" !in SpecialtiesByCategory;
  }

  /** The six category slugs with options; an empty slug is not one of them. */
  lemma KnownCategories()
    ensures SpecialtiesByCategory.Keys == {"auto", "construction", "tech", "beauty", "education", "food"}
    ensures "" !in SpecialtiesByCategory
    ensures Options(Some(Category("", "", ""))) == Some([])
  {
  }

  /** `current.filter(s => s !== value)`. */
  function Without(s: seq<string>, value: string): (r: seq<string>)
    ensures value !in r
    ensures forall x :: x in r <==> x in s && x != value
    ensures value !in s ==> r == s
  {
    var r := Seqs.Filter(s, Other(value));
    assert forall x :: x in s && x != value ==> x in r by {
      forall x | x in s && x != value ensures x in r {
        var i :| 0 <= i < |s| && s[i] == x;
      }
    }
    if value !in s then Seqs.FilterAll(s, Other(value)); r else r
  }

  /** The test the filter applies. */
  function Other(value: string): string -> bool {
    x => x != value
  }

  lemma WithoutConcat(a: seq<string>, b: seq<string>, value: string)
    ensures Without(a + b, value) == Without(a, value) + Without(b, value)
  {
    Seqs.FilterConcat(a, b, Other(value));
  }

  /** `handleToggle(value)`'s new list: a present value is removed everywhere, an absent
      one appended. */
  function Toggle(current: seq<string>, value: string): (r: seq<string>)
    ensures value in current ==> r == Without(current, value)
    ensures value !in current ==> r == current + [value]
  {
    if value in current then Without(current, value) else current + [value]
  }

  /** The value is selected after a toggle exactly when it was not before, and every
      other value keeps its relative order: ignoring the toggled value the list is the same. */
  lemma ToggleEffect(current: seq<string>, value: string)
    ensures value in Toggle(current, value) <==> value !in current
    ensures Without(Toggle(current, value), value) == Without(current, value)
    ensures forall x :: x != value ==> (x in Toggle(current, value) <==> x in current)
  {
    if value !in current {
      WithoutConcat(current, [value], value);
      assert Without([value], value) == [];
    } else {
      assert Without(Without(current, value), value) == Without(current, value);
    }
  }

  /** Toggling an absent value twice gives the original list back; toggling a present one
      twice leaves a single copy of it at the end. */
  lemma ToggleTwice(current: seq<string>, value: string)
    ensures value !in current ==> Toggle(Toggle(current, value), value) == current
    ensures value in current ==> Toggle(Toggle(current, value), value) == Without(current, value) + [value]
  {
    if value !in current {
      WithoutConcat(current, [value], value);
      assert Without([value], value) == [];
    }
  }

  /** Continue is disabled exactly when nothing is selected. */
  predicate ContinueDisabled(d: OnboardingData) {
    |d.specialties| == 0
  }

  /** Selecting an unselected option always enables Continue. */
  lemma ToggleOnEnablesContinue(d: OnboardingData, value: string)
    requires value !in d.specialties
    ensures !ContinueDisabled(Merge(d, SpecialtiesUpdate(Toggle(d.specialties, value))))
  {
  }

  /** The click handler: the toggled list is written back through `updateData`. */
  method HandleToggle(ctx: OnboardingContext.OnboardingProvider, value: string)
    requires ctx.Valid() && ctx.data.category.Some?
    modifies ctx
    ensures ctx.Valid()
    ensures ctx.data == old(ctx.data).(specialties := Toggle(old(ctx.data.specialties), value))
    ensures ctx.step == old(ctx.step)
  {
    var current := ctx.data.specialties;
    var next: seq<string>;
    if value in current {
      next := Without(current, value);
    } else {
      next := current + [value];
    }
    ctx.UpdateData(SpecialtiesUpdate(next));
  }
}
