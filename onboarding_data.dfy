/**
 * The onboarding record of src/types/onboarding.ts, its initial value, and
 * the partial-record merge `{ ...prev, ...updates }` that the onboarding
 * context applies to it.
 */
module OnboardingData {
  import opened Wrappers

  datatype Category = Category(id: string, name: string, slug: string)

  datatype PricingTier = Autonomous | Standard | Premium

  datatype OnboardingData = OnboardingData(
    category: Option<Category>,
    specialties: seq<string>,
    pricingTier: Option<PricingTier>,
    businessName: string,
    phone: string,
    cnpj: string,
    email: string,
    logoUrl: Option<string>)

  const InitialOnboardingData: OnboardingData := OnboardingData(None, [], None, "", "", "", "", None)

  /** The string a tier is stored and looked up as. */
  function TierKey(t: PricingTier): (key: string)
    ensures key == "autonomous" || key == "standard" || key == "premium"
  {
    match t
    case Autonomous => "autonomous"
    case Standard => "standard"
    case Premium => "premium"
  }

  /** Every tier has its own key. */
  lemma TierKeyInjective(a: PricingTier, b: PricingTier)
    ensures TierKey(a) == TierKey(b) ==> a == b
  {
    if TierKey(a) == TierKey(b) {
      assert TierKey(a)[0] == TierKey(b)[0];
    }
  }

  /**
   * A `Partial<OnboardingData>`: `None` is a field the update does not
   * mention, `Some(v)` a field it sets to `v` (for the nullable fields `v`
   * may itself be `None`, the value null).
   */
  datatype Update = Update(
    category: Option<Option<Category>>,
    specialties: Option<seq<string>>,
    pricingTier: Option<Option<PricingTier>>,
    businessName: Option<string>,
    phone: Option<string>,
    cnpj: Option<string>,
    email: Option<string>,
    logoUrl: Option<Option<string>>)

  const NoChange: Update := Update(None, None, None, None, None, None, None, None)

  function Pick<T>(u: Option<T>, old_: T): (v: T)
    ensures u.Some? ==> v == u.value
    ensures u.None? ==> v == old_
  {
    if u.Some? then u.value else old_
  }

  /** `{ ...prev, ...updates }`: every field the update mentions is overwritten, every
      other field is kept. */
  function Merge(d: OnboardingData, u: Update): (r: OnboardingData)
    ensures u.category.Some? ==> r.category == u.category.value
    ensures u.category.None? ==> r.category == d.category
    ensures u.specialties.Some? ==> r.specialties == u.specialties.value
    ensures u.specialties.None? ==> r.specialties == d.specialties
    ensures u.pricingTier.Some? ==> r.pricingTier == u.pricingTier.value
    ensures u.pricingTier.None? ==> r.pricingTier == d.pricingTier
    ensures u.businessName.Some? ==> r.businessName == u.businessName.value
    ensures u.businessName.None? ==> r.businessName == d.businessName
    ensures u.phone.Some? ==> r.phone == u.phone.value
    ensures u.phone.None? ==> r.phone == d.phone
    ensures u.cnpj.Some? ==> r.cnpj == u.cnpj.value
    ensures u.cnpj.None? ==> r.cnpj == d.cnpj
    ensures u.email.Some? ==> r.email == u.email.value
    ensures u.email.None? ==> r.email == d.email
    ensures u.logoUrl.Some? ==> r.logoUrl == u.logoUrl.value
    ensures u.logoUrl.None? ==> r.logoUrl == d.logoUrl
  {
    OnboardingData(
      Pick(u.category, d.category),
      Pick(u.specialties, d.specialties),
      Pick(u.pricingTier, d.pricingTier),
      Pick(u.businessName, d.businessName),
      Pick(u.phone, d.phone),
      Pick(u.cnpj, d.cnpj),
      Pick(u.email, d.email),
      Pick(u.logoUrl, d.logoUrl))
  }

  /** Two updates one after the other: the later one wins where both speak. */
  function Then(u1: Update, u2: Update): Update {
    Update(
      if u2.category.Some? then u2.category else u1.category,
      if u2.specialties.Some? then u2.specialties else u1.specialties,
      if u2.pricingTier.Some? then u2.pricingTier else u1.pricingTier,
      if u2.businessName.Some? then u2.businessName else u1.businessName,
      if u2.phone.Some? then u2.phone else u1.phone,
      if u2.cnpj.Some? then u2.cnpj else u1.cnpj,
      if u2.email.Some? then u2.email else u1.email,
      if u2.logoUrl.Some? then u2.logoUrl else u1.logoUrl)
  }

  /** An empty update changes nothing, applying the same update twice is applying it once,
      and two merges in a row are one merge of the combined update. */
  lemma MergeLaws(d: OnboardingData, u: Update, u2: Update)
    ensures Merge(d, NoChange) == d
    ensures Merge(Merge(d, u), u) == Merge(d, u)
    ensures Merge(Merge(d, u), u2) == Merge(d, Then(u, u2))
  {
  }

  /** An update that names only the specialties. */
  function SpecialtiesUpdate(specialties: seq<string>): Update {
    NoChange.(specialties := Some(specialties))
  }

  /** The initial record: no category, no specialties, no tier, empty texts, no logo. */
  lemma InitialValues()
    ensures InitialOnboardingData.category.None? && InitialOnboardingData.pricingTier.None?
    ensures InitialOnboardingData.specialties == []
    ensures InitialOnboardingData.businessName == "" && InitialOnboardingData.phone == ""
    ensures InitialOnboardingData.cnpj == "" && InitialOnboardingData.email == ""
    ensures InitialOnboardingData.logoUrl.None?
  {
  }
}
