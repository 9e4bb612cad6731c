/**
 * The starter kit of src/app/actions/onboarding.ts (`applyOnboardingKit`):
 * the category's template services and products are filtered by the chosen
 * specialties, priced with the tier's multiplier, concatenated (services
 * first) and de-duplicated by description before they are inserted into the
 * user's catalogue; afterwards the profile is marked onboarded.
 */
module OnboardingKit {
  import opened Wrappers
  import opened JsObjects
  import opened Numbers
  import Seqs

  /** A template service or product of the category. */
  datatype Template = Template(name: string, defaultPrice: real, specialtyTags: Option<seq<string>>)

  /** A row for the user's `services` table. */
  datatype KitItem = KitItem(userId: string, description: string, defaultPrice: int)

  /** `PRICING_MULTIPLIERS[tier] || 1.0` as JavaScript evaluates it: 0.8, 1.0 and 1.5 as
      exact fractions for the own keys; an inherited name finds a function or object,
      which is not a number (`None`: every price computed with it is NaN); any other
      key falls back to 1. */
  function MultiplierAsWritten(tier: string): (m: Option<real>)
    ensures tier == "autonomous" ==> m == Some(0.8)
    ensures tier == "standard" ==> m == Some(1.0)
    ensures tier == "premium" ==> m == Some(1.5)
    ensures tier in InheritedNames ==> m.None?
    ensures tier !in {"autonomous", "standard", "premium"} && tier !in InheritedNames ==> m == Some(1.0)
  {
    if tier == "autonomous" then Some(4.0 / 5.0)
    else if tier == "standard" then Some(1.0)
    else if tier == "premium" then Some(3.0 / 2.0)
    else if tier in InheritedNames then None
    else Some(1.0)
  }

  /** The multiplier the action means: the three tiers' factors, and 1 for any key that
      is not an own entry. */
  function Multiplier(tier: string): (m: real)
    ensures tier == "autonomous" ==> m == 0.8
    ensures tier == "standard" ==> m == 1.0
    ensures tier == "premium" ==> m == 1.5
    ensures tier != "autonomous" && tier != "premium" ==> m == 1.0
  {
    if tier == "autonomous" then 4.0 / 5.0
    else if tier == "standard" then 1.0
    else if tier == "premium" then 3.0 / 2.0
    else 1.0
  }

  /** The two lookups agree on every tier but the inherited names; with `toString` the
      written lookup gives no number where the intended one gives 1. */
  lemma MultiplierAsWrittenDiffers(tier: string)
    ensures tier !in InheritedNames ==> MultiplierAsWritten(tier) == Some(Multiplier(tier))
    ensures MultiplierAsWritten("toString").None? && Multiplier("toString") == 1.0
  {
  }

  /** A template is relevant when it has tags and one of them is a selected specialty. */
  predicate Relevant(t: Template, specialties: seq<string>) {
    t.specialtyTags.Some? &&
    exists i | 0 <= i < |t.specialtyTags.value| :: t.specialtyTags.value[i] in specialties
  }

  /** `templates.filter(relevant)`. */
  function FilterRelevant(templates: seq<Template>, specialties: seq<string>): (r: seq<Template>)
    ensures forall t :: t in r <==> t in templates && Relevant(t, specialties)
    ensures |r| <= |templates|
  {
    var r := Seqs.Filter(templates, RelevantTo(specialties));
    assert forall t :: t in templates && Relevant(t, specialties) ==> t in r by {
      forall t | t in templates && Relevant(t, specialties) ensures t in r {
        var i :| 0 <= i < |templates| && templates[i] == t;
      }
    }
    r
  }

  function RelevantTo(specialties: seq<string>): Template -> bool {
    (t: Template) => Relevant(t, specialties)
  }

  /** The item made from a template: its name as description and its price scaled and rounded. */
  function ToItem(userId: string, multiplier: real, t: Template): (item: KitItem)
    ensures item.userId == userId && item.description == t.name
    ensures item.defaultPrice as real <= t.defaultPrice * multiplier + 0.5 < item.defaultPrice as real + 1.0
  {
    KitItem(userId, t.name, Round(t.defaultPrice * multiplier))
  }

  function ToItems(userId: string, multiplier: real, ts: seq<Template>): (items: seq<KitItem>)
    ensures |items| == |ts|
    ensures forall i :: 0 <= i < |ts| ==> items[i] == ToItem(userId, multiplier, ts[i])
  {
    seq(|ts|, i requires 0 <= i < |ts| => ToItem(userId, multiplier, ts[i]))
  }

  function Description(item: KitItem): string { item.description }

  /** `allItems`: the relevant services' items, then the relevant products' items. */
  function AllItems(userId: string, specialties: seq<string>, tier: string,
                    services: seq<Template>, products: seq<Template>): seq<KitItem> {
    var m := Multiplier(tier);
    ToItems(userId, m, FilterRelevant(services, specialties)) + ToItems(userId, m, FilterRelevant(products, specialties))
  }

  /** The items to insert: the first item for each description, in order. */
  function ItemsToInsert(userId: string, specialties: seq<string>, tier: string,
                         services: seq<Template>, products: seq<Template>): seq<KitItem> {
    Seqs.KeepFirst(AllItems(userId, specialties, tier, services, products), Description)
  }

  /** The `Map` filled in `forEach`: an item is kept when its description is new. */
  method UniqueByDescription(items: seq<KitItem>) returns (unique: seq<KitItem>)
    ensures unique == Seqs.KeepFirst(items, Description)
  {
    unique := [];
    var seen: set<string> := {};
    var i := 0;
    while i < |items|
      invariant 0 <= i <= |items|
      invariant unique == Seqs.KeepFirst(items[..i], Description)
      invariant seen == Seqs.Keys(unique, Description)
    {
      var item := items[i];
      ghost var before := items[..i];
      assert items[..i + 1] == before + [item];
      Seqs.KeepFirstStep(before, item, Description);
      assert Description(item) == item.description;
      if item.description !in seen {
        Seqs.KeysAppend(unique, item, Description);
        seen := seen + {item.description};
        unique := unique + [item];
      }
      assert unique == Seqs.KeepFirst(items[..i + 1], Description);
      i := i + 1;
    }
    assert items[..i] == items;
  }

  // ------------------------------------------------------------ properties

  /** Inserted descriptions are pairwise distinct. */
  lemma InsertedDistinct(userId: string, specialties: seq<string>, tier: string,
                         services: seq<Template>, products: seq<Template>)
    ensures var r := ItemsToInsert(userId, specialties, tier, services, products);
      forall i, j :: 0 <= i < j < |r| ==> r[i].description != r[j].description
  {
    Seqs.KeepFirstDistinct(AllItems(userId, specialties, tier, services, products), Description);
  }

  /** Every relevant template's name is the description of exactly one inserted item. */
  lemma EveryNameOnce(userId: string, specialties: seq<string>, tier: string,
                      services: seq<Template>, products: seq<Template>, t: Template)
    requires t in services || t in products
    requires Relevant(t, specialties)
    ensures var r := ItemsToInsert(userId, specialties, tier, services, products);
      exists i :: 0 <= i < |r| && r[i].description == t.name &&
        forall j :: 0 <= j < |r| && j != i ==> r[j].description != t.name
  {
    var all := AllItems(userId, specialties, tier, services, products);
    var r := ItemsToInsert(userId, specialties, tier, services, products);
    NameIsAKey(userId, specialties, tier, services, products, t);
    Seqs.KeepFirstKeys(all, Description);
    Seqs.KeepFirstDistinct(all, Description);
    var i :| 0 <= i < |r| && Description(r[i]) == t.name;
    assert forall j :: 0 <= j < |r| && j != i ==> r[j].description != t.name;
  }

  lemma NameIsAKey(userId: string, specialties: seq<string>, tier: string,
                   services: seq<Template>, products: seq<Template>, t: Template)
    requires t in services || t in products
    requires Relevant(t, specialties)
    ensures t.name in Seqs.Keys(AllItems(userId, specialties, tier, services, products), Description)
  {
    var m := Multiplier(tier);
    var rs := FilterRelevant(services, specialties);
    var rp := FilterRelevant(products, specialties);
    var xs, ps := ToItems(userId, m, rs), ToItems(userId, m, rp);
    var all := xs + ps;
    if t in rs {
      var a :| 0 <= a < |rs| && rs[a] == t;
      assert all[a] == xs[a];
      assert Description(all[a]) == t.name;
    } else {
      var a :| 0 <= a < |rp| && rp[a] == t;
      assert all[|xs| + a] == ps[a];
      assert Description(all[|xs| + a]) == t.name;
    }
  }

  /** Every inserted item is a relevant service or product, priced for the tier. */
  lemma InsertedFromTemplates(userId: string, specialties: seq<string>, tier: string,
                              services: seq<Template>, products: seq<Template>)
    ensures var r := ItemsToInsert(userId, specialties, tier, services, products);
      forall i :: 0 <= i < |r| ==> exists t :: ((t in services || t in products) && Relevant(t, specialties) &&
        r[i] == ToItem(userId, Multiplier(tier), t))
  {
    var all := AllItems(userId, specialties, tier, services, products);
    var r := ItemsToInsert(userId, specialties, tier, services, products);
    Seqs.KeepFirstPicks(all, Description);
    forall i | 0 <= i < |r| ensures exists t :: ((t in services || t in products) && Relevant(t, specialties) &&
        r[i] == ToItem(userId, Multiplier(tier), t))
    {
      var j :| 0 <= j < |all| && all[j] == r[i] && Seqs.FirstWithKey(all, Description, j);
      ItemFromTemplate(userId, specialties, tier, services, products, j);
    }
  }

  /** Each item before de-duplication is made from a relevant service or product. */
  lemma ItemFromTemplate(userId: string, specialties: seq<string>, tier: string,
                         services: seq<Template>, products: seq<Template>, j: int)
    requires 0 <= j < |AllItems(userId, specialties, tier, services, products)|
    ensures exists t :: ((t in services || t in products) && Relevant(t, specialties) &&
      AllItems(userId, specialties, tier, services, products)[j] == ToItem(userId, Multiplier(tier), t))
  {
    var m := Multiplier(tier);
    var rs := FilterRelevant(services, specialties);
    var rp := FilterRelevant(products, specialties);
    var xs, ps := ToItems(userId, m, rs), ToItems(userId, m, rp);
    var all := AllItems(userId, specialties, tier, services, products);
    assert all == xs + ps;
    var t := if j < |xs| then rs[j] else rp[j - |xs|];
    assert t in rs || t in rp;
    assert all[j] == ToItem(userId, m, t);
  }

  /** Services come first: the de-duplicated service items are a prefix of what is inserted,
      so a product never displaces a service with the same description. */
  lemma ServicesFirst(userId: string, specialties: seq<string>, tier: string,
                      services: seq<Template>, products: seq<Template>)
    ensures var m := Multiplier(tier);
      var fromServices := Seqs.KeepFirst(ToItems(userId, m, FilterRelevant(services, specialties)), Description);
      var r := ItemsToInsert(userId, specialties, tier, services, products);
      |fromServices| <= |r| && r[..|fromServices|] == fromServices
  {
    var m := Multiplier(tier);
    Seqs.KeepFirstPrefix(ToItems(userId, m, FilterRelevant(services, specialties)),
                         ToItems(userId, m, FilterRelevant(products, specialties)), Description);
  }

  // ---------------------------------------------------------- the action

  /** The result of a table read: the rows, or an error. */
  datatype Fetched = Rows(rows: seq<Template>) | FetchError

  /** What the action did: whether it succeeded, what it inserted, whether the profile
      was marked onboarded. */
  datatype KitOutcome = KitOutcome(success: bool, inserted: seq<KitItem>, onboarded: bool)

  /**
   * `applyOnboardingKit`. The outcomes of the two reads, of the insert and of the
   * profile update are inputs; a failing step stops every later step and the
   * result is `success: false`.
   */
  method ApplyOnboardingKit(userId: string, specialties: seq<string>, tier: string,
                            services: Fetched, products: Fetched, insertFails: bool, profileFails: bool)
    returns (outcome: KitOutcome)
    ensures services.FetchError? || products.FetchError? ==> outcome == KitOutcome(false, [], false)
    ensures services.Rows? && products.Rows? ==>
      var items := ItemsToInsert(userId, specialties, tier, services.rows, products.rows);
      if items != [] && insertFails then outcome == KitOutcome(false, [], false)
      else outcome == KitOutcome(!profileFails, items, !profileFails)
  {
    if services.FetchError? || products.FetchError? {
      return KitOutcome(false, [], false);
    }
    var m := Multiplier(tier);
    var all := ToItems(userId, m, FilterRelevant(services.rows, specialties))
             + ToItems(userId, m, FilterRelevant(products.rows, specialties));
    var items := UniqueByDescription(all);
    var inserted: seq<KitItem> := [];
    if |items| > 0 {
      if insertFails {
        return KitOutcome(false, [], false);
      }
      inserted := items;
    }
    if profileFails {
      return KitOutcome(false, inserted, false);
    }
    return KitOutcome(true, inserted, true);
  }
}
