# Orçafácil quoting core, modelled in Dafny

Orçafácil is a Next.js application in which a self-employed provider writes
quotes for clients and sends them a public link where the client approves or
rejects the quote. This project models the logic of that application and of
the small colour-analysis script that ships with it, and proves properties
of the model:

- the keyword rules that give a quote item a category, and the colour
  brightening used for category badges (`CategoryDetection`);
- the client-profile detection that picks tone, density and extras for a
  quote (`ProfileDetection`);
- the onboarding wizard: its data record and merge, the step counter, the
  screens and progress dots, the specialty picker, and the server action that
  turns the chosen specialties and pricing tier into a starter catalogue
  (`OnboardingData`, `OnboardingContext`, `WizardContent`, `WizardStep2`,
  `OnboardingKit`);
- the quote editor and its server actions: items, totals, validation, the
  form payload, creation, update, deletion and status change of quotes
  (`QuoteForm`, `QuoteActions`), with the product search, the client picker
  and the service catalogue and editing dialog it uses (`ProductSearch`,
  `ClientAutocomplete`, `ServicesCatalog`, `EditServiceDialog`,
  `ServiceActions`);
- notifications: the inactivity check that inserts "quote waiting" alerts,
  listing and marking read on the server, and the bell in the header
  (`Notifications`, `NotificationBell`);
- the public quote page: the urgency badge, the status badge, the timeline,
  the payment options and the approve / reject widget (`UrgencyBadge`,
  `QuoteStatusBadge`, `TimelineSection`, `PaymentOptions`,
  `ApproveQuoteClient`);
- routing: the request guard, the e-mail confirmation callback and the two
  navigation bars (`Middleware`, `AuthCallback`, `DesktopSidebar`,
  `BottomNav`);
- `analyze_colors.py`: counting the pixels of an image and printing its
  five most common colours (`DominantColors`, with the stable ranking in
  `Ranking`).

Shared modules model the JavaScript and Python built-ins the code relies on:
`Wrappers` (`null`/`undefined`/`None` as `Option`), `JsObjects` (the
property names every object literal inherits), `Strings` (lower-casing,
`trim`, `includes`, `startsWith`, `replace`), `Numbers` (`parseFloat`,
`parseInt`, number-to-text, `Math.round`, two-digit hexadecimal), `Seqs`
(`filter`, and first-occurrence de-duplication as a `Map` keyed by a field
does it) and `Toasts` (the `sonner` toast kinds).

Components whose state the source changes through React hooks are classes
whose fields are that state and whose methods are the event handlers; each
method states the whole new state. Server actions that write to the database
are classes holding the table as a sequence of rows; the database, the
signed-in user, the clock and the outcomes of remote calls are parameters
of the methods (a user as `Option<string>`, a failing call as a `bool`);
the failures the model does not take as inputs are listed under "Left out". Pure
helpers are functions, proved against independent statements of what they
mean.

## Model

| member | source | states |
|---|---|---|
| DominantColors.Entries | analyze_colors.py:19 | the counter's entries are one per distinct colour, numbered by first appearance, so no two share a tie-break |
| DominantColors.Tally | analyze_colors.py:18-19 | the loop builds a map whose keys are exactly the colours present with their exact pixel counts, and the key order is first-seen order |
| DominantColors.TallyStep | analyze_colors.py:19 | one more pixel adds a new key at the end or raises its own count by one and no other |
| DominantColors.ComputeMostCommon | analyze_colors.py:19-20 | the method computes `most_common(n)` from the tally |
| DominantColors.SeenIsDistinct | analyze_colors.py:19 | the counter's keys are exactly the colours of the image, without repetition |
| DominantColors.MostCommonLength | analyze_colors.py:20 | `most_common(n)` has no entry for n <= 0, n entries up to the number of distinct colours, and all of them beyond |
| DominantColors.MostCommonOrdered | analyze_colors.py:20 | every listed colour occurs in the image with its exact count, counts never increase down the list, and equal counts keep scan order |
| DominantColors.TiesInScanOrder | analyze_colors.py:20 | of two listed colours with equal counts, the earlier one was seen first in the pixels |
| DominantColors.MostCommonIsTop | analyze_colors.py:20 | no colour left off the list occurs more often than the last one listed |
| DominantColors.SumCountsCovers | analyze_colors.py:19 | counts over a repetition-free cover of the pixels add up to the number of pixels |
| DominantColors.CountsCoverAllPixels | analyze_colors.py:16-19 | every pixel is counted once: the counts add up to the pixel total, 22500 for the 150×150 image |
| DominantColors.HexCode | analyze_colors.py:24 | the hex code has seven characters, starts with `#`, and is lower case |
| DominantColors.HexCodeRoundTrip | analyze_colors.py:24 | reading each two-digit pair back as hexadecimal gives the colour's channel |
| DominantColors.ColorLine | analyze_colors.py:24 | the printed line starts with `RGB: (` and ends with the colour's hex code |
| DominantColors.ColorLines | analyze_colors.py:23-24 | one line per ranked entry, in rank order |
| DominantColors.DominantColorsReport | analyze_colors.py:12-27 | a decoding error prints only `Error: …`; otherwise the header and then one line per top colour |
| DominantColors.HeaderOnlyOnce | analyze_colors.py:22-27 | neither a colour line nor an error line can equal the header |
| DominantColors.RunScript | analyze_colors.py:6-33 | without PIL only `PIL not installed` and exit status 1; otherwise status 0, and without an argument only the usage line, with one the report on that image for the five most common colours |
| Ranking.Rank | analyze_colors.py:20 | the stable ordering `most_common` uses is a permutation of its input, ranked by count with the tie-break |
| Ranking.InsertRanked | analyze_colors.py:20 | inserting one entry into a ranked list keeps it ranked |
| Ranking.TopIsTop | analyze_colors.py:20 | the first n of the ranking are taken from the input, stay ranked, and nothing omitted outranks the last of them |
| CategoryDetection.FirstMatchingDecides | src/lib/utils/category-detection.ts:23-182 | the first rule whose keyword occurs decides, and with none firing the result is the general category |
| CategoryDetection.FirstMatchingFires | src/lib/utils/category-detection.ts:23-182 | the category returned is the general one, or that of a rule that fires |
| CategoryDetection.GeneralIffNoKeyword | src/lib/utils/category-detection.ts:177-181 | the result is `Geral` exactly when no keyword of any rule occurs in the lower-cased description |
| CategoryDetection.CaseInsensitive | src/lib/utils/category-detection.ts:24 | descriptions that lower-case alike get the same category |
| CategoryDetection.LowerCasedAgain | src/lib/utils/category-detection.ts:24 | lower-casing the description first changes nothing |
| CategoryDetection.OilIsMechanics | src/lib/utils/category-detection.ts:27-43 | any description containing `óleo` is mechanics, whatever else it names |
| CategoryDetection.SomAnywhere | src/lib/utils/category-detection.ts:58 | `som` matches inside any longer text once the first two rules fail, giving car accessories |
| CategoryDetection.Adjust | src/lib/utils/category-detection.ts:197-200 | an adjusted channel is always within 0..255 |
| CategoryDetection.ChannelText | src/lib/utils/category-detection.ts:207-209 | a parsed channel is written as two lower-case hex digits; an unparsed one as `NaN` |
| CategoryDetection.AdjustColorBrightness | src/lib/utils/category-detection.ts:187-210 | when all three channels parse the output is `#` with six lower-case hex digits |
| CategoryDetection.AdjustBrightens | src/lib/utils/category-detection.ts:197-200 | for 0..100 percent a channel never gets darker |
| CategoryDetection.AdjustEnds | src/lib/utils/category-detection.ts:197-200 | 0 percent keeps a channel, 100 percent makes it 255 |
| CategoryDetection.AdjustMonotone | src/lib/utils/category-detection.ts:197-200 | a larger percentage never gives a darker channel |
| CategoryDetection.ChannelsOfDigits | src/lib/utils/category-detection.ts:192-194 | six hex digits are read as their three pairs |
| CategoryDetection.ChannelsOfHexColor | src/lib/utils/category-detection.ts:189 | the colour text is everything after a leading `#` |
| CategoryDetection.ZeroPercentLowercases | src/lib/utils/category-detection.ts:187-210 | 0 percent gives a `#rrggbb` colour back, lower-cased |
| CategoryDetection.ZeroPercentChannel | src/lib/utils/category-detection.ts:207-209 | 0 percent writes a hex pair back lower-cased |
| CategoryDetection.HundredPercentIsWhite | src/lib/utils/category-detection.ts:187-210 | 100 percent gives `#ffffff` for every colour whose channels parse |
| CategoryDetection.StripsOneHash | src/lib/utils/category-detection.ts:189 | only the first `#` is removed |
| ProfileDetection.OrElse | src/lib/utils/profile-detection.ts:55 | `a \|\| b` picks `a` unless it is null or empty |
| ProfileDetection.NameForTest | src/lib/utils/profile-detection.ts:55 | the business name decides when non-empty, else the client name, else the empty text |
| ProfileDetection.NameFallback | src/lib/utils/profile-detection.ts:54-78 | a non-empty business name alone decides whether the client is corporate; an empty one is as if absent; no names means not corporate |
| ProfileDetection.ShortIndicatorInsideName | src/lib/utils/profile-detection.ts:57-78 | indicators match as substrings: `Vanessa` counts as corporate and gets the corporate tone |
| ProfileDetection.QuoteComplexity | src/lib/utils/profile-detection.ts:84-90 | low for at most 3 items, medium for 4 to 10, high above 10 |
| ProfileDetection.ProfileTiers | src/lib/utils/profile-detection.ts:95-134 | the corporate tone for a corporate name or a total above 5000, the balanced one for totals above 500 up to 5000, otherwise the friendly one, each with its layout, density and extras |
| ProfileDetection.ReasonNamesClient | src/lib/utils/profile-detection.ts:104-115 | the reason names the client exactly when the corporate name made the decision |
| ProfileDetection.ExtrasShape | src/lib/utils/profile-detection.ts:95-145 | every profile lists three distinct extras, warranty always among them; terms are shown only for the corporate tone and the timeline only for the others |
| ProfileDetection.ToneClasses | src/lib/utils/profile-detection.ts:150-160 | every tone has a `tone-` class |
| ProfileDetection.DensityClasses | src/lib/utils/profile-detection.ts:166-176 | every density has a `density-` class |
| ProfileDetection.ClassesInjective | src/lib/utils/profile-detection.ts:150-176 | different tones and densities get different classes |
| OnboardingData.TierKey | src/types/onboarding.ts:1-10 | a tier is stored as `autonomous`, `standard` or `premium` |
| OnboardingData.TierKeyInjective | src/types/onboarding.ts:1-10 | different tiers have different keys |
| OnboardingData.Pick | src/components/onboarding/onboarding-context.tsx:20-22 | a field the update names takes the new value, else the old |
| OnboardingData.Merge | src/components/onboarding/onboarding-context.tsx:20-22 | every field the update names is overwritten and every other field kept |
| OnboardingData.MergeLaws | src/components/onboarding/onboarding-context.tsx:20-22 | an empty update changes nothing, repeating an update changes nothing more, and two updates compose with the later one winning |
| OnboardingData.InitialValues | src/types/onboarding.ts:12-21 | the wizard starts without category, tier or logo, with no specialties and empty texts |
| OnboardingContext.Next | src/components/onboarding/onboarding-context.tsx:24 | the next step is one more |
| OnboardingContext.Prev | src/components/onboarding/onboarding-context.tsx:25 | going back never drops below step 1 |
| OnboardingContext.StepRoundTrips | src/components/onboarding/onboarding-context.tsx:24-25 | forward then back returns to the step; back then forward does too, except from step 1 |
| OnboardingContext.OnboardingProvider.constructor | src/components/onboarding/onboarding-context.tsx:17-18 | the provider starts on step 1 with the initial record |
| OnboardingContext.OnboardingProvider.UpdateData | src/components/onboarding/onboarding-context.tsx:20-22 | the record becomes the merge of the update, the step stays |
| OnboardingContext.OnboardingProvider.NextStep | src/components/onboarding/onboarding-context.tsx:24 | the step advances, the record stays |
| OnboardingContext.OnboardingProvider.PrevStep | src/components/onboarding/onboarding-context.tsx:25 | the step goes back but not below 1, the record stays |
| WizardContent.ScreenFor | src/components/onboarding/wizard-content-client.tsx:43-47 | steps 1 to 5 have a screen, step 5 the loading one, any other step none |
| WizardContent.ScreensDistinct | src/components/onboarding/wizard-content-client.tsx:43-47 | different steps never share a screen |
| WizardContent.DotStatusOf | src/components/onboarding/wizard-content-client.tsx:28 | a dot is current on its step, done before it, pending after it |
| WizardContent.Dots | src/components/onboarding/wizard-content-client.tsx:23-31 | four dots are drawn before step 5 and none from it on |
| WizardContent.OneCurrentDot | src/components/onboarding/wizard-content-client.tsx:23-31 | on steps 1 to 4 exactly the step's own dot is current, earlier ones done, later ones pending |
| WizardStep2.Options | src/components/onboarding/wizard-step-2.tsx:57-59 | the lookup the step means: nothing is rendered without a category; a slug with its own entry shows its options, any other slug none |
| WizardStep2.OptionsAsWritten | src/components/onboarding/wizard-step-2.tsx:57-78 | the lookup as JavaScript runs it: nothing without a category, the own entries, a render error for an inherited property name, an empty list otherwise |
| WizardStep2.OptionsAsWrittenDiffers | src/components/onboarding/wizard-step-2.tsx:59 | the two lookups agree except on inherited names, where `constructor` throws instead of showing no options |
| WizardStep2.KnownCategories | src/components/onboarding/wizard-step-2.tsx:12 | six category slugs have options, and the empty slug shows none |
| WizardStep2.Without | src/components/onboarding/wizard-step-2.tsx:61-68 | filtering a value out removes every copy of it and keeps everything else |
| WizardStep2.Toggle | src/components/onboarding/wizard-step-2.tsx:61-68 | a selected value is removed, an unselected one appended |
| WizardStep2.ToggleEffect | src/components/onboarding/wizard-step-2.tsx:61-68 | after a toggle the value is selected exactly when it was not before, and no other value changes |
| WizardStep2.ToggleTwice | src/components/onboarding/wizard-step-2.tsx:61-68 | toggling an absent value twice restores the list; a present one ends up once, at the end |
| WizardStep2.ToggleOnEnablesContinue | src/components/onboarding/wizard-step-2.tsx:105 | selecting an unselected option always enables Continue |
| WizardStep2.HandleToggle | src/components/onboarding/wizard-step-2.tsx:61-68 | the click writes the toggled list back through the context, changing nothing else |
| OnboardingKit.MultiplierAsWritten | src/app/actions/onboarding.ts:15-44 | the lookup as JavaScript runs it: 0.8, 1.0 and 1.5 for the three tiers, no number for an inherited property name, 1.0 for any other key |
| OnboardingKit.Multiplier | src/app/actions/onboarding.ts:15-44 | the factor the action means: 0.8, 1.0 and 1.5 for the three tiers, and 1.0 for any key that is not an own entry |
| OnboardingKit.MultiplierAsWrittenDiffers | src/app/actions/onboarding.ts:44 | the two lookups agree except on inherited names, where `toString` gives no number instead of 1 |
| OnboardingKit.FilterRelevant | src/app/actions/onboarding.ts:68-74 | exactly the templates with a tag among the selected specialties are kept |
| OnboardingKit.ToItem | src/app/actions/onboarding.ts:78-89 | the item carries the template's name and its price times the multiplier, rounded to the nearest integer |
| OnboardingKit.ToItems | src/app/actions/onboarding.ts:78-89 | one item per template, in order |
| OnboardingKit.UniqueByDescription | src/app/actions/onboarding.ts:92-99 | the loop keeps the first item for each description |
| OnboardingKit.InsertedDistinct | src/app/actions/onboarding.ts:92-108 | inserted descriptions are pairwise distinct |
| OnboardingKit.EveryNameOnce | src/app/actions/onboarding.ts:68-108 | every relevant template's name is the description of exactly one inserted item |
| OnboardingKit.NameIsAKey | src/app/actions/onboarding.ts:68-89 | every relevant template's name appears among the items before de-duplication |
| OnboardingKit.InsertedFromTemplates | src/app/actions/onboarding.ts:68-99 | every inserted item comes from a relevant service or product, priced for the tier |
| OnboardingKit.ServicesFirst | src/app/actions/onboarding.ts:78-99 | the de-duplicated service items come first, in order |
| OnboardingKit.ApplyOnboardingKit | src/app/actions/onboarding.ts:44-123 | a failed template read fails the action with nothing inserted; a failed insert of a non-empty list fails it too; otherwise the de-duplicated items are inserted and success follows the profile update; items are priced with `Multiplier` (own entries only; see Findings) |
| Notifications.ActiveQuotes | src/app/actions/notifications.ts:53-59 | the query returns exactly the user's draft and sent quotes |
| Notifications.LastUpdate | src/app/actions/notifications.ts:65 | a quote's age counts from its update time, or its creation time when never updated |
| Notifications.CeilDiv | src/app/actions/notifications.ts:66-67 | the rounded-up quotient is the least whole number of days covering the time |
| Notifications.AgeDaysBounds | src/app/actions/notifications.ts:65-67 | the age in days is exact to the day, and zero only at the very instant of the last update |
| Notifications.MatchCount | src/app/actions/notifications.ts:81-86 | the count is zero exactly when no existing alert matches user, link and title key |
| Notifications.AlertMatchesItsKey | src/app/actions/notifications.ts:79-97 | a freshly inserted alert is found by the query for its own threshold |
| Notifications.AfterThresholds | src/app/actions/notifications.ts:74-99 | the inner loop only appends rows, and ids stay the row positions |
| Notifications.AfterQuotes | src/app/actions/notifications.ts:74-99 | the outer loop only appends rows, and ids stay the row positions |
| Notifications.Checked | src/app/actions/notifications.ts:49-101 | the check only appends rows, and does nothing when the quotes query fails |
| Notifications.CheckCoversActiveQuotes | src/app/actions/notifications.ts:62-99 | afterwards every active quote has an alert for every threshold its age has reached |
| Notifications.CheckIdempotent | src/app/actions/notifications.ts:81-97 | running the check again at the same instant inserts nothing |
| Notifications.CheckInsertsFreshAlerts | src/app/actions/notifications.ts:74-97 | every inserted row is an unread warning for the user about one of the user's active quotes, for a threshold its age reached |
| Notifications.NoDuplicateAlerts | src/app/actions/notifications.ts:79-97 | no two inserted rows share link and title |
| Notifications.UserRows | src/app/actions/notifications.ts:15-17 | exactly the user's rows, in table order |
| Notifications.NewestPage | src/app/actions/notifications.ts:15-22 | a page holds the user's 20 newest rows (all when fewer), newest first, and no row left out is newer than the last one shown |
| Notifications.MarkRead | src/app/actions/notifications.ts:25-33 | every row with the id is marked read, whoever owns it, and every other row is kept |
| Notifications.MarkAllRead | src/app/actions/notifications.ts:35-47 | the user's unread rows become read, all others are kept |
| Notifications.MarkAllReadScope | src/app/actions/notifications.ts:35-47 | only the user's rows change and only in their flag; afterwards none of the user's rows is unread; repeating changes nothing |
| Notifications.MarkReadScope | src/app/actions/notifications.ts:25-33 | marking one id read leaves every other row as it was and keeps row ids |
| Notifications.NotificationTable.CreateNotification | src/app/actions/notifications.ts:103-112 | one unread row is appended, with the next id and type info by default |
| Notifications.NotificationTable.CheckInactiveQuotes | src/app/actions/notifications.ts:49-101 | the table becomes the result of the check on its old rows |
| Notifications.NotificationTable.CheckQuote | src/app/actions/notifications.ts:74-99 | the per-quote loop over the thresholds, as the inner loop's function says |
| Notifications.NotificationTable.GetNotifications | src/app/actions/notifications.ts:6-23 | without a user an empty page and no change; with one, the check runs and the page is the newest 20 of the user's rows |
| Notifications.NotificationTable.MarkAsRead | src/app/actions/notifications.ts:25-33 | the table is marked as the pure function says |
| Notifications.NotificationTable.MarkAllAsRead | src/app/actions/notifications.ts:35-47 | without a user nothing changes; with one, the user's rows are marked read |
| QuoteForm.TotalConcat | src/components/quotes/quote-form.tsx:112 | the total of a list is the sum of the totals of its parts, and an empty list totals 0 |
| QuoteForm.AddRaisesTotal | src/components/quotes/quote-form.tsx:52-60 | adding an item raises the total by its quantity times its price |
| QuoteForm.NewItem | src/components/quotes/quote-form.tsx:52-60 | the new item carries the product's name, quantity and price |
| QuoteForm.RemoveItems | src/components/quotes/quote-form.tsx:62-64 | exactly the items with other ids remain |
| QuoteForm.RemoveItemsLaws | src/components/quotes/quote-form.tsx:62-64 | removal keeps the others in order, and an id no item has changes nothing |
| QuoteForm.Apply | src/components/quotes/quote-form.tsx:66-68 | the edited field takes the value, the id and the other fields stay |
| QuoteForm.UpdateItems | src/components/quotes/quote-form.tsx:66-68 | every item with the id is edited, every other kept, in place |
| QuoteForm.UpdateItemsScope | src/components/quotes/quote-form.tsx:66-68 | ids never move, only items with the id change, and an unknown id changes nothing |
| QuoteForm.NumericInput | src/components/quotes/quote-form.tsx:213 | the input stores the parsed number, or 0 when the text does not parse |
| QuoteForm.NumericInputOfNat | src/components/quotes/quote-form.tsx:213 | digits typed are stored as that number |
| QuoteForm.NumericInputOfText | src/components/quotes/quote-form.tsx:224 | an empty input, or one starting with a letter, is stored as 0 |
| QuoteForm.Validate | src/components/quotes/quote-form.tsx:71-78 | no items is the first error, then a missing client name; otherwise the form goes on |
| QuoteForm.ReplyToast | src/components/quotes/quote-form.tsx:99-106 | the server's error text, the generic error for an exception, and the created or updated message on success |
| QuoteForm.QuoteFormState.constructor | src/components/quotes/quote-form.tsx:37-41 | a new quote starts empty; an edited one starts from its data |
| QuoteForm.QuoteFormState.HandleAddItem | src/components/quotes/quote-form.tsx:52-60 | one item is appended, nothing else changes |
| QuoteForm.QuoteFormState.HandleRemoveItem | src/components/quotes/quote-form.tsx:62-64 | the items with the id are removed, nothing else changes |
| QuoteForm.QuoteFormState.HandleUpdateItem | src/components/quotes/quote-form.tsx:66-68 | the items with the id are edited, nothing else changes |
| QuoteForm.QuoteFormState.HandleQuantityInput | src/components/quotes/quote-form.tsx:213 | the typed quantity is stored as parsed, or 0 |
| QuoteForm.QuoteFormState.HandleUnitPriceInput | src/components/quotes/quote-form.tsx:224 | the typed price is stored as parsed, or 0 |
| QuoteForm.QuoteFormState.HandleClientReport | src/components/quotes/quote-form.tsx:135-138 | a picked client sets name and phone (missing ones as empty), a typed name sets the typed name and the picker's phone |
| QuoteForm.PhoneEntries | src/components/quotes/quote-form.tsx:89-141 | the form's `clientPhone` entries: the form's phone alone once it is set, else the picker's phone box followed by the empty hidden input |
| QuoteForm.SentPhone | src/components/quotes/quote-form.tsx:89 | the phone the server reads is the form's phone when non-empty, else the picker's phone box, never missing |
| QuoteForm.QuoteFormState.HandleSubmit | src/components/quotes/quote-form.tsx:70-110 | an invalid form gives its error toast and sends nothing; a valid one sends items, name and the resolved phone and toasts the reply; the form keeps its contents |
| QuoteForm.RetypedNameDropsPhone | src/components/quotes/quote-form.tsx:135-141 | the form gives the picker the client's name but not the phone, so retyping the name of an edited quote empties the form's phone, and a submission made before the phone box is filled again sends the empty phone |
| QuoteForm.PhoneTypedAfterName | src/components/quotes/quote-form.tsx:70-141 | a phone typed into the picker's box after the name is the phone submitted |
| QuoteActions.Text | src/app/actions/quotes.ts:17-31 | a form field reads as its text when present, as null otherwise |
| QuoteActions.TextOrNull | src/app/actions/quotes.ts:17-31 | an empty text is stored as null |
| QuoteActions.IntField | src/app/actions/quotes.ts:27-29 | an absent or empty number field takes its default, any other is read as `parseInt` without a radix: hexadecimal after a `0x` prefix, decimal otherwise |
| QuoteActions.PaymentMethods | src/app/actions/quotes.ts:17-31 | absent or empty payment methods are an empty list, others the parsed list |
| QuoteActions.ReadPayload | src/app/actions/quotes.ts:17-36 | every stored column is the reading of its field; the flags are set only by the exact text `true`; the total is the items' total |
| QuoteActions.PayloadDefaults | src/app/actions/quotes.ts:17-36 | an empty form stores null dates and counts, 0 discount, no payment methods and both flags off |
| QuoteActions.FieldReadings | src/app/actions/quotes.ts:17-31 | `True` is not `true`; a number typed as digits is stored as that number, and `0x1e` as 30 |
| QuoteActions.NewQuoteRow | src/app/actions/quotes.ts:39-59 | a new quote is the user's, a draft, never updated, with the payload |
| QuoteActions.ItemRows | src/app/actions/quotes.ts:67-81 | one row per item, in order, linked to the quote and carrying its values |
| QuoteActions.StoredTotalMatchesItems | src/app/actions/quotes.ts:36-81 | the stored item rows add up to the quote's stored total |
| QuoteActions.UpdateRows | src/app/actions/quotes.ts:126-143 | rows matching id and user take the payload and update time, all others are kept |
| QuoteActions.UpdateRowsScope | src/app/actions/quotes.ts:126-143 | another user's quote is never touched, the payload lands on the match, and updating twice is updating once |
| QuoteActions.DeleteRows | src/app/actions/quotes.ts:184-206 | exactly the rows not matching id and user remain |
| QuoteActions.DeleteRowsLaws | src/app/actions/quotes.ts:184-206 | deletion works piecewise and repeating it changes nothing |
| QuoteActions.ItemsOf | src/app/actions/quotes.ts:151-177 | the item rows of a quote are rows of the table linked to it |
| QuoteActions.DeleteItems | src/app/actions/quotes.ts:151-160 | exactly the rows of other quotes remain |
| QuoteActions.ReplaceItems | src/app/actions/quotes.ts:151-177 | after delete and re-insert the quote's items are exactly the new ones and other quotes' items are as before |
| QuoteActions.Interpolated | src/app/actions/quotes.ts:84-90 | a present client name is written as itself |
| QuoteActions.StatusText | src/app/actions/quotes.ts:208-224 | the decision is sent as `approved` for approval and `rejected` otherwise |
| QuoteActions.UpdateQuoteStatus | src/app/actions/quotes.ts:208-224 | the status procedure is called with the quote and the decision, and a failed call throws |
| QuoteActions.QuoteStore.constructor | src/app/actions/quotes.ts:8-94 | the store starts without quotes or items |
| QuoteActions.QuoteStore.CreateQuote | src/app/actions/quotes.ts:8-94 | no user redirects to login; a failed quote insert reports its error and stores nothing; a failed items insert reports its error after the quote is stored; otherwise the items and a notification are stored too and the user is sent to the quote |
| QuoteActions.QuoteStore.UpdateQuote | src/app/actions/quotes.ts:96-182 | no user redirects to login; a failed update reports its error and changes nothing; otherwise the user's quote takes the payload, and its items are deleted and re-inserted, a failing step reporting its error and stopping there, and success sends the user to the quote |
| QuoteActions.QuoteStore.DeleteQuote | src/app/actions/quotes.ts:184-206 | no user redirects to login; a failed delete throws and changes nothing; otherwise the user's quote with that id is removed |
| ServiceActions.ParsePrice | src/app/actions/services.ts:16 | a price without a comma is read as `parseFloat` reads it |
| ServiceActions.ParsePriceComma | src/app/actions/services.ts:16 | a price written with a decimal comma or point is read as its value |
| ServiceActions.Kind | src/app/actions/services.ts:17 | a missing or empty type is `service` |
| ServiceActions.Details | src/app/actions/services.ts:18-33 | blank details are null, others are trimmed |
| ServiceActions.FolderId | src/app/actions/services.ts:19-20 | a missing, empty or `none` folder is null |
| ServiceActions.ReadService | src/app/actions/services.ts:14-33 | a missing price throws; a missing or empty description or an unreadable price is invalid data; anything else is read as a record with the description trimmed |
| ServiceActions.StoredRecordIsNormalised | src/app/actions/services.ts:14-24 | a stored record has a description without outer white space, a non-empty type, details that are null or start with a non-space, and a folder that is null or neither empty nor `none` |
| ServiceActions.BlankDescriptionStoredEmpty | src/app/actions/services.ts:14-24 | a description of only spaces passes the check and is stored empty |
| ServiceActions.UpdateRows | src/app/actions/services.ts:62-76 | rows matching id and user take the record, all others are kept |
| ServiceActions.DeleteRows | src/app/actions/services.ts:95-99 | exactly the rows not matching id and user remain |
| ServiceActions.ScopedWrites | src/app/actions/services.ts:46-108 | another user's rows are never touched, and both writes are idempotent |
| ServiceActions.ServiceStore.constructor | src/app/actions/services.ts:6-44 | the table starts empty |
| ServiceActions.ServiceStore.CreateService | src/app/actions/services.ts:6-44 | no user is unauthorized, a missing price throws, bad data is refused, a failed insert reports its error; otherwise one row with the read record is appended |
| ServiceActions.ServiceStore.UpdateService | src/app/actions/services.ts:46-85 | the same checks, then the user's row with that id takes the record |
| ServiceActions.ServiceStore.DeleteService | src/app/actions/services.ts:87-108 | no user is unauthorized, a failed delete reports it, otherwise the user's row with that id is removed |
| ServicesCatalog.PriceValue | src/components/profile/services-catalog.tsx:36 | the price read with a comma as decimal point, or 0 |
| ServicesCatalog.CheckInput | src/components/profile/services-catalog.tsx:32-40 | a blank description and then a non-positive price are refused with their toasts; otherwise the trimmed text and the price go on |
| ServicesCatalog.CommaPriceAccepted | src/components/profile/services-catalog.tsx:32-40 | a positive price typed with a decimal comma is accepted as that amount |
| ServicesCatalog.RemoveService | src/components/profile/services-catalog.tsx:80 | exactly the entries with other ids remain |
| ServicesCatalog.RemoveServiceLaws | src/components/profile/services-catalog.tsx:80 | removal keeps order and an unknown id changes nothing |
| ServicesCatalog.CatalogState.constructor | src/components/profile/services-catalog.tsx:25-28 | the catalogue starts with the server's list and empty inputs |
| ServicesCatalog.CatalogState.HandleAdd | src/components/profile/services-catalog.tsx:31-68 | refused input only toasts; a failed insert toasts and keeps the list; a stored one is prepended and the inputs cleared |
| ServicesCatalog.CatalogState.Save | src/components/profile/services-catalog.tsx:42-68 | the insert sends the trimmed text and price; a failure keeps list and inputs, a success prepends the row and clears the inputs; saving ends off |
| ServicesCatalog.CatalogState.HandleDelete | src/components/profile/services-catalog.tsx:70-85 | a failed delete toasts and keeps the list; otherwise the entry leaves it |
| ProductSearch.Suggestions | src/components/quotes/product-search.tsx:55-68 | every saved service for a blank query, else those whose description contains it ignoring case |
| ProductSearch.SuggestionsConcat | src/components/quotes/product-search.tsx:55-68 | the suggestions keep the saved order |
| ProductSearch.SuggestionsIgnoreCase | src/components/quotes/product-search.tsx:55-68 | the letter case of the query never changes the suggestions |
| ProductSearch.SelectedPriceReadsBack | src/components/quotes/product-search.tsx:70-89 | a picked service's price text, negative ones included, is read back as that price |
| ProductSearch.PriceValue | src/components/quotes/product-search.tsx:81 | the price read with a comma as decimal point, or 0 |
| ProductSearch.QuantityValue | src/components/quotes/product-search.tsx:82 | the quantity as parsed, or 1 when it is zero or unreadable |
| ProductSearch.CheckAdd | src/components/quotes/product-search.tsx:76-94 | a blank description and then a non-positive price are refused; otherwise the product with the trimmed name, price and quantity |
| ProductSearch.ProductSearchState.constructor | src/components/quotes/product-search.tsx:22-27 | no text, no price, quantity 1, nothing loaded or shown |
| ProductSearch.ProductSearchState.Loaded | src/components/quotes/product-search.tsx:31-42 | the services are kept only when the query returned data |
| ProductSearch.ProductSearchState.HandleDescriptionChange | src/components/quotes/product-search.tsx:55-68 | the list is the suggestions for the text and shows exactly when it is not empty |
| ProductSearch.ProductSearchState.HandleFocus | src/components/quotes/product-search.tsx:116-124 | an empty field offers every saved service, otherwise nothing changes |
| ProductSearch.ProductSearchState.SelectSuggestion | src/components/quotes/product-search.tsx:70-74 | the service's text and price are copied and the list closes |
| ProductSearch.ProductSearchState.CloseSuggestions | src/components/quotes/product-search.tsx:45-53 | a click outside hides the list |
| ProductSearch.ProductSearchState.HandleAdd | src/components/quotes/product-search.tsx:76-94 | a refused input keeps every field and toasts; an added product is handed on and the fields reset |
| ProductSearch.ProductSearchState.Clear | src/components/quotes/product-search.tsx:90-92 | the three inputs return to their start values |
| ProductSearch.PickThenAdd | src/components/quotes/product-search.tsx:70-94 | picking a positive-priced service and adding it hands on that service's name and price |
| EditServiceDialog.PriceDisplay | src/components/profile/edit-service-dialog.tsx:52 | a stored price whose text has no point, negative prices included, is shown unchanged |
| EditServiceDialog.PriceDisplayReadsBack | src/components/profile/edit-service-dialog.tsx:52 | the shown price, with its comma and any minus sign, is read back by the server as the stored price |
| EditServiceDialog.NegativePriceShown | src/components/profile/edit-service-dialog.tsx:52 | a stored price of -5.5 is shown as `-5,5` and read back by the server as -5.5 |
| EditServiceDialog.InitialKind | src/components/profile/edit-service-dialog.tsx:53 | a missing or empty type shows as `service` |
| EditServiceDialog.FolderShown | src/components/profile/edit-service-dialog.tsx:55 | no folder shows as `none` |
| EditServiceDialog.FolderChosen | src/components/profile/edit-service-dialog.tsx:154 | choosing `none` stores no folder |
| EditServiceDialog.FolderRoundTrip | src/components/profile/edit-service-dialog.tsx:55-154 | showing and choosing the folder are inverse |
| EditServiceDialog.SaveForm | src/components/profile/edit-service-dialog.tsx:67-72 | description, price and type are always sent, details only when not blank, the folder only when set |
| EditServiceDialog.ReplyToast | src/components/profile/edit-service-dialog.tsx:78-87 | an error text is shown, an exception gives the generic error, success the update message |
| EditServiceDialog.EditDialogState.constructor | src/components/profile/edit-service-dialog.tsx:50-56 | the dialog starts closed with the service's fields |
| EditServiceDialog.EditDialogState.SetOpen | src/components/profile/edit-service-dialog.tsx:94 | only the open flag changes |
| EditServiceDialog.EditDialogState.ChooseFolder | src/components/profile/edit-service-dialog.tsx:154 | only the folder changes, to the choice |
| EditServiceDialog.EditDialogState.HandleSave | src/components/profile/edit-service-dialog.tsx:59-91 | a blank description toasts and sends nothing; otherwise the form is sent, the reply toasted, and the dialog closes only on success |
| EditServiceDialog.EditDialogState.Settle | src/components/profile/edit-service-dialog.tsx:65-90 | saving ends off, the dialog closes exactly when the reply closes it, the fields stay |
| EditServiceDialog.UntouchedSaveKeepsService | src/components/profile/edit-service-dialog.tsx:50-91 | saving an untouched dialog stores the service as it was |
| ClientAutocomplete.TypedSuggestions | src/components/clients/client-autocomplete.tsx:39-49 | every client for a blank query, else those whose name or phone contains it |
| ClientAutocomplete.FocusSuggestions | src/components/clients/client-autocomplete.tsx:51-57 | every client for a blank query, else those whose name contains it |
| ClientAutocomplete.FocusNarrowsTyped | src/components/clients/client-autocomplete.tsx:39-57 | `handleFocus`'s own list is the typing list without the phone-only matches |
| ClientAutocomplete.PhoneOnlyMatch | src/components/clients/client-autocomplete.tsx:39-57 | a client found only by phone is in the typing list but not in `handleFocus`'s own list |
| ClientAutocomplete.PhoneOnlyMatchTests | src/components/clients/client-autocomplete.tsx:39-57 | the phone test matches where the name test does not |
| ClientAutocomplete.AutocompleteState.constructor | src/components/clients/client-autocomplete.tsx:20-25 | the query and phone start as the defaults or empty |
| ClientAutocomplete.AutocompleteState.LoadAll | src/components/clients/client-autocomplete.tsx:28-36 | the clients loaded, or none, and loading is off |
| ClientAutocomplete.AutocompleteState.RefreshSuggestions | src/components/clients/client-autocomplete.tsx:39-49 | while the list shows it holds the typing suggestions |
| ClientAutocomplete.AutocompleteState.HandleFocus | src/components/clients/client-autocomplete.tsx:51-57 | the list shows `handleFocus`'s own suggestions |
| ClientAutocomplete.AutocompleteState.FocusThenRefresh | src/components/clients/client-autocomplete.tsx:39-57 | once the filter effect has run after a focus, the list shows the typing suggestions |
| ClientAutocomplete.PhoneOnlyShownAfterFocus | src/components/clients/client-autocomplete.tsx:39-57 | after a focus a client found only by phone is listed |
| ClientAutocomplete.AutocompleteState.HandlePhoneChange | src/components/clients/client-autocomplete.tsx:132-138 | the phone box takes the text, nothing else changes and the form is not told |
| ClientAutocomplete.AutocompleteState.HandleBlur | src/components/clients/client-autocomplete.tsx:59-62 | the list hides |
| ClientAutocomplete.AutocompleteState.HandleSelect | src/components/clients/client-autocomplete.tsx:64-69 | name and phone are copied, the list hides and the form hears the client |
| ClientAutocomplete.AutocompleteState.HandleChange | src/components/clients/client-autocomplete.tsx:84-87 | the query takes the text and the form hears it with the current phone |
| ClientAutocomplete.AutocompleteState.HandleCreateSuccess | src/components/clients/client-autocomplete.tsx:71-73 | the list empties |
| NotificationBell.MarkRead | src/components/notifications/notification-bell.tsx:44-48 | the notifications with the id are marked read, the others kept |
| NotificationBell.MarkAllRead | src/components/notifications/notification-bell.tsx:50-54 | every notification is marked read |
| NotificationBell.MarkReadUnread | src/components/notifications/notification-bell.tsx:44-48 | the dot after marking one shows exactly when another notification is unread |
| NotificationBell.MarkAllReadUnread | src/components/notifications/notification-bell.tsx:50-54 | afterwards nothing is unread and only the flags changed |
| NotificationBell.MarkReadIdempotent | src/components/notifications/notification-bell.tsx:44-54 | marking is idempotent, and marking after marking all changes nothing |
| NotificationBell.BellState.constructor | src/components/notifications/notification-bell.tsx:26-28 | the bell starts closed, empty and without a dot |
| NotificationBell.BellState.Fetched | src/components/notifications/notification-bell.tsx:30-42 | a response replaces the list and recomputes the dot; no response changes nothing |
| NotificationBell.BellState.HandleMarkRead | src/components/notifications/notification-bell.tsx:44-48 | the list is marked and the dot kept consistent with it |
| NotificationBell.BellState.HandleMarkAllRead | src/components/notifications/notification-bell.tsx:50-54 | everything is read and the dot is off |
| NotificationBell.BellState.FollowLink | src/components/notifications/notification-bell.tsx:99 | the popover closes and the notification is marked read |
| NotificationBell.AgeOf | src/components/notifications/notification-bell.tsx:130-139 | under a minute is `agora`; otherwise whole minutes, hours, or days, each count the floor of the age in its unit |
| NotificationBell.AgeText | src/components/notifications/notification-bell.tsx:130-139 | `agora`, or the count followed by `m`, `h` or `d` |
| NotificationBell.AgeMonotone | src/components/notifications/notification-bell.tsx:130-139 | a later moment never shows a smaller unit or a smaller count in the same unit |
| NotificationBell.AgeTextInjective | src/components/notifications/notification-bell.tsx:130-139 | different ages are written differently |
| NotificationBell.AgeBoundaries | src/components/notifications/notification-bell.tsx:130-139 | 59.999 s is `agora`, a minute `1m`, an hour `1h`, a day `1d` |
| UrgencyBadge.Validity | src/components/quotes/urgency-badge.tsx:15 | the validity defaults to 7 days |
| UrgencyBadge.CeilDays | src/components/quotes/urgency-badge.tsx:17-20 | the rounded-up days are the least whole number of days covering the time |
| UrgencyBadge.DaysRemainingElapsed | src/components/quotes/urgency-badge.tsx:17-20 | after d whole days, the validity minus d days remain |
| UrgencyBadge.CeilDaysExact | src/components/quotes/urgency-badge.tsx:17-20 | whole days round to themselves |
| UrgencyBadge.DaysRemainingAntitone | src/components/quotes/urgency-badge.tsx:17-20 | the later the moment, the fewer days remain |
| UrgencyBadge.LevelOf | src/components/quotes/urgency-badge.tsx:23-24 | urgent up to 2 days, expiring soon up to 5, normal beyond |
| UrgencyBadge.RemainingText | src/components/quotes/urgency-badge.tsx:52-55 | `Expira amanhã` for one day, else the count of days remaining |
| UrgencyBadge.BadgeFor | src/components/quotes/urgency-badge.tsx:23-55 | an expired quote shows nothing; otherwise the level, its heading and the remaining text |
| UrgencyBadge.BadgeLevels | src/components/quotes/urgency-badge.tsx:23-55 | urgent for 0 to 2 days left, expiring soon for 3 to 5, and different counts give different texts |
| UrgencyBadge.DefaultValidityBadge | src/components/quotes/urgency-badge.tsx:15-55 | a new quote with the default validity shows `7 dias restantes` without urgency, and six days later it is urgent with `Expira amanhã` |
| QuoteStatusBadge.StatusConfigAsWritten | src/components/quotes/quote-status-badge.tsx:3-11 | the lookup as JavaScript runs it: own entries, nothing for an inherited property name, the draft entry otherwise |
| QuoteStatusBadge.StatusConfigOf | src/components/quotes/quote-status-badge.tsx:3-11 | own entries, and the draft entry for anything else |
| QuoteStatusBadge.StatusLabels | src/components/quotes/quote-status-badge.tsx:3-11 | the four statuses have four different labels, and any other status reads `Rascunho` |
| QuoteStatusBadge.AsWrittenDiffers | src/components/quotes/quote-status-badge.tsx:11 | the two lookups agree except on inherited names, where `toString` renders no label |
| TimelineSection.Phases | src/components/quotes/timeline-section.tsx:20-36 | three phases: approval current, execution pending with the estimate or `3-5 dias`, delivery pending |
| TimelineSection.TotalText | src/components/quotes/timeline-section.tsx:95 | the estimate plus three working days, or `5-8 dias úteis` |
| TimelineSection.PhaseShape | src/components/quotes/timeline-section.tsx:20-64 | only the first phase is current, and a connector follows every phase but the last |
| TimelineSection.ZeroIsMissing | src/components/quotes/timeline-section.tsx:28 | an estimate of 0 is shown as no estimate |
| TimelineSection.EstimateTexts | src/components/quotes/timeline-section.tsx:28 | different non-zero estimates give different texts |
| PaymentOptions.WithDefaults | src/components/quotes/payment-options.tsx:19-24 | the discount is off and 5 percent by default |
| PaymentOptions.PaymentMethods | src/components/quotes/payment-options.tsx:25-50 | four methods: PIX and cash with the discount text when it is on, card, and instalments when the count is non-zero |
| PaymentOptions.DiscountBanner | src/components/quotes/payment-options.tsx:96-108 | the banner shows exactly when the discount is on, with its percentage |
| PaymentOptions.DefaultProps | src/components/quotes/payment-options.tsx:19-50 | with no props there is no banner, PIX reads `Pagamento instantâneo` and instalments `Condições a combinar` |
| PaymentOptions.DefaultDiscountPercent | src/components/quotes/payment-options.tsx:19-30 | turning the discount on without a percentage shows 5 percent on the PIX card |
| PaymentOptions.DiscountConsistent | src/components/quotes/payment-options.tsx:29-38 | a card mentions the discount exactly when the banner shows, and different percentages give different texts |
| PaymentOptions.ZeroInstallments | src/components/quotes/payment-options.tsx:48 | a count of 0 is shown as no count |
| ApproveQuoteClient.VerdictFor | src/components/quotes/approve-quote-client.tsx:29-41 | the approve dialog sends approval and the reject dialog rejection |
| ApproveQuoteClient.VerdictName | src/components/quotes/approve-quote-client.tsx:29-41 | the verdicts are sent as `approved` and `rejected` |
| ApproveQuoteClient.VerdictNames | src/components/quotes/approve-quote-client.tsx:29-41 | the two dialogs send the two different verdicts |
| ApproveQuoteClient.ScreenFor | src/components/quotes/approve-quote-client.tsx:43-100 | a verdict shows its final screen; otherwise the buttons with at most the chosen dialog open |
| ApproveQuoteClient.ApprovalState.constructor | src/components/quotes/approve-quote-client.tsx:25-27 | nothing loading, no dialog, no verdict |
| ApproveQuoteClient.ApprovalState.Choose | src/components/quotes/approve-quote-client.tsx:83-92 | a button opens its dialog while there is no verdict |
| ApproveQuoteClient.ApprovalState.Dismiss | src/components/quotes/approve-quote-client.tsx:128-159 | the cancel buttons close the dialog |
| ApproveQuoteClient.ApprovalState.OpenChange | src/components/quotes/approve-quote-client.tsx:100-139 | closing the dialog clears it, opening keeps it |
| ApproveQuoteClient.ApprovalState.HandleConfirm | src/components/quotes/approve-quote-client.tsx:29-41 | without a dialog nothing happens; otherwise its verdict is sent, kept unless the call threw, and the dialog closes; a verdict, once kept, never changes |
| ApproveQuoteClient.ApproveThenClick | src/components/quotes/approve-quote-client.tsx:29-73 | an approval the server took stays on the approved screen; one whose call threw leaves the buttons |
| Middleware.RouteKindsDisjoint | src/middleware.ts:62-67 | no path is both protected and an auth route |
| Middleware.UpdateSession | src/middleware.ts:57-77 | no session on a protected path goes to login, a session on an auth route goes to the dashboard, anything else passes |
| Middleware.HandleRequest | src/middleware.ts:80-91 | an exception lets the request through |
| Middleware.NoRedirectLoop | src/middleware.ts:57-91 | the target of a redirect is let through |
| Middleware.PrefixExamples | src/middleware.ts:62-75 | `/dashboardx` is guarded, `/quotes` is not, `/login/x` with a session goes to the dashboard |
| AuthCallback.NextPath | src/app/auth/callback/route.ts:8 | a missing `next` is the login page |
| AuthCallback.HandleCallback | src/app/auth/callback/route.ts:6-24 | a non-empty code is exchanged; success goes to `next`, everything else to the error page |
| AuthCallback.ReachesNext | src/app/auth/callback/route.ts:6-24 | the visitor reaches `next` exactly when the exchange succeeded or `next` is the error page |
| AuthCallback.NextDefaults | src/app/auth/callback/route.ts:8-18 | with no `next` the login page, with an empty one the bare origin |
| DesktopSidebar.ActiveFlags | src/components/layout/desktop-sidebar.tsx:75-77 | the overview is active only on `/`, every other link on paths starting with its href |
| DesktopSidebar.AtMostOneActive | src/components/layout/desktop-sidebar.tsx:18-77 | at most one link is active on any path |
| DesktopSidebar.ActiveExamples | src/components/layout/desktop-sidebar.tsx:18-77 | a nested path activates its section, `/newsletter` activates `Novo Orçamento`, `/` only the overview |
| BottomNav.LookOf | src/components/layout/bottom-nav.tsx:44-77 | the highlighted link is always raised; any other is active exactly on its own path |
| BottomNav.Looks | src/components/layout/bottom-nav.tsx:43-79 | one look per link, in order |
| BottomNav.AtMostOneActive | src/components/layout/bottom-nav.tsx:11-44 | at most one link is active, the one naming the path |
| BottomNav.LookExamples | src/components/layout/bottom-nav.tsx:11-79 | only `Novo` is raised on every path, nested paths leave all items plain |
| Numbers.ParseDecimalToString | src/components/quotes/product-search.tsx:70-89 | the text of a finite decimal, negative ones included, is parsed back as that decimal |
| Numbers.ParseIntAuto | src/app/actions/quotes.ts:27-29 | `parseInt` without a radix reads hexadecimal after a `0x` or `0X` prefix and decimal otherwise |
| Numbers.ParseIntAutoExamples | src/app/actions/quotes.ts:27-29 | a natural number's digits read as decimal, `0x1e` as 30, `-0x1e` as -30, `1e` as 1 |
| Numbers.IntToStringInjective | src/components/quotes/timeline-section.tsx:28 | different integers have different texts |
| Numbers.Round | src/app/actions/onboarding.ts:78-89 | `Math.round` rounds half up to the nearest integer |
| Seqs.KeepFirstDistinct | src/app/actions/onboarding.ts:92-99 | first-occurrence de-duplication leaves pairwise distinct keys |
| Strings.TrimEmptyIffBlank | src/components/profile/services-catalog.tsx:32 | trimming gives the empty text exactly for a blank text |

## Left out

- Text: lower-casing covers ASCII letters only, and `trim` a fixed set of white-space characters; Unicode case mapping, normalisation and encodings are not modelled.
- Numbers: `parseFloat` is modelled for an optional sign, digits and an optional fraction (no exponent, `Infinity` or hexadecimal); NaN is `None`; number-to-text is modelled for finite decimals in plain notation, negative ones included (not for the exponent form JavaScript writes for very large or very small numbers); money is an exact `real`, so floating-point rounding is out; likewise CategoryDetection.AdjustColorBrightness scales a channel by `percent / 100` exactly, without IEEE rounding.
- Percentages, counts and day offsets are integers; a fractional or NaN `estimatedDays`, `cashDiscountPercent` or `installmentCount` is not modelled.
- The database, the authentication service and the remote calls are inputs of the methods: a read's rows or its failure, and whether a write failed where the code looks at that; SQL, row-level security and concurrency are out.
- Notifications: the notification table calls are modelled as succeeding. Not modelled: a failing duplicate-check count (its null count skips the alert), a failing alert insert, a failing `getNotifications` select (which returns `[]`), failing `markAsRead` and `markAllAsRead` updates, and a failing `createNotification` inside `createQuote`; the code ignores all of these errors.
- `revalidatePath`, the router, cookies, the middleware's matcher, `console.*` and the rendering (icons, colours, layout) are not modelled.
- Currency and date formatting through `Intl` are out: the created-quote notification takes the amount text as an input.
- Random ids (`crypto.randomUUID`, `Date.now`) are parameters.
- Timers are out: the bell's polling interval, the client picker's blur delay and any debounce are modelled as the event that fires after them.
- QuoteForm: the effect that fills in a default expiry date reads the clock and is not modelled.
- UrgencyBadge: `addDays` is modelled as adding whole 24-hour days; daylight-saving shifts and invalid dates are out.
- Image opening, conversion and resizing in `analyze_colors.py` are an input (the pixels or the error message), and so is whether PIL can be imported; `analyze_colors_node.js` is not part of this model.
- `getOnboardingCategories` is a plain table read that returns an empty list on error and is not modelled.
- Pressing Enter in the product search and in the services catalogue calls the add handler; that key binding is not modelled separately.
- ServicesCatalog: the category column of the catalogue and the server-side scoping of the client-side delete are not modelled.
- The remote procedures `approve_quote_public` and `update_quote_status` are only called; their bodies live in the database and are out.
- ApproveQuoteClient.ApprovalState.HandleConfirm: a confirm is one event; the loading state it shows while the call is pending and the asynchrony of the call are not modelled.
- ProductSearch.ProductSearchState.HandleAdd: the three field resets of a successful add are done by the helper `Clear`.
- ClientAutocomplete.AutocompleteState.HandleSelect: a picked client without a name stores `''` as the query, while `setQuery(client.name)` stores null and the next focus then throws at `query.trim()`; clients are created with a required name (src/components/clients/create-client-dialog.tsx:60), so the model keeps the query a text.
- QuoteForm.QuoteFormState.HandleClientReport: a picked client without a name or phone is stored with the empty text, as the input receives it.

## Findings

| source | as written | input that shows it | evidently intended | confidence | as-written member | corrected member |
|---|---|---|---|---|---|---|
| src/components/onboarding/wizard-step-2.tsx:59 | `SPECIALTIES_BY_CATEGORY[slug] \|\| []` finds inherited properties of the object literal, whose values have no array `map`, so rendering the options throws | category slug `constructor` | a slug without options shows an empty list | not executed | WizardStep2.OptionsAsWritten, WizardStep2.OptionsAsWrittenDiffers | WizardStep2.Options, WizardStep2.KnownCategories |
| src/app/actions/onboarding.ts:44 | `PRICING_MULTIPLIERS[pricingTier] \|\| 1.0` finds inherited properties, which are not numbers, so every kit price becomes NaN | pricing tier `toString` sent to the action | an unknown tier prices at factor 1 | not executed | OnboardingKit.MultiplierAsWritten, OnboardingKit.MultiplierAsWrittenDiffers | OnboardingKit.Multiplier |
| src/components/quotes/quote-status-badge.tsx:11 | `statusMap[status] \|\| statusMap.draft` finds inherited properties of the object literal, so a status named like one of them gets no configuration and the badge renders no label | status `toString` | unknown statuses fall back to the draft badge `Rascunho` | not executed | QuoteStatusBadge.StatusConfigAsWritten, QuoteStatusBadge.AsWrittenDiffers | QuoteStatusBadge.StatusConfigOf, QuoteStatusBadge.StatusLabels |
