# Health-plan quoting tool — a Dafny model

This project models the core of a web tool that brokers use to quote health
plans. A broker chooses a contracting category: individual (PF) or business
with 1, 2-29 or 30+ lives (PME). They then enter how many lives fall into each of
the ten age brackets. The tool then:

1. keeps the catalogue plans offered for that category. For an individual
   quote made only for minors it also drops the Fênix plans.
2. prices every plan bracket by bracket.
3. ranks the plans by a fixed operator/product weight table, then by price.
4. groups the coparticipation variants of one product.
5. groups those products by operator.

Around this pipeline sit the following parts:
- the quote-flow screens with their counters and guards;
- the product card, the price summary table, the comparison view and the
  details view, which all read the grouping;
- the small validators and state changes of the login, registration,
  password and admin screens.

Layout, one module per file:

| module | file | models |
|---|---|---|
| `Seqs` | seqs.dfy | generic sequence operations: filter, first match, de-duplication, grouping in first-seen order, stable sort by an integer pair |
| `Text` | text.dfy | case mapping, `includes`, digit extraction |
| `Types` | types.dfy | the enumerations and records of types.ts |
| `Lives` | lives.dfy | the bracket selection, `totalLives`, `isSoloMinor`, `activeAges` |
| `Eligibility` | eligibility.dfy | step 1, catalogue filtering |
| `Pricing` | pricing.dfy | step 3, the pricing loop |
| `Ranking` | ranking.dfy | step 4, `getPlanWeight` and the sort |
| `Grouping` | grouping.dfy | steps 5 and 6, and `minPrice` |
| `Pipeline` | pipeline.dfy | the whole calculation effect |
| `Flow` | flow.dfy | the quote-flow state (a class) |
| `PlanCard` | plan_card.dfy | the product card |
| `PriceSummary` | price_summary.dfy | the summary table |
| `Comparison` | comparison.dfy | the comparison view |
| `PlanDetails` | plan_details.dfy | the details view and its grace-period tabs |
| `Password` | password.dfy | the new-password screen |
| `Login` | login.dfy | the login screen |
| `Admin` | admin.dfy | the admin panel |
| `Register` | register.dfy | the registration screen |

**How the state is modelled**
- State that the source updates step by step is a class whose methods state
  the whole new state:
  - the quote flow;
  - the grace-period tabs;
  - the summary table's selection;
  - the forms of the auth screens;
  - the admin user list.
- The source's loops are methods with loop invariants, each proved equal to
  a specification function:
  - the pricing loop (`Pricing.PricePlan`);
  - the variant `Map` (`Seqs.GroupInOrder`);
  - the operator grouping (`Grouping.GroupByOperator`);
  - the whole calculation (`Pipeline.RunCalculation`).
- The pure parts are functions and lemmas.

**Where the model follows the code rather than the written description**
- **Fênix exclusion.** The exclusion of Fênix plans from an individual
  minors-only quote matches only the accented "fênix" in the lower-cased
  operator name. An operator spelled "Fenix" is *not* excluded
  (`Eligibility.UnaccentedNeverExcluded`). The weight table, by contrast,
  accepts both spellings.
- **Ranking ties.** The ranking is a stable sort, so plans with the same
  weight and the same total keep their catalogue order
  (`Ranking.RankIsStable`). Reordering the catalogue can therefore reorder
  tied plans.
- **Limit alert.** The limit alert is cleared by several handlers but never
  raised, so `Flow.QuoteFlow.Valid` includes `!showLimitAlert`.
- **Expanded operators.** The expanded-operator map is reset only when the
  screen changes to the results. Continuing while already on the results
  keeps it.

## Model

| member | source | states |
|---|---|---|
| Types.AgeRangeIsClosed | types.ts:2-13 | the bracket enumeration is exactly ten distinct labels, "0-18" first and "59+" last, each parsed back to itself |
| Types.ParseRange | types.ts:2-13 | a key string parses to a bracket only when it is that bracket's label |
| Lives.Count | App.tsx:48 | `userSelection[r] \|\| 0`: the count of the first entry for `r`, 0 when `r` has no entry |
| Lives.TotalLives | App.tsx:44 | the total of the counts is zero exactly when no entry holds a life |
| Lives.TotalSplits | App.tsx:44 | with one entry per bracket, the total is the count of `r` plus the lives of every other bracket |
| Lives.IsSoloMinor | App.tsx:46-50 | a solo-minor selection has a life in "0-18" |
| Lives.SoloMinorMeansOnlyMinors | App.tsx:46-50 | a selection is solo-minor iff "0-18" holds a life and every other bracket is empty |
| Lives.ActiveAges | App.tsx:54 | the active entries are exactly the entries with a positive count |
| Lives.NoActiveIffNoLives | App.tsx:54 | no bracket is active iff no life was entered |
| Lives.ActiveAgesKeepTotal | App.tsx:54 | the active entries hold every life of the selection |
| Lives.Zeroed | App.tsx:30-32 | the initial selection has one entry per offered bracket, in order, all at zero |
| Lives.ZeroedHasNoLives | App.tsx:242-244 | a reset selection has no lives and is not solo-minor |
| Lives.CountAfterSetCount | App.tsx:282 | setting one bracket changes only that bracket's count and keeps the brackets and their order |
| Lives.TotalAfterSetCount | App.tsx:282 | setting bracket `r` to `n` moves the total by `n` minus the old count of `r` |
| Eligibility.IsFenix | App.tsx:58 | a plan is a Fênix plan exactly when "fênix" occurs somewhere in its lower-cased operator name |
| Eligibility.Eligible | App.tsx:55-59 | a plan is offered iff it is in the catalogue, a category is chosen and listed by the plan, and it is not a Fênix plan in a PF solo-minor quote |
| Eligibility.NoCategoryNoPlans | App.tsx:55 | with no category no plan is offered |
| Eligibility.EligibleKeepsOrder | App.tsx:55-59 | filtering distributes over concatenation, so catalogue order is kept |
| Eligibility.FenixKeptOutsideSoloMinorPF | App.tsx:57-59 | outside the PF solo-minor case a Fênix plan that lists the category is offered |
| Eligibility.UnaccentedNeverExcluded | App.tsx:58 | an operator name without 'ê'/'Ê' is never excluded |
| Pricing.PricePlan | App.tsx:67-76 | the pricing loop: one detail per active bracket in order, with unit price (0 when missing), count and subtotal; `totalPrice` is the sum of the subtotals |
| Pricing.TotalIsSumOfSubtotals | App.tsx:67-76 | every calculated plan's breakdown adds up to its `totalPrice` exactly |
| Pricing.ActiveCostIsFullCost | App.tsx:54-75 | pricing only the active brackets gives the same total as pricing the whole selection |
| Pricing.CostNonNegative | App.tsx:67-76 | with no negative price no total is negative |
| Pricing.CostOfOneMoreLife | App.tsx:71-73 | one more life in a bracket adds that bracket's unit price |
| Ranking.Weight | App.tsx:78-99 | the weight is one of the thirteen table weights or the catch-all 100 |
| Ranking.WeightFollowsTable | App.tsx:78-99 | `getPlanWeight` is the first matching row of a 13-row operator/product table |
| Ranking.OtherOperatorsLast | App.tsx:94-98 | a plan gets weight 100 iff no row of the table names its operator |
| Ranking.TableWeightFirstMatch | App.tsx:78-99 | the table search returns the weight of the earliest matching row |
| Ranking.TableWeightNoMatch | App.tsx:98 | with no matching row the search returns 100 |
| Ranking.Compare | App.tsx:100-103 | a lower weight sorts first whatever the prices; within a weight the lower total sorts first, and equal totals tie |
| Ranking.CompareAgreesWithKey | App.tsx:100-103 | the comparator orders exactly as the (weight, total) pair, is zero exactly on equal pairs and is antisymmetric |
| Ranking.Rank | App.tsx:77-104 | the ranked list is a permutation of its input, ordered by weight and, within a weight, by total |
| Ranking.RankIsStable | App.tsx:77-104 | plans with equal weight and total keep their input order |
| Ranking.AmhemedIdealBeforeUnimed | App.tsx:81-96 | an Amhemed "ideal" plan ranks before a Unimed plan whatever the prices |
| Seqs.GroupInOrder | App.tsx:108-114 | the grouping loop builds exactly the groups of `GroupBy`, with their keys |
| Seqs.GroupByExactlyOnce | App.tsx:108-114 | every element lands in one group only, with all its copies |
| Seqs.GroupByFirstSeenOrder | App.tsx:114 | groups come in the order their keys first occur |
| Seqs.GroupByHomogeneous | App.tsx:108-113 | every group is non-empty and holds only elements of its key |
| Seqs.GroupByPermutation | App.tsx:108-114 | the groups laid end to end are a permutation of the input |
| Seqs.SortByKeyStable | App.tsx:77-104 | the sort keeps the relative order of elements with equal keys |
| Seqs.Dedup | components/ComparisonModal.tsx:28-30 | `Array.from(new Set(...))` keeps every element once |
| Seqs.DedupFirstOccurrenceOrder | components/ComparisonModal.tsx:28-30 | de-duplication keeps first-occurrence order |
| Seqs.Find | components/PlanCard.tsx:24-25 | `find` returns the first element satisfying the test, and nothing exactly when none does |
| Grouping.VariantGroupsStayRanked | App.tsx:108-114 | each variant group keeps the rank order |
| Grouping.VariantGroupIsOneProduct | App.tsx:110 | all variants in a group share operator, name and room type |
| Grouping.StringKeyCollides | App.tsx:110 | the '\|'-joined key gives two different products the same key |
| Grouping.OperatorGroups | App.tsx:119-131 | one operator group per operator, in first-seen order, holding that operator's variant groups |
| Grouping.GroupByOperator | App.tsx:119-131 | the operator grouping loop computes `OperatorGroups` |
| Grouping.OperatorGroupsExactlyOnce | App.tsx:119-131 | every variant group lands in exactly one operator group, that of its operator |
| Grouping.OperatorsAreDistinct | App.tsx:119-131 | no operator heads two groups |
| Grouping.OperatorGroupHasVariants | App.tsx:760 | an operator group has at least one variant, so `allVariants[0]` exists |
| Grouping.MinPrice | App.tsx:761 | `minPrice` is at most every variant's total and equals one of them |
| Pipeline.Quote | App.tsx:53-104 | the ranked result is no longer than the catalogue and is ordered by (weight, total); `QuoteKeepsEveryEligiblePlan` gives its exact contents |
| Pipeline.RunCalculation | App.tsx:53-116 | the calculation effect computes `Quote` and groups it by variant key |
| Pipeline.PriceEach | App.tsx:67-76 | the `map` over the eligible plans prices each of them, in order |
| Pipeline.QuoteEmptyWithoutLives | App.tsx:61-65 | with no lives both the result and the groups are empty |
| Pipeline.QuoteKeepsEveryEligiblePlan | App.tsx:67-77 | with some lives, the result is a permutation of the priced eligible plans, so none is dropped for a missing price |
| Pipeline.QuotedPlansAreEligible | App.tsx:55-76 | every quoted plan is eligible and is priced over the active brackets, at the cost of the whole selection |
| Pipeline.EligiblePlansAreQuoted | App.tsx:55-77 | with some lives every eligible plan appears priced in the result |
| Flow.CanContinue | App.tsx:295-299 | continuing needs a life, exactly one for PME_1 and at least two for PME_2 |
| Flow.ContinueDisabled | App.tsx:584-590 | the button's `disabled` expression holds exactly when the handler's guard refuses |
| Flow.ButtonMatchesGuard | App.tsx:584-590 | the continue button is disabled exactly when the handler would refuse |
| Flow.ContinueRules | App.tsx:295-300 | continuing needs a life; exactly one for PME_1, at least two for PME_2; a business quote needs a life outside "0-18" |
| Flow.CategoryTitle | App.tsx:305-313 | the title is empty exactly when no category is chosen |
| Flow.CategoryTitlesDistinct | App.tsx:305-313 | each category has its own non-empty title, and no category has the empty one |
| Flow.Decremented | App.tsx:287 | `Math.max(0, n - 1)`: one less when positive, zero at zero |
| Flow.QuoteFlow.constructor | App.tsx:24-38 | the initial state: first screen, no category, every bracket at zero, nothing calculated |
| Flow.QuoteFlow.SelectCategory | App.tsx:240-248 | sets the category, resets every bracket, clears alert and comparison, goes to the age screen |
| Flow.QuoteFlow.GoBack | App.tsx:250-264 | results→age; age→start dropping the category for PF, else → business size; business size→start |
| Flow.QuoteFlow.GoHome | App.tsx:405-408 | the logo goes back to the start with no category |
| Flow.QuoteFlow.ChooseBusiness | App.tsx:466-468 | the business choice goes to the business-size screen |
| Flow.QuoteFlow.SwitchTo | App.tsx:266-279 | the switch handlers change only the category and clear the alert |
| Flow.QuoteFlow.Increment | App.tsx:281-284 | one more life in the bracket; every other bracket unchanged; total up by one |
| Flow.QuoteFlow.Decrement | App.tsx:286-289 | one life less, never below zero; every other bracket unchanged |
| Flow.QuoteFlow.ComparePlans | App.tsx:291-293 | opens the comparison with the given plans |
| Flow.QuoteFlow.CloseComparison | App.tsx:829 | closes the comparison |
| Flow.QuoteFlow.ContinueToResults | App.tsx:295-303 | goes to the results exactly when the guard allows; entering the results (the effect at App.tsx lines 134-139) collapses every operator |
| Flow.QuoteFlow.ToggleOperator | App.tsx:141-146 | flips one operator's header, a missing one reading as collapsed; no other header changes |
| Flow.QuoteFlow.Recalculate | App.tsx:53-116 | the effect stores `Quote` of the current category and selection and its variant groups |
| PlanCard.SlotsAreFirstOfKind | components/PlanCard.tsx:24-25 | each slot holds the first variant of its kind and is empty only when the group has none of that kind |
| PlanCard.KindsPartition | components/PlanCard.tsx:24-25 | every variant is of exactly one of the two kinds |
| PlanCard.CompareSelection | components/PlanCard.tsx:165-170 | compare is offered iff both slots are filled, and passes [full, no-copart] |
| PlanCard.ComparedPairDiffers | components/PlanCard.tsx:165-170 | the compared pair is two different variants of the group, full first |
| PlanCard.CardOf | components/PlanCard.tsx:18-25 | an empty group renders nothing; the base plan comes from the first variant; the placeholder shows exactly when there is no no-copart variant |
| PlanCard.CopartLabel | components/PlanCard.tsx:30-45 | "Com Coparticipação" exactly for full and "Sem Coparticipação" exactly for no coparticipation |
| PlanCard.LabelsAreDistinct | components/PlanCard.tsx:30-45 | the three labels tell the three types apart, and the variant header agrees with them |
| PlanCard.FeeTablesOfSlots | components/PlanCard.tsx:455 | the per-variant rule `ShowsFeeTable` (every variant but a no-coparticipation one), applied to the two slots: the full slot always has a fee table; the no-copart slot has one exactly when its variant is partial |
| PriceSummary.PlanStyles | components/PriceSummaryTable.tsx:18-51 | the styles are always one of the twelve palette entries, and a "blue-900" class always gets the dark-blue ones |
| PriceSummary.PlanStylesIsFirstMatch | components/PriceSummaryTable.tsx:18-51 | `getPlanStyles` picks the styles of the first colour of a fixed list the class contains, gray when none |
| PriceSummary.FirstMatchStylesIsEarliest | components/PriceSummaryTable.tsx:26-48 | the earliest matching colour wins over later ones |
| PriceSummary.FirstMatchStylesNone | components/PriceSummaryTable.tsx:19-24 | with no matching colour the styles are gray |
| PriceSummary.Rows | components/PriceSummaryTable.tsx:78-82 | one row per group, in group order |
| PriceSummary.RowMatchesCard | components/PriceSummaryTable.tsx:79-105 | a row shows the first variant's operator and name, and each cell shows "Indisponível" exactly when the card's slot is empty and otherwise that slot's total |
| PriceSummary.SummaryTable.SelectRow | components/PriceSummaryTable.tsx:133-137 | clicking a row selects exactly that group, and the details show its first plan and all its variants |
| PriceSummary.SummaryTable.CloseDetails | components/PriceSummaryTable.tsx:136 | closing clears the selection |
| Comparison.AllServices | components/ComparisonModal.tsx:28-30 | the service list has no duplicates |
| Comparison.AllServicesComplete | components/ComparisonModal.tsx:28-30 | a service is listed iff some compared plan has a fee for it, and no service twice |
| Comparison.AllServicesOrder | components/ComparisonModal.tsx:28-30 | services come in order of first appearance across the plans |
| Comparison.FeeCell | components/ComparisonModal.tsx:236-239 | a cell shows the first matching fee's value, "-" when the plan has none |
| Comparison.FeeRows | components/ComparisonModal.tsx:230-244 | one row per listed service, one cell per plan in input order |
| Comparison.Columns | components/ComparisonModal.tsx:185-222 | one column per compared plan, in input order, with its total and per-bracket unit prices |
| Comparison.LabelsTellTypesApart | components/ComparisonModal.tsx:18-25 | `getCopartLabel` gives the three types three different labels |
| Comparison.ShortLabelsTellTypesApart | components/ComparisonModal.tsx:276-277 | the mobile short labels tell the three types apart and say "Com Copart." exactly for full |
| PlanDetails.ContentOf | components/PlanDetailsModal.tsx:19-25 | an empty group renders nothing; a group gives its first plan and all variants; a single plan gives no variants |
| PlanDetails.GraceContent | components/PlanDetailsModal.tsx:59-75 | the Amhemed table exactly for Amhemed, at the current tab; the Fênix table exactly for Fênix Medical, reduced exactly on 'reduced'; otherwise the plan's own list |
| PlanDetails.GraceContentCases | components/PlanDetailsModal.tsx:59-75 | other operators show the plan's own list; Fênix shows the reduced table exactly on 'reduced' |
| PlanDetails.GraceTabs.constructor | components/PlanDetailsModal.tsx:28-30 | the initial tab is 'standard' for Fênix Medical and 'normal' otherwise |
| PlanDetails.GraceTabs.Select | components/PlanDetailsModal.tsx:39-56 | a tab button sets that tab and keeps the tab one the operator's data has |
| PlanDetails.GraceTabs.FenixButtonMatchesData | components/PlanDetailsModal.tsx:55-59 | the Fênix 'standard' button is lit exactly when the standard table is shown |
| Password.Sanitize | components/UpdatePasswordScreen.tsx:18 | the field holds only digits, at most six |
| Password.SanitizeIsFirstDigits | components/UpdatePasswordScreen.tsx:18 | the field holds the first six digits typed, in order, or all of them when fewer |
| Password.SanitizeFixedPoints | components/UpdatePasswordScreen.tsx:18 | the values the field can hold are exactly strings of at most six digits; sanitising is idempotent |
| Password.SixDigitsTyped | components/UpdatePasswordScreen.tsx:18-27 | a submit can go through iff six or more digits were typed |
| Password.UpdateErrorText | components/UpdatePasswordScreen.tsx:44 | the error shown is the service's message, or the default when it is empty |
| Password.UpdatePasswordForm.Change | components/UpdatePasswordScreen.tsx:16-20 | typing stores the sanitised value |
| Password.UpdatePasswordForm.Submit | components/UpdatePasswordScreen.tsx:22-48 | clears both texts; any length but six sets the error with no call; otherwise one call, then the success message and redirect, or the error |
| Login.IsCpf | components/LoginScreen.tsx:44-45 | a CPF identifier has at least eleven characters and never an '@' |
| Login.CpfDetection | components/LoginScreen.tsx:44-45 | an identifier with '@' is never a CPF; a plain eleven-digit string always is |
| Login.LoginErrorText | components/LoginScreen.tsx:71 | the credentials message is translated, any other passes through |
| Login.LoginScreen.SignIn | components/LoginScreen.tsx:27-78 | clears both texts; the admin code enters at once, with no lookup; a CPF is looked up as typed, and an unknown one gives "CPF não encontrado." before sign-in; otherwise one sign-in with the resolved e-mail |
| Login.LoginScreen.ForgotPassword | components/LoginScreen.tsx:80-101 | one recovery request; success message or the service's error |
| Login.LoginScreen.OpenReset | components/LoginScreen.tsx:179 | opens the reset form |
| Login.LoginScreen.CloseReset | components/LoginScreen.tsx:107 | leaves the reset form and clears both texts |
| Admin.WithStatus | components/AdminPanel.tsx:47 | the list keeps its length, order and every field except the status, which changes only for the matching id |
| Admin.WithStatusTouchesTargetOnly | components/AdminPanel.tsx:47 | only users with the matching id change; a list without it is unchanged |
| Admin.WithStatusRepeat | components/AdminPanel.tsx:47 | repeating an update changes nothing more; a later update of the same user overrides an earlier one |
| Admin.ActionsOffered | components/AdminPanel.tsx:141-152 | approve shows unless approved, reject unless rejected; a row always offers one, a pending row both, and an offered action changes the status |
| Admin.StatusLabel | components/AdminPanel.tsx:134-136 | "Aprovado" exactly for approved and "Recusado" exactly for rejected users |
| Admin.StatusLabelsDistinct | components/AdminPanel.tsx:134-136 | the three statuses get three different badges |
| Admin.FormatPlan | components/AdminPanel.tsx:57-61 | "-" exactly when the user has no plan |
| Admin.PlanLabelsDistinct | components/AdminPanel.tsx:57-61 | monthly, quarterly and no plan get three different texts |
| Admin.AdminPanel.Fetch | components/AdminPanel.tsx:14-33 | a successful fetch replaces the list, a failed one keeps it |
| Admin.AdminPanel.UpdateUserStatus | components/AdminPanel.tsx:39-51 | on success only the matching user takes the new status; on failure the list is unchanged and the alert is shown |
| Register.Normalize | components/RegisterScreen.tsx:33-36 | only name and e-mail are changed (upper-cased); length is kept |
| Register.NormalizeIdempotent | components/RegisterScreen.tsx:33-36 | typing a normalised value again leaves it unchanged |
| Register.ChangeField | components/RegisterScreen.tsx:30-39 | the changed field takes the normalised value, every other field keeps its value |
| Register.FormByFields | components/RegisterScreen.tsx:13-19 | a form is determined by its five fields |
| Register.RegisterErrorText | components/RegisterScreen.tsx:102-106 | a 'unique constraint' error gives the duplicate message, another non-empty message is shown as is, an empty one gives the default |
| Register.RegisterScreen.ChoosePlan | components/RegisterScreen.tsx:129-148 | a plan button selects that plan |
| Register.RegisterScreen.Change | components/RegisterScreen.tsx:30-39 | typing applies `ChangeField` and nothing else |
| Register.RegisterScreen.Submit | components/RegisterScreen.tsx:41-112 | no plan: error, no call; then a password under six: error, no call; otherwise one sign-up; a created user gets one pending profile with the chosen plan and the success path whatever the insert answers |
| Text.ContainsAt | App.tsx:58 | `includes` holds exactly when the text occurs at some position |
| Text.Digits | components/LoginScreen.tsx:44 | `replace(/\D/g, '')` keeps exactly the digits |
| Seqs.FilterSorted | App.tsx:108-114 | filtering a ranked list keeps it ranked |

## Left out

- Network and storage: Supabase sign-in, sign-up, lookups, inserts and
  updates; `onAuthStateChange`; session and profile fetching (App.tsx:152-236).
  Each call's answer is a parameter of the method that makes it.
  - The `isMounted` guards are taken as always true (the screen is still
    mounted).
  - The React scheduling of effects and memos is not modelled:
    `Flow.QuoteFlow.Recalculate` is the effect run once.
- The AI advisor and its prompt building (an external LLM service).
- The PDF export of the comparison: DOM capture and jsPDF.
- Presentation: JSX, Tailwind classes (apart from the style strings that
  `getPlanStyles` returns), colour themes, `AgeSelector`, `window.scrollTo`,
  `setTimeout`, `alert` and `console`.
  - The redirect timer is recorded as a flag.
  - Alerts are recorded as a list.
- Currency and date formatting (`Intl.NumberFormat`, `toLocaleString`).
- Prices: JavaScript numbers are modelled as exact integers, so float
  rounding is not modelled.
- Unknown bracket keys: a selection key outside `AGE_RANGES` would make
  `prev[range] + 1` NaN. `Flow.QuoteFlow.Increment` and `Decrement` and the
  class invariant keep to the offered brackets.
- Case mapping covers ASCII and the single-character Latin-1 mappings only,
  not full Unicode `toLowerCase`/`toUpperCase`.
- The catalogue, `AGE_RANGES` and the grace-period tables come from a
  constants file that is not part of this model.
  - The catalogue is a parameter.
  - `AGE_RANGES` is the `ranges` field of `Flow.QuoteFlow`.
  - The grace data is referred to by which table and row is shown, not by
    its contents.
- The variant key is modelled as a tuple. The source's '|'-joined string is
  modelled as `Grouping.StringKey`, for the finding below.
- Unreachable defaults: the 'Padrão' default of the two coparticipation
  labels has no value left to match, so it is not modelled. (The '' default
  of the category title is reached with no category, and is modelled by
  `Flow.CategoryTitle`.)
- Removal from the comparison: `onRemove` is passed a no-op (App.tsx:830).
- The coparticipation explanation popups only toggle visibility, and are
  left out.
- Admin.FormatPlan: the plan is one of the two billing plans or absent. A
  stored plan string that is neither would also show '-'.
- Admin.AdminPanel.Fetch: the ordering by creation date is done by the
  query, and the fetched list is taken as already in that order.
- Flow.QuoteFlow.Increment: requires a bracket from `AGE_RANGES`, for the
  NaN reason above.
- Flow.QuoteFlow.Decrement: requires a bracket from `AGE_RANGES`, for the
  NaN reason above.

## Findings

| source | as written | input that shows it | evidently intended | confidence | as-written member | corrected member |
|---|---|---|---|---|---|---|
| App.tsx:110 | variants are grouped under the string `${operator}\|${name}\|${type}` | operator "A\|B" with product "C", and operator "A" with product "B\|C", same room type | group the variants of one product, that is one (operator, name, type) | low (needs a '\|' in a name); not executed | Grouping.StringKeyCollides | Grouping.VariantGroupIsOneProduct |
