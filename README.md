# Pasandaz-Bashi: a verified model of the working-time engine

Pasandaz-Bashi ("be a saver") is a Persian web app. It answers one question: how much
working time does a price cost? The user records their incomes: hourly, daily, weekly,
monthly, per project, or per custom unit. From these the app derives an average hourly
rate and a working schedule (days per week, hours per day). It then shows the price as
working years, months, weeks, days and hours, and lets the user "spend" or "save" it.

Savings are grouped by month in a report. When the user is signed in, savings are also
sent to a server. Savings that fail to send wait in a pending queue that is kept in the
browser's storage.

This project models the client-side engine and the small pieces around it, and proves
properties of them. The pieces are:
- the time utilities;
- the income forms;
- the store and its replication queue;
- the home and report pages;
- the sign-up page and endpoint;
- the referer gate that protects the font.

| module | file | models |
|---|---|---|
| `Wrappers` | wrappers.dfy | `Option` |
| `Strings` | strings.dfy | decimal text, `startsWith`, `indexOf`, first-occurrence `replace`, `join`, ASCII lower-casing |
| `Types` | types.dfy | the six-variant `Income` union, `Saving`, `User`, and what `hours` means per variant |
| `Time` | time.dfy | utils/time.ts |
| `IncomeForm` | income_form.dfy | what the settings, onboarding and home pages share: `formatNumberInput`, reading a form number back, `isFormValid`, and building an income with its defaults |
| `Sync` | sync.dfy | the pending queue of lib/sync-service.ts |
| `Store` | store.dfy | store/appStore.ts: the actions on the state record and the three derived values |
| `Settings` | settings.dfy | components/app/SettingsPage.tsx |
| `Onboarding` | onboarding.dfy | components/app/OnboardingPage.tsx |
| `Home` | home.dfy | components/app/HomePage.tsx |
| `Reports` | reports.dfy | components/app/ReportsPage.tsx |
| `SignupPage` | signup_page.dfy | components/app/SignupPage.tsx |
| `SignupRoute` | signup_route.dfy | app/api/auth/signup/route.ts |
| `Middleware` | middleware.dfy | middleware.ts |
| `FontRoute` | font_route.dfy | app/api/font/route.ts |

## How the model is built

Objects whose state changes are classes with methods.
- The store is `Store.AppStore`. Its field `state` is a record, and every action
  replaces it with an updated copy, as the store library's `set` does.
- The pending queue is `Sync.PendingSync`, whose stored entry is absent or holds a list
  of savings.
- The settings, onboarding, home and sign-up pages are classes whose fields are the
  component's state.

Code that updates variables step by step stays a method: `gregorianToJalali` is a
method without a loop. Loops stay loops, proved against specification functions:
- `getMonthsForSelection`;
- the average rate;
- the two schedule scans;
- `monthlySummary` and `allTimeStats`.

Everything else is a function.

JavaScript numbers are exact reals, or naturals where only whole numbers reach them.
- `Math.floor(x)` is `x.Floor`.
- `Math.round(x)` is `(x + 0.5).Floor`.
- The truncating `%` is written out.

Form fields only ever hold digits and commas, because `formatNumberInput` produces them.
So `parseFloat(s.replace(/,/g, '')) || 0` is the value of the digits, and 0 for the
empty field.

Outside inputs are parameters:
- today's date;
- new ids and timestamps;
- whether the browser is online;
- the replies of the server and the database;
- the random nibbles of a UUID;
- the password hash and the signing function.

### Behaviour the model keeps as written

- **A week of zero working days.** `useWorkingDaysPerWeek` turns a monthly or project
  income's days into weekly days with `Math.round(days / 4.33)`. For 2 or fewer days this
  gives 0 (`Store.MonthlyDaysToWeekly`). The formatter then divides by zero. In
  JavaScript that yields Infinity and NaN, not an error. A duration shorter than one
  working day shows the same hours as with any positive week (`Time.ShortOfADayIgnoresWeek`).
  A duration of at least a day shows "Infinity سال کاری": the years are Infinity, and
  every remainder is NaN, so no second part appears (`Time.NoWorkDays`,
  `Home.NoWorkDaysDisplay`). `Home.InfiniteYearsExample` exhibits such a state.
- **Month keys.** The home page records a saving under a month label such as
  "اسفند ۱۴۰۲" (components/app/HomePage.tsx:59). The report looks up "YYYY-MM" values
  (components/app/ReportsPage.tsx:61) and parses its keys as such values
  (components/app/ReportsPage.tsx:217). Three results follow:
  - the selected month's totals are always zero (`Reports.SelectedMonthNeverMatches`);
  - every breakdown row reads "undefined NaN" (`Reports.BreakdownOfLabels`);
  - a label is never a value (`Time.LabelIsNeverValue`).
- **The working-year example.** 8 hours × 6 days × 4.33 weeks × 12 months of work
  shows as "11 months 3 weeks", not "1 year", because every stage of the cascade rounds
  down (`Time.WorkingYearExample`).
- **Never a year of 4.33-week months.** `Math.round` of the weeks left over is at most 4,
  and the months left over are at most 11 (`Time.WorkingUnitsBounds`).
- **Textual copies.** `formatNumberInput` is written three times (settings, onboarding,
  home). `isFormValid` and the income-building `switch` are written twice (settings and
  onboarding). The www-variant origin is written twice (middleware and font route). Each
  is one definition here: `IncomeForm.FormatNumberInput`, `IncomeForm.IsFormValid`,
  `IncomeForm.NewIncome` and `Middleware.WwwVariant`.
- **Custom edits keep the old title.** The edit path never takes the form's title
  (components/app/SettingsPage.tsx:235), and `Settings.EditedIncome` keeps it too.

## Model

| member | source | states |
|---|---|---|
| Types.WithAmountAndHours | components/app/SettingsPage.tsx:187-236 | spreading an income and overriding amount and hours keeps its id and variant, sets exactly those two, and keeps every other field: the schedule of a weekly, monthly or project income and a custom income's title |
| Strings.NatToString | utils/time.ts:11 | `String(n)` is non-empty ASCII digits, has no leading zero, and is one digit exactly when n < 10 |
| Strings.NatToStringValue | utils/time.ts:11 | reading `String(n)` back as digits gives n |
| Strings.DecimalString | utils/time.ts:305 | a negative number prints as `-` followed by its magnitude |
| Strings.IndexOf | middleware.ts:7-9 | the first occurrence: the pattern occurs there and at no earlier position, or it occurs nowhere |
| Strings.ReplaceFirst | middleware.ts:7-9 | a string-pattern `replace` leaves a string without the pattern unchanged, and otherwise changes the length by the difference of the pattern's and the replacement's lengths |
| Strings.ReplaceFirstParts | middleware.ts:7-9 | with i the first occurrence (none before it), the text before i is kept, the replacement stands at i, and what followed the occurrence follows it |
| Strings.ToLowerAscii | app/api/auth/signup/route.ts:54 | lower-casing keeps the length and maps exactly the capitals A-Z to a-z |
| Strings.LeadingDigits | utils/time.ts:321-322 | the prefix `parseInt` reads is digits, and the next character, if any, is not a digit |
| Time.ToPersianDigits | utils/time.ts:10-12 | keeps the length and replaces each ASCII digit by its Persian digit, leaving every other character |
| Time.ToEnglishDigits | utils/time.ts:15-21 | keeps the length and replaces each Persian digit by its ASCII digit, leaving every other character |
| Time.DigitsRoundTrip | utils/time.ts:10-21 | `toEnglishDigits(toPersianDigits(s)) == s` when s has no Persian digit |
| Time.DigitsRoundTripPersian | utils/time.ts:10-21 | `toPersianDigits(toEnglishDigits(s)) == s` when s has no ASCII digit |
| Time.PersianNumberDigits | utils/time.ts:56 | a year printed by `toPersianDigits` is made of Persian digits only |
| Time.Round | utils/time.ts:95-102 | `Math.round(x)` is the integer within half a unit of x, with halves rounding up |
| Time.JsRem | utils/time.ts:42-48 | JavaScript `%` differs from a by a multiple of b, lies in [0, b) for a ≥ 0 and in (-b, 0] for a < 0 |
| Time.JsFrac | utils/time.ts:91-92 | `x % 1` differs from x by a whole number, lies in [0, 1) for x ≥ 0 and in (-1, 0] below |
| Time.GregorianToJalali | utils/time.ts:34-50 | for a Gregorian year after 1600: Jalali month in 1..12, day in 1..31 and at most 30 from month 7, day of year in 0..365, year ≥ 978 |
| Time.CurrentPersianMonth | utils/time.ts:53-57 | the text is the label of some Jalali month, for a year ≥ 978 |
| Time.CalendarUnitsExact | utils/time.ts:72-92 | the calendar cascade (100 × 365.25-day centuries, 365.25-day years, 30-day months, 7-day weeks, days) adds back up to the hours exactly, with years ≤ 99, months ≤ 12, weeks ≤ 4, days ≤ 6, hours < 24, and minutes and seconds < 60 |
| Time.HoursToAllUnitsBounds | utils/time.ts:72-104 | after rounding: years ≤ 99, months ≤ 12, weeks ≤ 4, days ≤ 6, hours ≤ 24, minutes and seconds ≤ 60, nothing negative |
| Time.FormatHoursToPersianZero | utils/time.ts:107-110 | a duration ≤ 0 shows "۰ ثانیه" |
| Time.CalendarTierSelection | utils/time.ts:116-153 | at most two parts; none exactly when every unit is zero; the first is the coarsest positive unit; a second appears exactly when the next finer unit is positive, and it is that unit |
| Time.SelectSound | utils/time.ts:234-242 | every part of the detailed breakdown is a listed unit, with a positive value and its own value |
| Time.SelectOrdered | utils/time.ts:234-242 | the parts come in the order of the unit list, coarsest first |
| Time.SelectComplete | utils/time.ts:234-242 | every listed unit with a positive value gets a part |
| Time.DetailedUnitsShape | utils/time.ts:234-241 | the detailed breakdown lists the units from centuries down to minutes, coarsest first |
| Time.DetailedPartsShape | utils/time.ts:230-245 | the parts are the positive units from centuries to hours in order, plus minutes exactly when minutes > 0 and there are no days or years; never seconds |
| Time.WorkingUnitsBounds | utils/time.ts:175-189 | the working cascade recombines exactly: 0 ≤ remaining hours < hours per day, 0 ≤ remaining days < days per week, remaining weeks in 0..4, remaining months in 0..11, and years > 0 exactly when months ≥ 12 |
| Time.DaysStage | utils/time.ts:175-177 | the hours left after whole working days lie in [0, hours per day) |
| Time.WeeksStage | utils/time.ts:180-181 | the weeks are the integer quotient of the days, and the days left lie in [0, days per week) |
| Time.MonthsStage | utils/time.ts:184-185 | the weeks left after 4.33-week months round to 0..4 |
| Time.YearsStage | utils/time.ts:188-189 | the years are months / 12, the months left are months % 12, and years > 0 exactly when months ≥ 12 |
| Time.FormatHoursToPersianWorking | utils/time.ts:166-227 | a duration ≤ 0 gives ("۰ ثانیه", 0); the reported total is `Math.round(totalHours)` when positive and 0 otherwise |
| Time.WorkingTierSelection | utils/time.ts:192-213 | one or two parts; the first is the coarsest working unit present, every coarser one is absent, and its value is that unit's count in the cascade; a second part appears exactly when the first is not hours and the next finer remainder is present, and then it is that unit with the remainder's value; after days the hours part is guarded by the unrounded remainder, so it may show 0 |
| Time.WorkingSuffixExactly | utils/time.ts:207-226 | the text is never empty, it ends with " کاری" exactly when `Math.round(totalHours) > 0`, and the total is positive exactly then |
| Time.RenderedPartsLastChar | utils/time.ts:219-226 | joined parts never end in the suffix's last letter, so the suffix test above is exact |
| Time.ShortOfADayIgnoresWeek | utils/time.ts:175-213 | a duration shorter than one working day formats the same with 0 working days a week as with any positive number |
| Time.NoWorkDaysUnbounded | utils/time.ts:178-226 | with 0 working days a week and at least one working day of hours, the text is "Infinity سال", followed by " کاری" when the rounded total is positive |
| Time.NoWorkDays | utils/time.ts:166-227 | with 0 working days a week: at least a working day of hours shows ("Infinity سال کاری", the rounded total); less shows what any positive week shows |
| Time.InfinityHasNoDigits | utils/time.ts:10-12 | `toPersianDigits` leaves the text "Infinity" as it is |
| Time.WorkingYearExample | utils/time.ts:166-227 | 8 × 6 × 4.33 × 12 hours at 8 hours a day and 6 days a week shows as "۱۱ ماه و ۳ هفته کاری" |
| Time.CalculateHoursNeeded | utils/time.ts:248-251 | 0 for a rate ≤ 0; otherwise the hours times the rate is the amount |
| Time.IsValidEmailMatchesPattern | utils/time.ts:259-262 | the check holds exactly when the text is local part, `@`, domain, `.`, suffix: each part non-empty, with no whitespace and no `@` |
| Time.ValidEmailMatches | utils/time.ts:259-262 | an accepted address has that shape |
| Time.MatchValid | utils/time.ts:259-262 | a text of that shape is accepted |
| Time.MonthMonthsAgo | utils/time.ts:293-299 | the month i months back is always in 1..12 |
| Time.GetMonthsForSelection | utils/time.ts:282-314 | exactly 12 entries; entry i is the value and the label of the month i months before the current one |
| Time.MonthsAgoWraps | utils/time.ts:293-299 | the month wraps by 12 and the year drops by one exactly when the current month minus i falls below 1 |
| Time.MonthsAgoStep | utils/time.ts:292-311 | each entry is one month earlier than the previous: month 1 is followed by month 12 of the year before, any other month by the month before it |
| Time.MonthsAgoZero | utils/time.ts:292-311 | the first entry is the current month |
| Time.MonthValueShape | utils/time.ts:302-305 | a value is the year, `-`, and two digits that read back as the month |
| Time.FormatMonthValueRoundTrip | utils/time.ts:316-328 | formatting an entry's value gives exactly its label |
| Time.FormatMonthValueEmpty | utils/time.ts:317 | formatting the empty value gives the empty text |
| Time.TrimStart | utils/time.ts:321-322 | `parseInt` skips a prefix made only of whitespace and stops at the first other character |
| Time.ParseIntDigits | utils/time.ts:321-322 | `parseInt` of a non-empty run of digits is its value |
| Time.NoDashInDigits | utils/time.ts:320 | a run of digits holds no `-`, so splitting a value cuts at the year's end |
| Time.LabelIsNeverValue | utils/time.ts:305-308 | no month label equals any month value |
| Time.LabelHasNoDash | utils/time.ts:308 | a month label has no `-` |
| Time.MonthNamesArePersian | utils/time.ts:2-5 | every month name is written in Arabic script |
| IncomeForm.KeepDigits | components/app/SettingsPage.tsx:84 | `replace(/[^0-9]/g, '')` leaves only ASCII digits and never lengthens the text |
| IncomeForm.RemoveCommas | components/app/SettingsPage.tsx:162 | `replace(/,/g, '')` leaves no comma and never lengthens the text |
| IncomeForm.Group | components/app/SettingsPage.tsx:85 | grouping is empty only for no digits, holds only digits and commas, and puts a comma exactly every fourth place from the right, so never first |
| IncomeForm.GroupRemoveCommas | components/app/SettingsPage.tsx:85 | removing the commas of a grouping gives back its digits |
| IncomeForm.FormatNumberInputDigits | components/app/SettingsPage.tsx:83-86 | without its commas the formatted input is the typed text's ASCII digits in order, so dots and Persian digits are dropped |
| IncomeForm.FormatNumberInputIdempotent | components/app/SettingsPage.tsx:83-86 | formatting a formatted input changes nothing |
| IncomeForm.KeepDigitsIsRemoveCommas | components/app/SettingsPage.tsx:83-86 | on digits and commas, dropping non-digits and dropping commas agree |
| IncomeForm.RemoveCommasConcat | components/app/SettingsPage.tsx:162 | dropping commas distributes over concatenation |
| IncomeForm.KeepDigitsConcat | components/app/SettingsPage.tsx:84 | dropping non-digits distributes over concatenation |
| IncomeForm.FiltersKeepDigits | components/app/SettingsPage.tsx:83-86 | both filters leave a run of digits unchanged |
| IncomeForm.ParseFormattedInput | components/app/SettingsPage.tsx:162 | a formatted field reads back as the value of the digits typed |
| IncomeForm.ParseWrittenNumber | components/app/SettingsPage.tsx:107-150 | a prefill written with `toString` or `toLocaleString` reads back as the same number |
| IncomeForm.OrDefault | components/app/SettingsPage.tsx:197-234 | `x > 0 ? x : d` keeps a positive value and otherwise gives the default |
| IncomeForm.TextOr | components/app/SettingsPage.tsx:304 | `t \|\| d` keeps a non-empty text and otherwise gives the default |
| IncomeForm.NewIncome | components/app/SettingsPage.tsx:248-309 | the new income has the chosen variant, the given id and the amount read from the form |
| IncomeForm.NewIncomeConsistent | components/app/SettingsPage.tsx:248-309 | every new income has positive hours, and for weekly, monthly and project incomes the hours are the defaulted days times the defaulted hours per day |
| IncomeForm.ValidFormUsesEnteredValues | components/app/SettingsPage.tsx:385-418 | when the form is valid, no default is applied: the income holds exactly the entered amount, hours, days and hours per day |
| IncomeForm.CustomTitleDefault | components/app/SettingsPage.tsx:304 | a new custom income takes the typed title, or "واحد سفارشی" when none is typed |
| Sync.Succeeded | lib/sync-service.ts:107 | a reply counts as success exactly when it arrived and says so; a thrown request is a failure |
| Sync.PendingSync.constructor | lib/sync-service.ts:10-18 | a fresh browser holds no stored queue |
| Sync.PendingSync.PendingData | lib/sync-service.ts:10-18 | the queue reads as null exactly when no list is stored, and as the stored list otherwise |
| Sync.PendingSync.SavePendingSyncData | lib/sync-service.ts:21-28 | the stored entry becomes the given list |
| Sync.PendingSync.ClearPendingSyncData | lib/sync-service.ts:31-34 | the stored entry is removed and the queue is empty |
| Sync.PendingSync.AddPendingSaving | lib/sync-service.ts:37-41 | the saving is appended at the end and earlier entries keep their order |
| Sync.PendingSync.SyncPendingDataToDatabase | lib/sync-service.ts:86-116 | an empty queue reports success and sends nothing; otherwise the whole queue is sent; it is cleared only when the server reports success, and untouched on failure or a thrown request |
| Store.LoadedSavings | store/appStore.ts:135-139 | the database reply gives savings exactly when it succeeded with data |
| Store.UpdateById | store/appStore.ts:67-73 | same length and order; exactly the entries with the id become the update, and all others are unchanged |
| Store.UpdateByIdIdempotent | store/appStore.ts:67-73 | applying the same update twice is applying it once |
| Store.RemoveById | store/appStore.ts:75-79 | the result holds exactly the entries whose id differs |
| Store.RemoveByIdConcat | store/appStore.ts:75-79 | removal distributes over concatenation, so the survivors keep their relative order |
| Store.RemoveAbsentId | store/appStore.ts:75-79 | removing an id no entry has changes nothing |
| Store.RemoveAfterAdd | store/appStore.ts:61-79 | adding an income and then removing its id is the same as removing that id from the list before the add |
| Store.RemoveByIdIdempotent | store/appStore.ts:75-79 | removing twice is removing once |
| Store.AverageHourlyRate | store/appStore.ts:227-278 | the loop computes the unweighted mean of the per-income rates: hourly incomes always count with their amount, the others only when hours > 0; 0 when none counts |
| Store.RatesPermutation | store/appStore.ts:235-275 | any reordering of the incomes counts the same number of rates with the same total |
| Store.AverageRatePermutation | store/appStore.ts:227-278 | the mean does not depend on the order of the incomes: any permutation gives the same average |
| Store.RatesWithout | store/appStore.ts:235-275 | taking one income out of a list removes exactly its own rate from the count and the total |
| Store.MultisetWithout | store/appStore.ts:235-275 | removing the same income from two reorderings of a list leaves reorderings of each other |
| Store.RatesConcat | store/appStore.ts:235-275 | the rates of a joined list are the rates of its parts, joined |
| Store.RatesFromIncomes | store/appStore.ts:235-275 | every counted rate comes from some income |
| Store.AverageRateBounds | store/appStore.ts:227-278 | when every counted rate lies in [lo, hi], so does the mean; with nothing counted the mean is 0 |
| Store.AverageOfEqualRates | store/appStore.ts:227-278 | when every counted rate is r and at least one counts, the mean is r |
| Store.RateOfCounted | store/appStore.ts:235-275 | an income that counts makes the list of rates non-empty |
| Store.WorkingDaysPerWeek | store/appStore.ts:281-304 | the loop returns the first-match specification DaysPerWeekOf |
| Store.DaysFromFirstInformative | store/appStore.ts:281-304 | with no informative income the result is 6; otherwise it is the first informative income's weekly days, or its monthly or project days / 4.33 rounded |
| Store.MonthlyDaysToWeekly | store/appStore.ts:291-299 | the rounded weekly days are 0 exactly when the monthly days are at most 2 |
| Store.ZeroDaysPerWeek | store/appStore.ts:291-295 | one monthly income of 2 days a month gives a week of 0 working days |
| Store.HoursPerDayOf | store/appStore.ts:307-329 | the hours per day are always positive |
| Store.HoursFromSomeIncome | store/appStore.ts:307-329 | the hours per day are the fallback 8, or the hours of some income |
| Store.WorkingHoursPerDay | store/appStore.ts:307-329 | the loop returns the first-match specification HoursPerDayOf: a daily income's positive hours, or a weekly, monthly or project income's hours per day, custom incomes skipped, 8 otherwise |
| Store.AppStore.constructor | store/appStore.ts:43-56 | the store starts in the initial state |
| Store.AppStore.SetOnboarded | store/appStore.ts:58 | only the onboarded flag changes |
| Store.AppStore.AddIncome | store/appStore.ts:61-65 | the income is appended at the end and nothing else changes |
| Store.AppStore.UpdateIncome | store/appStore.ts:67-73 | the incomes become UpdateById of the old list and nothing else changes |
| Store.AppStore.RemoveIncome | store/appStore.ts:75-79 | the incomes become RemoveById of the old list and nothing else changes |
| Store.AppStore.AddSaving | store/appStore.ts:82-104 | the saving is always appended locally; a request is made exactly when signed in and online; it is queued exactly when signed in and either offline or the save failed; otherwise the queue is untouched |
| Store.AppStore.SetUser | store/appStore.ts:106 | the user is set, and the signed-in flag becomes whether there is a user |
| Store.AppStore.SetToken | store/appStore.ts:108 | only the token changes |
| Store.AppStore.SetAuthenticated | store/appStore.ts:110 | only the signed-in flag changes |
| Store.AppStore.SetLoading | store/appStore.ts:112 | only the loading flag changes |
| Store.AppStore.ClearAll | store/appStore.ts:114 | the state returns to the initial state |
| Store.AppStore.SetIncomes | store/appStore.ts:116 | only the incomes change |
| Store.AppStore.SetSavings | store/appStore.ts:118 | only the savings change |
| Store.AppStore.Logout | store/appStore.ts:120 | the initial state except that onboarding stays done: signed out, no incomes, no savings |
| Store.AppStore.LoadFromDatabase | store/appStore.ts:123-149 | signed out: false and nothing changes; otherwise only the savings may be replaced, exactly when the reply carries data, and loading ends off |
| Store.AppStore.SyncPendingData | store/appStore.ts:152-166 | signed out or offline: false and the queue untouched; otherwise the sync's success, with the queue cleared only on a successful send |
| Store.AppStore.InitialSync | store/appStore.ts:169-200 | signed out: false and nothing changes; offline: false and only loading ends off; online: the queue is synced, then the savings are replaced exactly when the load succeeds, and loading ends off |
| Settings.FindLabel | components/app/SettingsPage.tsx:349 | the table lookup finds a label exactly when the variant is listed |
| Settings.KindIndex | components/app/SettingsPage.tsx:47-54 | every variant has an entry in the table of kinds |
| Settings.FindLabelListed | components/app/SettingsPage.tsx:345-350 | the lookup returns the variant's own entry |
| Settings.LabelsDistinct | components/app/SettingsPage.tsx:47-54 | no two kinds share a label |
| Settings.IncomeLabelOfKind | components/app/SettingsPage.tsx:345-350 | a non-custom income shows its kind's label, and two such incomes show the same label exactly when they have the same kind; an untitled custom income shows "سفارشی" |
| Settings.FormatNumberReadsBack | utils/time.ts:24-26 | a number formatted with thousands separators and Persian digits reads back as itself |
| Settings.DescriptionFallbacks | components/app/SettingsPage.tsx:352-383 | missing days and hours per day describe as 6 or 26 days and 8 hours, an untitled custom income as "واحد"; a complete weekly income shows its own schedule |
| Settings.EditedIncome | components/app/SettingsPage.tsx:183-241 | an edit keeps the id and the variant, takes the form's amount, and keeps a custom income's title |
| Settings.EditedIncomeConsistent | components/app/SettingsPage.tsx:186-237 | an edited income keeps positive hours equal to its defaulted days times hours per day |
| Settings.PrefillParses | components/app/SettingsPage.tsx:102-159 | the edit dialog's prefilled fields read back as the income's own numbers |
| Settings.EditUnchangedRoundTrip | components/app/SettingsPage.tsx:102-241 | opening an income for editing and saving it unchanged passes validation and gives back the same income |
| Settings.SettingsPage.constructor | components/app/SettingsPage.tsx:67-80 | the dialog starts closed and empty, with no income being edited, the hourly kind selected, and nothing saving or deleting |
| Settings.SettingsPage.OpenAddDialog | components/app/SettingsPage.tsx:88-100 | selects the kind, clears the form and opens the dialog for a new income |
| Settings.SettingsPage.OpenEditDialog | components/app/SettingsPage.tsx:102-159 | opens the dialog on the income, with its kind selected and its prefilled form |
| Settings.SettingsPage.DialogOpenChange | components/app/SettingsPage.tsx:607-612 | ignored while saving; otherwise the dialog follows the request, and closing it forgets the income being edited |
| Settings.SettingsPage.Cancel | components/app/SettingsPage.tsx:801-804 | when not saving, closes the dialog and forgets the income being edited, keeping the form |
| Settings.SettingsPage.HandleSave | components/app/SettingsPage.tsx:161-322 | an amount of 0 changes nothing; otherwise an edit replaces the income by id with the edited one, a new income is appended, and the dialog closes with saving off |
| Settings.SettingsPage.HandleDelete | components/app/SettingsPage.tsx:324-335 | the incomes with the id are removed, and no delete is pending afterwards |
| Settings.SettingsPage.HandleLogout | components/app/SettingsPage.tsx:337-343 | the store is logged out |
| Onboarding.OnboardingPage.constructor | components/app/OnboardingPage.tsx:52-65 | starts on the kind-selection step, with no kind and an empty form |
| Onboarding.OnboardingPage.HandleTypeSelect | components/app/OnboardingPage.tsx:67-79 | selects the kind, moves to the form step and clears the form |
| Onboarding.OnboardingPage.Back | components/app/OnboardingPage.tsx:536 | returns to the selection step and keeps the kind and the form |
| Onboarding.OnboardingPage.HandleAddIncome | components/app/OnboardingPage.tsx:81-170 | with no kind or an amount of 0 nothing changes; otherwise exactly the income the settings page would create is appended, and the page returns to selection with no kind and an empty form |
| Onboarding.OnboardingPage.HandleFinish | components/app/OnboardingPage.tsx:172-175 | marks onboarding done and changes nothing else; it is offered only with at least one income, and that income stays |
| Onboarding.AddButtonEnabled | components/app/OnboardingPage.tsx:182-215 | a valid form has a positive amount and builds an income with consistent hours; with no kind chosen, validity is just a positive amount |
| Home.HoursNeeded | components/app/HomePage.tsx:27-35 | present exactly when the field is non-empty, the rate is positive and the amount is positive; then it is positive and equals amount / rate |
| Home.FormattedTime | components/app/HomePage.tsx:74-77 | a working time exactly when hoursNeeded is present; then its total is hoursNeeded rounded, and its text is non-empty and ends in " کاری" exactly when that total is positive |
| Home.NoWorkDaysDisplay | components/app/HomePage.tsx:74-77 | with a week of 0 working days, a price of at least a working day shows "Infinity سال کاری" and a smaller one shows what any positive week shows |
| Home.ExampleRate | store/appStore.ts:254-260 | a single monthly income of 1000 over 16 hours gives a rate of 1000 / 16 |
| Home.ThousandParses | components/app/HomePage.tsx:29 | the typed "1,000" reads as 1000 |
| Home.InfiniteYearsExample | components/app/HomePage.tsx:74-77 | with one income of 2 working days a month, typing "1,000" shows the actions and the working time "Infinity سال کاری" with a total of 16 hours |
| Home.HomePage.constructor | components/app/HomePage.tsx:24 | the amount field starts empty |
| Home.HomePage.TypeAmount | components/app/HomePage.tsx:104 | the field holds the formatted input, whose digits are those typed |
| Home.HomePage.HandleSpend | components/app/HomePage.tsx:42-48 | the field is cleared |
| Home.HomePage.HandleSave | components/app/HomePage.tsx:50-71 | a saving is made exactly when hoursNeeded is present; then it is appended with the typed amount, the unrounded hours, a month label, the given id and timestamp, queued under the store's rule (the queue is untouched when signed out or when the send succeeds), and the field is cleared; otherwise nothing changes |
| Reports.MonthKeys | components/app/ReportsPage.tsx:48-51 | the keys of the summary, in order of first appearance, have no repeats |
| Reports.MonthKeysMembers | components/app/ReportsPage.tsx:48-51 | the keys are exactly the month texts some saving carries |
| Reports.TotalsOfPresent | components/app/ReportsPage.tsx:48-54 | a month's count is positive exactly when it is a key |
| Reports.ZeroCountZeroTotals | components/app/ReportsPage.tsx:61-65 | a month with count 0 has all totals 0 |
| Reports.GroupsPartition | components/app/ReportsPage.tsx:45-80 | the groups partition the savings: their totals sum to the totals of all savings, and the counts sum to the number of savings |
| Reports.MonthlySummary | components/app/ReportsPage.tsx:45-58 | the loop builds a dictionary whose keys are the distinct months in order of first appearance, and whose entry for m sums the amounts and hours and counts the savings of month m |
| Reports.CurrentMonthDataIsTotals | components/app/ReportsPage.tsx:61-65 | the selected month's data are the totals of its savings, zeros when it has none |
| Reports.AllTimeStats | components/app/ReportsPage.tsx:68-80 | the loop's sums are the totals over all savings, and the count is their number |
| Reports.InitialSelectionIsCurrentMonth | components/app/ReportsPage.tsx:41-42 | with twelve months listed, `months[12]` is missing and the initial choice is the first entry |
| Reports.Breakdown | components/app/ReportsPage.tsx:208-217 | at most six rows, the first groups in dictionary order, each its formatted month and its totals |
| Reports.MonthLabelShaped | utils/time.ts:308 | a month label starts with a character of the Arabic block and has no `-` |
| Reports.SelectedMonthNeverMatches | components/app/ReportsPage.tsx:61 | for savings recorded under labels, a selected "YYYY-MM" month always shows zero totals |
| Reports.NoSavingOfMonth | components/app/ReportsPage.tsx:48-54 | a month no saving carries has zero totals |
| Reports.NoNumberAhead | utils/time.ts:321 | `parseInt` of a label finds no number |
| Reports.LabelRendersUndefined | utils/time.ts:316-328 | formatting a month label as a value gives "undefined NaN" |
| Reports.BreakdownOfLabels | components/app/ReportsPage.tsx:208-217 | every breakdown row of label-keyed savings shows "undefined NaN" |
| SignupPage.ClientError | components/app/SignupPage.tsx:27-61 | the checks run in order and report only the first failure: an empty field, a username under 3, a password under 6, a mismatched confirmation; none exactly when all pass |
| SignupPage.ClientAgreesWithServer | components/app/SignupPage.tsx:36-52 | the page reports the endpoint's validation message, then the mismatch; whatever the page accepts the endpoint's validation accepts |
| SignupPage.AfterSignup | components/app/SignupPage.tsx:86-91 | user, token and the signed-in flag are set; the incomes stay; the savings are replaced only when the initial sync loads them |
| SignupPage.SignupPage.constructor | components/app/SignupPage.tsx:20-23 | the fields start empty and not loading |
| SignupPage.SignupPage.HandleSignup | components/app/SignupPage.tsx:26-110 | a failed check is reported and changes nothing, loading included; otherwise the request is sent, a thrown request or a refusal leaves the store as it was, a success signs in and runs the initial sync, which empties the pending queue exactly when the token is non-empty, the browser is online, the queue is non-empty and the server accepts it, leaving it untouched otherwise; loading ends off |
| SignupRoute.ValidationError | app/api/auth/signup/route.ts:22-41 | no error exactly when both fields are present with lengths ≥ 3 and ≥ 6; a missing or empty field is reported before any length |
| SignupRoute.HexDigit | app/api/auth/signup/route.ts:13 | `v.toString(16)` of a nibble is a lower-case hex digit |
| SignupRoute.HexValue | app/api/auth/signup/route.ts:13 | a lower-case hex digit reads back as a nibble |
| SignupRoute.VariantNibble | app/api/auth/signup/route.ts:12 | `r & 0x3 \| 0x8` lies in 8..11 and keeps the low two bits of r |
| SignupRoute.FillTemplate | app/api/auth/signup/route.ts:10-14 | filling keeps the length and every other character; each `x` becomes a hex digit and each `y` one of 8, 9, a, b |
| SignupRoute.TemplateShape | app/api/auth/signup/route.ts:10 | the template has 36 characters and 31 of them take a nibble |
| SignupRoute.SlotsOfShape | app/api/auth/signup/route.ts:10 | any text shaped like the template has 31 slots |
| SignupRoute.FilledShape | app/api/auth/signup/route.ts:10-14 | filling a template of that shape gives a version-4 UUID |
| SignupRoute.GenerateUuid | app/api/auth/signup/route.ts:9-15 | the id has length 36, `-` at 8, 13, 18 and 23, `4` at 14, one of 8, 9, a, b at 19, and lower-case hex everywhere else |
| SignupRoute.Unfill | app/api/auth/signup/route.ts:10-14 | reading the slots of a filled template gives one nibble per slot |
| SignupRoute.FillUnfill | app/api/auth/signup/route.ts:10-14 | every text that fits a template is the filling of the nibbles it shows |
| SignupRoute.UuidFits | app/api/auth/signup/route.ts:10-14 | every version-4 UUID fits the template's shape |
| SignupRoute.UuidOutputsExactly | app/api/auth/signup/route.ts:9-15 | every version-4 UUID of this shape is generated from some nibbles |
| SignupRoute.Post | app/api/auth/signup/route.ts:17-109 | a body that is not JSON gives 500; a validation failure gives 400 before any lookup; a lower-cased name already taken gives 400 with no insert; otherwise the row with a new UUID, the lower-cased name and the hash is inserted, and the insert's reply decides between 500 and the created user with its token; 200 exactly when a row went in and the insert succeeded |
| SignupRoute.LowerCasing | app/api/auth/signup/route.ts:54 | lower-casing leaves no capital and is idempotent |
| SignupRoute.InsertedRowIsNormal | app/api/auth/signup/route.ts:64-79 | an inserted row has a version-4 UUID, the given hash, and a lower-case name of length ≥ 3 not already taken |
| SignupRoute.CaseInsensitiveDuplicate | app/api/auth/signup/route.ts:50-62 | after a user is inserted, a later valid sign-up with the same name in any case is refused as a duplicate and inserts nothing |
| Middleware.WwwVariant | middleware.ts:7-9 | an origin with `www.` loses its first `www.` and nothing else; one without it but with `https://` gets `www.` right after its first `https://`; any other origin is unchanged |
| Middleware.Gate | middleware.ts:4-21 | paths outside `/api/font` always pass; a font request is refused exactly when the referer starts with neither the site origin nor its www variant |
| Middleware.UnsetSiteAcceptsAll | middleware.ts:5-15 | with no site URL both origins are empty and every request passes |
| Middleware.NoWwwAfter | middleware.ts:7 | a prefix without `w` cannot hide a `www.`, so its first occurrence is in the rest |
| Middleware.WwwToggle | middleware.ts:7-9 | for a host without `www.`, the variant of `https://host` is `https://www.host`, and the variant of that is `https://host` again |
| Middleware.SitePagesPass | middleware.ts:13-20 | a font request from any page of the site, with or without `www.`, passes |
| FontRoute.Get | app/api/font/route.ts:5-45 | 403 exactly when the user-agent lacks "Mozilla" or the referer is from neither origin; otherwise woff2 with `font/woff2` exactly when the accept header contains `font/woff2`, else woff with `font/woff`, always with the one-year cache header |
| FontRoute.CacheForOneYear | app/api/font/route.ts:42 | the cache lifetime is 365 × 24 × 60 × 60 seconds |
| FontRoute.RouteWithinMiddleware | app/api/font/route.ts:10-22 | whatever the route serves the middleware lets through, and every font request the middleware refuses the route refuses too |

## Left out

- Rendering, dialogs, toasts and navigation are not modelled: they do not change the data.
- Floating point: numbers are exact reals. The IEEE-754 error in `4.33`, `365.25`, `x % 1` and `amount / hours` is not reproduced.
- `parseFloat` on text with a sign, a decimal point or an exponent is not modelled: form fields only hold digits and commas. `parsePersianNumber` (utils/time.ts:265-268) is not modelled for the same reason.
- `toLocaleString` and `formatNumber`/`formatCurrency` are modelled for whole numbers only (en-US grouping). `formatCurrency` rounds an amount that is already whole.
- Settings.SettingsPage.HandleSave: `updateIncome` merges a partial income into the stored one. The model replaces the stored entry with the edited income, which has the same fields.
- Store.AppStore.UpdateIncome: the partial merge is modelled as a whole replacement, for the same reason.
- `generateId`, `debounce` and `Math.random` are not modelled: ids, timestamps and the UUID's nibbles are parameters.
- `new Date()` is not modelled: today's Gregorian date is a parameter.
- Time.GregorianToJalali: only the ranges of the result are stated, not agreement with the Jalali calendar. The model has no independent calendar to compare with.
- Time.CurrentPersianMonth: states that the text is some month label, not which one, because the conversion is a method whose result no function names.
- Home.HomePage.HandleSave: states that the month is some month label, for the same reason.
- Time.FormatHoursToPersianWorking: requires positive hours per day and a non-negative number of working days, which the store's derived values always give (Store.HoursPerDayOf, Store.DaysPerWeekOf).
- Time.FormatHoursToPersianWorking: its `string` is stated through Time.WorkingTierSelection and Time.WorkingSuffixExactly, not in its own contract.
- The dictionary's key order is modelled as order of first appearance. JavaScript enumerates integer-like keys first; month texts are never integer-like. Keys that collide with built-in object properties are not modelled.
- `toLowerCase` is modelled for ASCII letters only (Strings.ToLowerAscii). Other letters are kept as they are.
- String lengths count code points, not UTF-16 units. They differ only outside the Basic Multilingual Plane.
- Local storage is the stored entry of Sync.PendingSync. Its quota error and the server-rendering guard (`typeof window`) are not modelled. A stored text that is not JSON is modelled (`Sync.Unparsable`) and read as an absent queue, as `getPendingSyncData` does.
- Asynchronous interleaving is not modelled: each handler runs to completion. The intermediate `isLoading`, `isSaving`, `loading` and `deletingId` states inside a handler are therefore not observable.
- `fs.readFile` is not modelled: the font response names the file instead of carrying its bytes.
- bcrypt and JWT are not modelled: the password hash and the signing function are parameters of SignupRoute.Post. So are `hashPassword` throwing and the `generateToken` payload.
- The Supabase client is not modelled: the usernames already stored and the insert's reply are parameters. A failed lookup is treated as "not taken", as the code does.
- A sign-up body whose fields are not text is not modelled: each field is missing or a text.
- The `onChange` handlers of the settings, onboarding and sign-up form fields are not modelled, except the home page's amount field (Home.HomePage.TypeAmount). The forms' fields are inputs of the handlers.
- Settings.SettingsPage.OpenAddDialog and Settings.SettingsPage.OpenEditDialog require the dialog to be closed, as the page only offers them then.
- The middleware's `matcher` is not modelled: Middleware.Gate is total over paths and passes every path other than the font's.
