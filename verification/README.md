# BCI front-end: a verified model of its page logic

This project models in Dafny the logic of the BCI desktop front-end that
turns server data into what a user sees and sends. It covers:

- the API client (`apiRequest` and the `API` endpoint table);
- the session guards (`findSession`, `findAdminSession`, `logout`);
- the dashboard: the previous-month filters, the loaders, the four stat
  cards, the user name and balance, and the financial chart built by
  `generateFinancialData`;
- the casino-accounts page: grouping by casino, logos, labels, status
  badges, the loading fallbacks and the search box;
- the withdraw page: the phone and IBAN field formatters, form
  validation, the saved account's dropdown option, the submit guard, the
  quick-amount buttons, the last three withdrawals and their status badges.

Conventions:

- Money is an integer number of cents.
- Dates are local civil date-times. They are ordered by a rank that
  sorts valid instants chronologically.
- A JavaScript object used as a dictionary is an association list in
  key-insertion order.
- `null`/`undefined` is `None`.
- Storage, the server, timers and the DOM become parameters:
  - the key-value store is a `map`;
  - what `fetch` came to is a `FetchOutcome`;
  - token validation is a `Validation`;
  - "now" is a `DateTime` argument.

Modules follow the source:

- `Api` is `assets/js/api.js`.
- `Session` is `assets/js/utils.js`.
- `Dashboard`, `UserInfo`, `Money` and `FinancialChart` are
  `pages/dashboard/index.js`.
- `CasinoAccounts` is `pages/casinoaccounts/index.js`.
- `Withdraw` is `pages/withdraw/index.js`.
- `Calendar`, `Entities`, `Text`, `Lists`, `Sums`, `Sorting` and
  `Wrappers` are shared vocabulary. They cover the civil calendar, the
  server records, string built-ins, filtering, sums over lists,
  insertion sort and `Option`.

Some choices in the code are easy to miss. The model follows the code in
each of them:

- The withdraw submit handler never compares the amount with the balance
  (`Withdraw.SubmitIgnoresBalance`). Only the quick-amount buttons do.
- `apiRequest` reads the token before its `try`. A failing read therefore
  rejects the promise instead of resolving to an error envelope
  (`Api.ApiRequest`).
- The "monthly" figures use the previous calendar month, from the first
  of last month to the first of this month. They do not use a window
  ending now (`Calendar.InPreviousMonthIff`).
- `loadAccounts` shows an error after a rejected call and leaves
  `allAccounts` as it was. The model takes that to be its initial `[]`.

## Model

| member | source | states |
|---|---|---|
| Api.Normalize | assets/js/api.js:38-71 | The envelope is well formed and succeeds exactly when a JSON body was parsed with a 2xx status. The result is that body. Each failure gets its own message: the fetch error's message or the connection fallback, the unparsable-body message with the status, or the body's message or "Erro status: text". |
| Api.UnparsableMessageNamesStatus | assets/js/api.js:47-50 | Distinct statuses give distinct unparsable-body messages. |
| Api.BuildHeaders | assets/js/api.js:16-25 | The headers are the caller's plus `Content-Type` (default `application/json`, overridable), plus `Authorization: Bearer <token>` exactly when a non-empty token is stored. The token overrides the caller's header, and no other header changes. |
| Api.ApiRequest | assets/js/api.js:12-72 | The call rejects exactly when the token read fails. Otherwise it sends to the base URL plus the endpoint, with the given verb, the data as its body and the headers `BuildHeaders` gives for the stored token. Its envelope is the one `Normalize` gives for what happened on the wire. |
| Api.ApiRequestNeverRejectsAfterToken | assets/js/api.js:38-71 | Once the token is read, every wire outcome resolves, and success means a parsed 2xx body. |
| Api.RequestOf | assets/js/api.js:90-221 | Each `API` method requests the base URL plus its own path, with its own body. |
| Api.EndpointBodies | assets/js/api.js:90-221 | GET endpoints carry no body. Bodies are carried exactly by register, login, updatePreferences, withdraw (`{amount}`) and recoverPasswordEmail (`{email}`). |
| Api.EndpointOfInjective | assets/js/api.js:90-221 | Different methods, or the same method with different arguments, reach different (path, verb, body) endpoints. |
| Api.ProfilePathInjective | assets/js/api.js:142-144 | The profile path determines the phone looked up. |
| Api.PathSecondChar | assets/js/api.js:90-221 | Only profile lookups live under `/p...`. |
| Api.WithdrawalsPathOnly | assets/js/api.js:176-178 | Only a withdrawals query with the same page and limit reaches a withdrawals path. |
| Api.WithdrawalsPathInjective | assets/js/api.js:176-178 | The withdrawals query string determines its page and limit. |
| Api.FixedPathsShort | assets/js/api.js:90-221 | Every path without an argument is at most 25 characters long. |
| Session.ClearLogin | assets/js/utils.js:47-49 | `token` and `rememberMe` are removed. Every other key keeps its value. |
| Session.FindSession | assets/js/utils.js:2-27 | The result is true exactly when a token is stored and the server accepts it; the store is then untouched and there is no redirect. A rejected or failed validation forgets the login. Without a token the store is untouched. A false result redirects to login exactly when asked. |
| Session.FindAdminSession | assets/js/utils.js:29-45 | A validation that throws rejects the call with the store untouched. Rejection by the server removes only `token`. Success is as for `findSession`. |
| Session.Logout | assets/js/utils.js:47-51 | `token` and `rememberMe` are removed. Every other key keeps its value, and the window goes to the login page. |
| Session.FoundSessionHasToken | assets/js/utils.js:5-9 | A found session is backed by a stored token that is still stored. |
| Session.FailedSessionIsFinal | assets/js/utils.js:10-26 | After a failed check, a second check fails whatever the server says, and it changes nothing. |
| Session.NoSessionAfterLogout | assets/js/utils.js:47-51 | After logout no session is found. Logging out twice is the same as once. |
| Session.AdminFailureKeepsRememberMe | assets/js/utils.js:11-12 | A failed admin check keeps `rememberMe`. A failed user check forgets it. |
| Calendar.PreviousMonth | pages/dashboard/index.js:372-383 | The month before is a valid month, exactly one month earlier. January goes to December of the year before. |
| Calendar.InPreviousMonthIff | pages/dashboard/index.js:374-381 | An instant is in [first of last month, first of this month) exactly when its year and month are the previous month's. |
| Calendar.WeekBeforeRoundTrip | pages/dashboard/index.js:252-256 | Going back seven days and forward seven days returns to the same instant, and the week-earlier instant is earlier. |
| Dashboard.PreviousMonthWindow | pages/dashboard/index.js:372-409 | Every item returned is dated in the previous month and taken from the page's data. A page without data gives nothing. |
| Dashboard.PreviousMonthWindowIff | pages/dashboard/index.js:372-409 | An item is kept exactly when the page has data, holds it, and it is dated in the previous calendar month. |
| Dashboard.LastMonthProfit | pages/dashboard/index.js:372-383 | Chart points of the previous month only, drawn from the data. None without data. |
| Dashboard.LastMonthWithdrawals | pages/dashboard/index.js:385-396 | Withdrawals of the previous month only, drawn from the data. None without data. |
| Dashboard.LastMonthTransactions | pages/dashboard/index.js:398-409 | Transactions of the previous month only, drawn from the data. None without data. |
| Dashboard.LoadSlice | pages/dashboard/index.js:39-81 | A failed response keeps the slice. A successful one with an object result sets it to `result.data`. A successful one with a null result also keeps the slice, because reading `result.data` throws into the loader's `catch`. |
| Dashboard.LoadProfits | pages/dashboard/index.js:83-95 | A successful answer whose `data` has a truthy bonus or casino total replaces the totals with that `data`. A failure, a null body, a missing `data` or two falsy totals leave them as they were. |
| Dashboard.ProfitsGuard | pages/dashboard/index.js:88-90 | Starting without totals, the totals are stored exactly when the server reports a truthy one, and they are then the `data` received. Otherwise the first card shows `0,00 €`. |
| Dashboard.TotalGainsValue | pages/dashboard/index.js:128-130 | No totals give 0. Both present give their sum. One missing gives NaN. |
| Dashboard.TotalGainsCard | pages/dashboard/index.js:128-131 | The first card reads back as the sum of the two totals, or 0 without totals. |
| Dashboard.MonthlyGainsCard | pages/dashboard/index.js:134-137 | The second card reads back as the profit of the previous month's chart points. |
| Dashboard.WithdrawalsCard | pages/dashboard/index.js:140-149 | The third card reads back as the sum of all withdrawals, or 0 without them. It and the fourth are unwritten exactly when the withdrawals object has no `data`. |
| Dashboard.TransactionsCard | pages/dashboard/index.js:146-149 | The fourth card, when written, is the decimal count of the previous month's transactions. |
| Money.FormatMoneyShape | pages/dashboard/index.js:365-370 | A number of cents shows as an optional minus, the whole euros in decimal, a comma, two digits and ` €`. |
| Money.ParseFormatMoney | pages/dashboard/index.js:365-370 | Every number of cents reads back from its display: `ParseMoney` inverts `formatMoney`. |
| Money.FormatMoneyNonNumbers | pages/dashboard/index.js:365-367 | null, undefined and NaN all show as `0,00 €`. |
| Money.FormatMoneyExample | pages/dashboard/index.js:365-370 | 123450 cents show as `1234,50 €` (no thousands separator). |
| Money.FormatMoneyNegativeExample | pages/dashboard/index.js:365-370 | -5 cents show as `-0,05 €`. |
| UserInfo.BalanceText | pages/dashboard/index.js:117-122 | The balance card reads back as the user's balance, or 0 without a user. |
| UserInfo.DisplayNameRule | pages/dashboard/index.js:107-115 | Without a user or a name it shows `Utilizador`. Otherwise it shows the text before the first space, a space, and the text after the last space; a name without spaces is shown whole. |
| UserInfo.FirstAndLastRule | pages/dashboard/index.js:109 | Keeping the first and last split part is cutting at the first and last space. |
| FinancialChart.FilterPeriod | pages/dashboard/index.js:246-277 | The points kept belong to the period and are drawn from the input. |
| FinancialChart.FilterPeriodIff | pages/dashboard/index.js:250-277 | A point of the list is kept exactly when it is dated no earlier than seven days before now (weekly; later dates included), in the previous calendar month (monthly) or in this year (yearly). Any other period keeps the list as it is. |
| FinancialChart.KindOf | pages/dashboard/index.js:290 | A point without a type is grouped as a non-empty type (`OUTROS`). |
| FinancialChart.GroupWellGrouped | pages/dashboard/index.js:284-295 | The grouped table has no day twice and no type twice within a day. |
| FinancialChart.GroupAmounts | pages/dashboard/index.js:284-295 | Each cell holds the sum of the profits of the points of its day and type. |
| FinancialChart.GroupConserves | pages/dashboard/index.js:284-295 | The whole table holds exactly the total profit of the points. |
| FinancialChart.GroupDays | pages/dashboard/index.js:284-295 | A day is in the table exactly when some point falls on it. |
| FinancialChart.GroupKinds | pages/dashboard/index.js:284-301 | A type is recorded on a day exactly when some point of that day has that type. |
| FinancialChart.Dates | pages/dashboard/index.js:304 | The dates are the table's days in chronological order. |
| FinancialChart.SeriesData | pages/dashboard/index.js:307-309 | One value per date, 0 where the day has no such type. |
| FinancialChart.BuildSeries | pages/dashboard/index.js:318-335 | One series per type, with its name, colour and data. |
| FinancialChart.TableSeriesTotal | pages/dashboard/index.js:298-335 | The series of a table add up to the table's total. |
| FinancialChart.ChartConserves | pages/dashboard/index.js:241-338 | With chart data, the values of all series add up to the profit of the period's points. |
| FinancialChart.ChartLabels | pages/dashboard/index.js:304-315 | With points in the period, the labels are those points' days, each once, ascending. |
| FinancialChart.ChartSeries | pages/dashboard/index.js:298-335 | Each series value is the profit of the points of that day and type. |
| FinancialChart.ChartDegenerate | pages/dashboard/index.js:242-281 | No data gives an empty chart. An empty period gives one `Sem dados` column with a single `Ganhos` series holding 0. |
| FinancialChart.MonthlyFilterIsWindow | pages/dashboard/index.js:259-266 | The monthly tab filters exactly like `getLastMonthProfit`. |
| FinancialChart.MonthlyTabMatchesCard | pages/dashboard/index.js:134-137 | The monthly tab's series add up to the amount the monthly-gains card reads back as. |
| CasinoAccounts.CasinoKey | pages/casinoaccounts/index.js:81 | The group key is the casino name, or `Casino Desconhecido` when it is empty. It is never empty. |
| CasinoAccounts.GroupByCasino | pages/casinoaccounts/index.js:79-88 | The groups hold every account once in all, and no group is empty. |
| CasinoAccounts.GroupKeys | pages/casinoaccounts/index.js:79-88 | The casinos appear once each, in the order of their first account. |
| CasinoAccounts.GroupContents | pages/casinoaccounts/index.js:79-88 | A casino's group holds exactly its accounts, in their original order. |
| CasinoAccounts.AccountInItsGroup | pages/casinoaccounts/index.js:79-88 | Every account is in the group of its own casino and in no other. |
| CasinoAccounts.StatusBadge | pages/casinoaccounts/index.js:291-320 | The four known statuses get their badges. Anything else gets the `Desconhecido` fallback. The inactive style is used exactly for INACTIVE and unknown statuses. |
| CasinoAccounts.StatusBadgeRoundTrip | pages/casinoaccounts/index.js:291-320 | The badge text identifies a known status and tells unknown statuses apart. |
| CasinoAccounts.Find | pages/casinoaccounts/index.js:97 | A lookup returns an entry of the table, or fails only when no entry has that name. |
| CasinoAccounts.Logo | pages/casinoaccounts/index.js:97 | A casino gets the default logo exactly when the table has no logo for it. Otherwise it gets its table entry. |
| CasinoAccounts.LogoInjective | pages/casinoaccounts/index.js:6-15 | Two casinos never share a logo of their own. |
| CasinoAccounts.CountWord | pages/casinoaccounts/index.js:98-99 | `conta` exactly for one account, `contas` otherwise. |
| CasinoAccounts.HeaderOfGroup | pages/casinoaccounts/index.js:79-105 | The header drawn for each group is titled with its casino and shows that casino's logo. Its count label is the number of accounts with that casino in decimal, never zero, followed by `conta` exactly when the number is one and `contas` otherwise. |
| CasinoAccounts.HeaderReadsBack | pages/casinoaccounts/index.js:93-105 | A header is titled with its casino and shows its logo. Its count label is the size of its group in decimal, a space and the count word, and the number reads back as that size. |
| CasinoAccounts.HeaderCount | pages/casinoaccounts/index.js:79-105 | A group header never counts zero. It says `conta` exactly when one account has that casino. |
| CasinoAccounts.FieldOrDefault | pages/casinoaccounts/index.js:141-157 | A field shows as itself, or `Não especificado` when empty. |
| CasinoAccounts.CardTitle | pages/casinoaccounts/index.js:132 | A card title is `Conta de <name>`, or `Conta #<id>` without a name. |
| CasinoAccounts.CardTitleInjective | pages/casinoaccounts/index.js:132 | The title tells which case it came from and identifies the name or the id. |
| CasinoAccounts.Details | pages/casinoaccounts/index.js:141-157 | Four non-empty rows: owner, NIF, citizen card and IBAN, each defaulted. |
| CasinoAccounts.AccountsOf | pages/casinoaccounts/index.js:44 | The `result.data \|\| result \|\| []` fallback gives `result.data` for an object carrying a list, the list itself for a list result, and `[]` for an absent or null result. It fails exactly for an object whose `data` is not a list. |
| CasinoAccounts.ViewOf | pages/casinoaccounts/index.js:46-53 | No accounts give the empty state. Otherwise the accounts are shown grouped by casino. |
| CasinoAccounts.LoadAccounts | pages/casinoaccounts/index.js:32-59 | A rejected call and a non-list result show the load error. A failed envelope shows its message or the fallback. Every error message is non-empty. Any other successful answer stores the fallback's list and shows the view of that list. |
| CasinoAccounts.LoadEmptyState | pages/casinoaccounts/index.js:44-50 | A successful answer whose result is absent, null or an empty list shows the empty state and stores `[]`. |
| CasinoAccounts.LoadShowsAllAccounts | pages/casinoaccounts/index.js:44-53 | A successful answer with accounts shows every one, grouped by casino, with no error. |
| CasinoAccounts.SearchText | pages/casinoaccounts/index.js:370-380 | The searched text starts with a line break. |
| CasinoAccounts.Query | pages/casinoaccounts/index.js:362 | The query is lowered and trimmed, and gains no line break. |
| CasinoAccounts.Search | pages/casinoaccounts/index.js:360-390 | An empty query shows every account. Otherwise only the matching accounts are shown, and never an error. |
| CasinoAccounts.LowerSearchText | pages/casinoaccounts/index.js:370-380 | Lowering the searched text lowers each field and leaves the layout alone. |
| CasinoAccounts.SearchTextContains | pages/casinoaccounts/index.js:370-380 | A query that starts visibly and has no line break is in the searched text exactly when some field includes it. |
| CasinoAccounts.SearchMatchesFields | pages/casinoaccounts/index.js:360-388 | For a query typed without a line break, an account matches exactly when one of its five lowered fields includes the query. |
| CasinoAccounts.SearchShowsMatches | pages/casinoaccounts/index.js:360-390 | An account is shown by a search, in its casino's group, exactly when it matches. |
| CasinoAccounts.ShownIffListed | pages/casinoaccounts/index.js:64-88 | An account is shown in its casino's group exactly when it is among those rendered. |
| Withdraw.FirstDigitRunFrom | pages/withdraw/index.js:424-426 | The search finds the leftmost run of n digits, and finds none only when there is none. |
| Withdraw.CappedDigits | pages/withdraw/index.js:297-302 | The field's value is digits only, at most nine. |
| Withdraw.PhoneInputLayout | pages/withdraw/index.js:297-311 | The regular-expression rewriting gives exactly the intended layout of the capped digits: `ddd ddd ddd` for nine, `ddd ddd` for six, and the bare digits for any other count. |
| Withdraw.PhoneInputKeepsDigits | pages/withdraw/index.js:297-311 | Removing spaces from the formatted field gives back the first nine digits of the input, in order. |
| Withdraw.PhoneInputSpacing | pages/withdraw/index.js:304-308 | The field shows a space exactly when it holds six or nine digits. |
| Withdraw.PhoneInputIdempotent | pages/withdraw/index.js:297-311 | Formatting an already formatted phone field changes nothing. |
| Withdraw.IbanCompact | pages/withdraw/index.js:315-323 | The compact IBAN has no whitespace, no lower-case letter, only digits after its first two characters, and at most 25 characters. |
| Withdraw.IbanCompactContents | pages/withdraw/index.js:315-323 | The compact IBAN is the first two non-whitespace characters of the input, upper-cased, followed by the digits after them in order, cut to 23 digits. An input with two or fewer non-whitespace characters is only upper-cased. |
| Withdraw.Chunks4 | pages/withdraw/index.js:326 | Groups of four, the last holding the remaining one to four characters. |
| Withdraw.ChunksConcat | pages/withdraw/index.js:326 | The groups put together give back the value. |
| Withdraw.SpaceEveryFourJoin | pages/withdraw/index.js:326 | Before trimming, the rewrite is the groups joined by spaces, plus one trailing space when the length is a multiple of four. |
| Withdraw.FormatIbanGroups | pages/withdraw/index.js:429-431 | `formatIBAN` of a whitespace-free value joins its groups of four with single spaces and has no space at either end. Removing the spaces gives the value back. |
| Withdraw.IbanInputGroups | pages/withdraw/index.js:314-329 | The IBAN field shows the compact value grouped by four. Removing its spaces gives that value back. |
| Withdraw.ValidateMbwayIff | pages/withdraw/index.js:333-338 | An MB WAY form is accepted exactly when the phone, without whitespace, is nine digits starting 91, 92, 93 or 96. |
| Withdraw.ValidateIbanIff | pages/withdraw/index.js:339-345 | Any other form is accepted exactly when the IBAN, without whitespace, is `PT50` followed by 21 digits. |
| Withdraw.FormattedMobileValidates | pages/withdraw/index.js:297-338 | A valid phone still has the same digits, and still validates, after the phone field formats it. |
| Withdraw.FormattedIbanValidates | pages/withdraw/index.js:314-345 | A valid IBAN keeps its compact value, and still validates, after the IBAN field formats it. |
| Withdraw.SaveAccount | pages/withdraw/index.js:350-391 | An account is built exactly when the form validates, and it is an MB WAY account exactly for type `mbway`. |
| Withdraw.SavedAccountOption | pages/withdraw/index.js:369-414 | A saved account's option value is its type prefix followed by the validated number without whitespace. Its label shows that number grouped: 3-3-3 for a phone, by four for an IBAN. |
| Withdraw.SavedMbwayOption | pages/withdraw/index.js:369-414 | An MB WAY option's value is `mbway_` plus a valid mobile number. Its label shows that number spaced 3-3-3. |
| Withdraw.SavedIbanOption | pages/withdraw/index.js:379-414 | An IBAN option's value is `iban_` plus a valid IBAN. Its label names the bank, or `Banco`, and shows the IBAN grouped by four. |
| Withdraw.MobileDisplay | pages/withdraw/index.js:424-426 | `formatPhoneNumber` spaces a valid mobile number 3-3-3. |
| Withdraw.SubmitGuard | pages/withdraw/index.js:24-39 | The submit is refused for a NaN amount or one under €10, and then for an empty selection. Otherwise exactly that amount and account are submitted. |
| Withdraw.QuickAmountDisabled | pages/withdraw/index.js:176-178 | A quick-amount button is disabled exactly when its amount is a number above the balance. |
| Withdraw.UpdateQuickAmounts | pages/withdraw/index.js:158-196 | With a loaded user, every button gets its own disabled state: disabled exactly when its amount is a number above the balance. Without a user and with at least one button, the update is `Unavailable`: the first `user.balance` throws before any button changes, and the `catch` takes over. Without a user and without buttons, nothing throws. |
| Withdraw.SubmitIgnoresBalance | pages/withdraw/index.js:24-39 | A typed amount above the balance, whose button would be disabled, is still submitted. |
| Withdraw.Last3 | pages/withdraw/index.js:80-85 | At most three withdrawals, newest first, drawn from the list. No withdrawal left out is newer than one kept. |
| Withdraw.HistoryStatus | pages/withdraw/index.js:108-112 | The badge class is the lowered status. `Concluído` and the check icon appear exactly for COMPLETED. Anything else is `Processando`. |

## Left out

- Rendering, DOM events, alerts, modals, `console` logging and navigation are not modelled. Navigation is recorded only as the page a guard redirects to.
- `Promise.all`, timers, the search debounce and the simulated 1.5 s delay in `saveAccount` are not modelled. Each operation is modelled as if it ran alone.
- Case mapping (`toUpperCase`/`toLowerCase`) is modelled for ASCII letters only.
- Dates ignore time zones and daylight saving. `toISOString().split('T')[0]` is modelled as the local calendar day; in the source it is the UTC day.
- `toFixed(2)`, `parseFloat`, `Intl.NumberFormat` and floating-point rounding are not modelled. Amounts are exact cents.
- Dashboard.TotalGainsValue: a total the server sends as a string is modelled as an already parsed number.
- FinancialChart.Dates: `Object.keys` puts integer-like keys first. Day keys are never integer-like, so plain insertion order is used.
- CasinoAccounts.GroupKeys: two rules of JavaScript object keys are not modelled.
  - Groups render in `Object.keys` order, which puts integer-like casino names (`"10"`, `"888"`) first, in ascending order. The model keeps first-account order for every name.
  - A casino named after a property inherited from `Object.prototype` (`constructor`, `toString`, `__proto__`) finds a truthy non-array in `groups`, and the `push` throws. The model groups such names like any other.
  - The chart's transaction-type keys (`Object.keys(dateData)`, `Object.keys(series)`) are modelled in insertion order for the same reason.
- Withdraw.IbanCompact: JavaScript's `length`, `substring` and `.` count UTF-16 code units. The model counts characters. The two differ for characters outside the Basic Multilingual Plane, such as emoji, which take two code units. For "😀1234" the field shows "😀12 34"; the model gives "😀123 4".
- CasinoAccounts.Search: after a search that matches nothing, the page shows its empty-state banner. A following empty query re-renders every group without hiding that banner, so the page shows both. The model's view is the groups alone and carries no banner state between searches.
- Look-ups in `statusMap` and `CASINO_LOGOS` by names such as `toString`, which reach `Object.prototype`, are not modelled.
- `JSON.stringify` of request bodies and of the saved account is not modelled. The body is kept as the value that would be serialised.
- Api.Normalize: a JSON `null` body with a failing status throws inside the `try`, and the message becomes the `TypeError`'s. The model treats such a body as one without a message.
- The unawaited `withdraw(amount)` call in the submit handler, and the alerts of `withdraw()`, are not modelled. The guard's decision is the model's output.
- Withdraw.Last3: `getlast3` sorts the page's list in place. The model returns a sorted copy. The order among withdrawals with the same date is not stated.
- After a result that is not a list, the search timer throws. `CasinoAccounts.Search` takes the list of accounts and does not model that case.
- CasinoAccounts.SearchMatchesFields: requires a query without a line break. A line break in the query could match across two fields of the searched text; that case is not stated.
- Numeric `nif`, `citizen_card` and `account_id` values that the server might send are modelled as strings, apart from the account id used in the card title.
- The relative and locale date labels (`formatarDataPortugues`, `toLocaleDateString`) and the chart's axis options are not modelled.
- `showAccountDetails`, the card actions and the toggles on the casino-accounts page are not modelled; they only render.
