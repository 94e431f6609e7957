# CondoGuard dashboard: expenses, charts and session, in Dafny

A model of the behavioural core of the CondoGuard web dashboard (a Next.js
front end for a condominium management API). The model covers:

- **The expenses page** (`app/dashboard/expenses/page.tsx`). This includes
  the list of expenses shown, the error message and the new-expense form.
  The form's amount input keeps the digits typed and reads them as centavos.
  Creating an expense appends what the server returns; deleting one filters
  the list by id. The CSV import checks and cleans each parsed row, then
  sends one create call at a time and stops at the first failure. The list
  is fetched again only when every row was created.
- **The two charts** (`app/components/ExpensesChart.tsx` and
  `app/components/ExpensesByDateChart.tsx`). Both are a reduce that sums
  amounts per key into an object, then read its keys and values. One chart
  groups by description. The other groups by the day part of the ISO
  timestamp and sorts its labels by time, but not its values.
- **The session** (`app/services/authService.ts`,
  `app/context/AuthContext.tsx` and `app/dashboard/layout.tsx`). `login`
  stores the token and the role in `localStorage`, and the Bearer header is
  derived from the stored token. The status checks of `createAccount` and
  `deleteUser` are modelled too. So are the context's token and role, which
  are filled from storage on mount, and logout, which clears both. The admin
  test selects the navigation links.

Amounts are whole numbers of centavos. Strings are sequences of characters.
Everything the code obtains from outside becomes a parameter:
- server replies (`None` or a `Reply` without a response stands for a call
  that threw);
- the date functions `new Date(d)` validity, `toISOString` and `getTime`;
- the rows `Papa.parse` produced.

Modules, one file each:
- `Wrappers`: `Option` and `Result`.
- `JsString`: the string built-ins the code uses, namely `replace` with a
  string pattern, `replace(/\D/g, "")`, `trim` and `split(sep)[0]`.
- `ExpenseTypes`, `ExpenseForm` and `ExpenseList`: the expense records, the
  form edits and the delete filter.
- `CsvImport`: the row checks, the amount cleaning and the import loop.
- `ExpensesPage`: the page's state as a class whose handlers change it.
- `Grouping`: the reduce shared by both charts.
- `ExpensesChart`, `TimeOrder` and `ExpensesByDateChart`: the two charts,
  with the label sort in `TimeOrder`.
- `Storage`: `localStorage` as a class over a map.
- `AuthService`, `AuthContext` and `DashboardLayout`: the session.

## Model

| member | source | states |
|---|---|---|
| JsString.ReplaceFirst | app/dashboard/expenses/page.tsx:112-114 | no contract of its own: what it replaces is stated by ReplaceFirstAt, ReplaceFirstNoMatch and ReplaceFirstChar |
| JsString.ReplaceFirstAt | app/dashboard/expenses/page.tsx:110-115 | `replace` with a string pattern puts the replacement exactly at the leftmost occurrence and keeps the rest of the string |
| JsString.ReplaceFirstNoMatch | app/dashboard/expenses/page.tsx:110-115 | without an occurrence of the pattern, `replace` returns the string unchanged |
| JsString.ReplaceFirstChar | app/dashboard/expenses/page.tsx:113-114 | a one-character pattern is replaced at the first position holding that character |
| JsString.BeforeFirst | app/components/ExpensesByDateChart.tsx:44 | no contract of its own: the piece it returns is stated by BeforeFirstSpec |
| JsString.BeforeFirstSpec | app/components/ExpensesByDateChart.tsx:44 | `split(sep)[0]` is a prefix holding no separator, ending at the first separator or at the end of the string |
| JsString.DigitsOnly | app/dashboard/expenses/page.tsx:51 | every character of the filtered text is a digit |
| JsString.DigitsOnlyKeepsDigits | app/dashboard/expenses/page.tsx:51 | every digit of the input is kept, as many times as it occurs |
| JsString.DigitsOnlyConcat | app/dashboard/expenses/page.tsx:51 | filtering a concatenation is concatenating the filtered parts, so the digits keep their order |
| JsString.Trim | app/dashboard/expenses/page.tsx:115 | the trimmed text neither starts nor ends with white space |
| JsString.TrimIsSlice | app/dashboard/expenses/page.tsx:115 | the trimmed text is a slice of the input, and only white space lies outside it |
| JsString.TrimUnchanged | app/dashboard/expenses/page.tsx:115 | text without white space at either end is left as it is |
| JsString.TrimDropsLeading | app/dashboard/expenses/page.tsx:115 | a leading white-space character is removed |
| ExpenseForm.DecimalValue | app/dashboard/expenses/page.tsx:52 | a digit string of length n reads as a number below 10^n |
| ExpenseForm.TypedAmount | app/dashboard/expenses/page.tsx:50-53 | the typed amount is NaN exactly when the input has no digit; otherwise it is the number the digits spell, read as centavos, below 10 to the power of the digit count |
| ExpenseForm.TypedAmountAppendDigit | app/dashboard/expenses/page.tsx:51-52 | typing a digit multiplies the centavos by ten and adds the digit |
| ExpenseForm.TypedAmountIgnoresNonDigit | app/dashboard/expenses/page.tsx:51 | typing a non-digit leaves the amount unchanged |
| ExpenseForm.TypedAmountExample | app/dashboard/expenses/page.tsx:50-53 | "R$ 12,34" is stored as 1234 centavos (12.34) |
| ExpenseForm.EditField | app/dashboard/expenses/page.tsx:45-57 | an edit sets only the field named by the input; the amount input goes through the digit reading |
| ExpenseForm.EditsCommute | app/dashboard/expenses/page.tsx:53-55 | edits of two different inputs can be applied in either order |
| ExpenseForm.LastEditWins | app/dashboard/expenses/page.tsx:53-55 | a second edit of the same input overrides the first |
| ExpenseList.WithoutId | app/dashboard/expenses/page.tsx:78 | after the filter no element has the id, every element came from the list, and every element with another id stays |
| ExpenseList.WithoutIdConcat | app/dashboard/expenses/page.tsx:78 | the filter keeps the relative order of the remaining elements |
| ExpenseList.WithoutIdAbsent | app/dashboard/expenses/page.tsx:78 | deleting an id nobody has changes nothing |
| ExpenseList.WithoutIdIdempotent | app/dashboard/expenses/page.tsx:78 | deleting the same id twice removes nothing more |
| ExpenseList.DeleteUndoesAppend | app/dashboard/expenses/page.tsx:67-78 | deleting the expense just appended, when its id is new, restores the list |
| CsvImport.CleanAmount | app/dashboard/expenses/page.tsx:110-116 | no contract of its own: its result is stated by CleanAmountDropsAtMostOneDot, CleanAmountBrazilian and CleanAmountSecondDotKept |
| CsvImport.ReplaceFirstCountBounds | app/dashboard/expenses/page.tsx:110-115 | one `replace` changes a character's count by at most the pattern's and the replacement's counts |
| CsvImport.CleanAmountDropsAtMostOneDot | app/dashboard/expenses/page.tsx:110-116 | the cleaning removes at most one "." from the amount text |
| CsvImport.CleanAmountBrazilian | app/dashboard/expenses/page.tsx:110-116 | "R$ a.b,c" with digit groups is cleaned to "ab.c", so "R$ 1.234,56" becomes "1234.56" |
| CsvImport.CleanAmountSecondDotKept | app/dashboard/expenses/page.tsx:110-116 | "R$ a.b.d,c" is cleaned to "ab.d.c": a second thousands separator survives |
| CsvImport.PrepareRow | app/dashboard/expenses/page.tsx:97-123 | no contract of its own: what it accepts and the payload it builds are stated at the import level by ExpensesPage.ImportSendsRowCells and ExpensesPage.ImportStopsAtBadRow |
| CsvImport.Submissions | app/dashboard/expenses/page.tsx:94-124 | the import makes at most one create call per remaining row |
| CsvImport.SubmissionsInFileOrder | app/dashboard/expenses/page.tsx:94-123 | the calls carry the rows' payloads in file order, and each call follows only successful calls |
| CsvImport.SubmittedRow | app/dashboard/expenses/page.tsx:94-123 | call j of a whole import carries the prepared payload of row j |
| CsvImport.SubmissionsStop | app/dashboard/expenses/page.tsx:94-124 | the calls stop only when every row was sent and accepted, when the last call failed, or when the next row failed its checks |
| CsvImport.BadRowAborts | app/dashboard/expenses/page.tsx:97-107 | a bad row reached after successful creates means exactly the earlier rows were sent, and none from it on |
| CsvImport.SubmissionsAllAccepted | app/dashboard/expenses/page.tsx:94-128 | every remaining row is sent and accepted exactly when each passes its checks and its create succeeds |
| CsvImport.ImportAllCreated | app/dashboard/expenses/page.tsx:94-128 | the import succeeds exactly when every row is valid and every create succeeds |
| CsvImport.SubmitRows | app/dashboard/expenses/page.tsx:94-124 | the loop makes exactly the specified create calls and reports success exactly when all rows were created |
| ExpensesPage.RowCheck | app/dashboard/expenses/page.tsx:97-123 | no contract of its own: the page's row check, whose effect on the import is stated by ImportSendsRowCells and ImportStopsAtBadRow |
| ExpensesPage.ImportSendsRowCells | app/dashboard/expenses/page.tsx:94-123 | every create call j of the import is for row j, whose date passed the checks and whose amount is present, and sends row j's description cell as it is, its cleaned amount and its ISO date |
| ExpensesPage.ImportStopsAtBadRow | app/dashboard/expenses/page.tsx:94-107 | a row whose date is missing, empty or invalid or whose amount is missing, reached after successful creates, ends the import with exactly the earlier rows sent |
| ExpensesPage.Page.constructor | app/dashboard/expenses/page.tsx:14-20 | the page starts with no expenses, no error and the empty form |
| ExpensesPage.Page.LoadExpenses | app/dashboard/expenses/page.tsx:22-34 | the fetched list replaces the shown one; a failed fetch sets the fetch error and keeps the list |
| ExpensesPage.Page.HandleInputChange | app/dashboard/expenses/page.tsx:45-57 | the form becomes the edited draft; list and error are unchanged |
| ExpensesPage.Page.HandleDateChange | app/dashboard/expenses/page.tsx:59-61 | only the form's date changes |
| ExpensesPage.Page.HandleCreateExpense | app/dashboard/expenses/page.tsx:63-73 | the current form is sent; on success the created expense is appended and the form reset, and on failure the list and form stay and the create error is set |
| ExpensesPage.Page.HandleDeleteExpense | app/dashboard/expenses/page.tsx:75-83 | on success the list is filtered by id; on failure it stays and the delete error is set |
| ExpensesPage.Page.HandleFileUpload | app/dashboard/expenses/page.tsx:85-137 | no file does nothing; otherwise the specified calls are made, and the list is replaced by the refetch only when every row was created and the refetch succeeded, the CSV error being set in every other case |
| ExpensesPage.CreateThenDelete | app/dashboard/expenses/page.tsx:63-83 | creating an expense with a new id and then deleting it leaves the page showing the list it showed before |
| Grouping.FirstAppearance | app/components/ExpensesChart.tsx:15-25 | the keys are listed once each, and exactly the keys of the entries are listed |
| Grouping.GroupTotalAbsent | app/components/ExpensesChart.tsx:15-22 | a key without entries has total zero |
| Grouping.SumTotalsAppend | app/components/ExpensesChart.tsx:15-22 | one more entry raises the summed totals by its amount when its key is listed |
| Grouping.TotalsConserveAmount | app/components/ExpensesChart.tsx:15-26 | the group totals add up to the sum of all amounts |
| Grouping.AddEntry | app/components/ExpensesChart.tsx:15-21 | one call of the reduce callback, falsy-zero branch included, extends the running keys and per-key sums from a prefix of the entries to the prefix one entry longer |
| Grouping.GroupSum | app/components/ExpensesChart.tsx:15-26 | the reduce, falsy-zero branch included, yields the keys in first-appearance order and each key's total at its position |
| ExpensesChart.ByDescription | app/components/ExpensesChart.tsx:15-19 | each expense is filed, in order, under its description with its amount, and the keys filed are exactly the expenses' descriptions |
| ExpensesChart.ByDescriptionTotal | app/components/ExpensesChart.tsx:15-22 | filing by description keeps every amount |
| ExpensesChart.DescriptionChart | app/components/ExpensesChart.tsx:13-26 | one label per distinct description, in first-appearance order; each value is the total for its label; the values add up to all amounts; empty input gives an empty chart |
| TimeOrder.InsertKeepsSorted | app/components/ExpensesByDateChart.tsx:55-57 | inserting a label into labels sorted by time keeps them sorted |
| TimeOrder.SortByTime | app/components/ExpensesByDateChart.tsx:55-57 | the sorted labels are a permutation of the labels, in non-decreasing time order |
| TimeOrder.SortByTimeFixesSorted | app/components/ExpensesByDateChart.tsx:55-57 | the sort leaves the labels as they are exactly when they are already in time order |
| TimeOrder.SortKeepsDistinct | app/components/ExpensesByDateChart.tsx:55-57 | sorting distinct labels gives distinct labels |
| ExpensesByDateChart.DayKey | app/components/ExpensesByDateChart.tsx:44 | no contract of its own: the day part it takes is stated by DayKeySpec |
| ExpensesByDateChart.DayKeySpec | app/components/ExpensesByDateChart.tsx:44 | the key is the text of the ISO timestamp before its first "T" and holds no "T" |
| ExpensesByDateChart.ByDate | app/components/ExpensesByDateChart.tsx:42-44 | grouping fails exactly when some date is invalid; otherwise each expense is filed under its day with its amount |
| ExpensesByDateChart.ByDateTotal | app/components/ExpensesByDateChart.tsx:42-52 | filing by day keeps every amount |
| ExpensesByDateChart.DateChart | app/components/ExpensesByDateChart.tsx:42-58 | the labels are the distinct days sorted by time; the values are the day totals in first-appearance order; both have the same length and the values add up to all amounts |
| ExpensesByDateChart.AlignedWhenInOrder | app/components/ExpensesByDateChart.tsx:55-58 | when the days first appear in time order, each value is the total of the day labelled at its position |
| ExpensesByDateChart.MisalignedWhenOutOfOrder | app/components/ExpensesByDateChart.tsx:55-58 | a later day followed by an earlier one gives labels earlier-then-later but values later-then-earlier, so each day shows the other's total |
| Storage.StoredValue | app/context/AuthContext.tsx:25-32 | the truthiness read of a stored key; what a reader sees after `setItem` and `removeItem` is stated by StoredValueAfterWrite, and its use for the header, the login and the mount by AuthHeaderRoundTrip, AfterLoginSpec and MountProvider |
| Storage.StoredValueAfterWrite | app/services/authService.ts:26-27 | after `setItem` the key reads back as the value when it is non-empty and as absent when it is empty; after `removeItem` it reads as absent; no other key reads differently |
| Storage.LocalStorage.GetItem | app/context/AuthContext.tsx:26-27 | the map lookup behind `getItem`; its round trips with the writes are stated by SetThenGet and RemoveThenGet, and its use on mount by Hydrate and MountProvider |
| Storage.LocalStorage.SetItem | app/services/authService.ts:26-27 | `setItem` stores the value under its key and leaves every other key |
| Storage.LocalStorage.RemoveItem | app/dashboard/layout.tsx:15-16 | `removeItem` drops the key and leaves every other key |
| Storage.SetThenGet | app/services/authService.ts:26-27 | `getItem` after `setItem` gives back the value written, and any other key reads as before |
| Storage.RemoveThenGet | app/dashboard/layout.tsx:15-16 | `getItem` after `removeItem` gives null, and any other key reads as before |
| AuthService.AuthHeader | app/services/authService.ts:6-9 | no contract of its own: the header it derives is stated by AuthHeaderRoundTrip |
| AuthService.AuthHeaderRoundTrip | app/services/authService.ts:6-9 | the header carries exactly the stored non-empty token after "Bearer ", and there is no header when none is stored |
| AuthService.Settle | app/services/authService.ts:13-16 | how axios settles a call (resolve on a 2xx reply, reject otherwise); what that means for the callers is stated by Login, CreateAccountOutcome and DeleteUserOutcome |
| AuthService.FirstRole | app/services/authService.ts:27 | no contract of its own: `roles[0]` as stored, stated by AfterLoginSpec |
| AuthService.StoresSession | app/services/authService.ts:25 | no contract of its own: the test `data.token && data.roles`, whose effect is stated by AfterLoginSpec |
| AuthService.AfterLogin | app/services/authService.ts:25-28 | no contract of its own: the storage after login, stated by AfterLoginSpec |
| AuthService.AfterLoginSpec | app/services/authService.ts:25-28 | a reply with a truthy token and a roles list stores that token and the first role (the text "undefined" for an empty list) and touches no other key; any other reply changes nothing |
| AuthService.Login | app/services/authService.ts:12-31 | a settled reply's body is returned unchanged and storage becomes the post-login storage; a rejected call stores nothing |
| AuthService.RegistrationFor | app/services/authService.ts:123-128 | the registration body carries the given fields and the roles `["ROLE_USER"]` |
| AuthService.CreateAccountOutcome | app/services/authService.ts:121-135 | account creation succeeds exactly on status 201; another 2xx status throws "Failed to create account" and a rejection fails as it came |
| AuthService.DeleteUserOutcome | app/services/authService.ts:103-118 | deletion succeeds exactly on status 204; another 2xx status throws "Failed to delete user" and every caught error is thrown again unchanged |
| AuthContext.Session.Default | app/context/AuthContext.tsx:13-18 | the default context holds null token and role |
| AuthContext.Session.Provider | app/context/AuthContext.tsx:20-22 | a provider starts with null token and role |
| AuthContext.Session.SetToken | app/context/AuthContext.tsx:13-22 | a provider's setter sets the token; the default context's does nothing |
| AuthContext.Session.SetRole | app/context/AuthContext.tsx:13-22 | a provider's setter sets the role; the default context's does nothing |
| AuthContext.Session.Hydrate | app/context/AuthContext.tsx:24-33 | a non-empty stored token becomes the token and, independently, a non-empty stored role becomes the role; otherwise each keeps its value; storage is not written |
| AuthContext.MountProvider | app/context/AuthContext.tsx:20-33 | a freshly mounted provider holds the stored token exactly when a non-empty one is stored, and null otherwise; the same holds for the role |
| AuthContext.DefaultIgnoresSetters | app/context/AuthContext.tsx:13-18 | whatever is set, the default context keeps null token and role |
| DashboardLayout.HandleLogout | app/dashboard/layout.tsx:14-20 | logout removes the token and role keys, and only those, and sets both in-memory values to null |
| DashboardLayout.LoggedOutStorage | app/dashboard/layout.tsx:15-16 | after the two keys are removed no auth header is derived, no role is stored and every other key keeps its value |
| DashboardLayout.IsAdmin | app/dashboard/layout.tsx:22 | no contract of its own: `role === 'ROLE_ADMIN'`, whose effect on the links is stated by NavLinksByRole |
| DashboardLayout.NavLinks | app/dashboard/layout.tsx:36-57 | no contract of its own: the links shown, stated by NavLinksByRole |
| DashboardLayout.NavLinksByRole | app/dashboard/layout.tsx:22-57 | the users, residents and shop-owner links are shown exactly when the role is "ROLE_ADMIN"; the dashboard link is always first, and the notifications and expenses links are always last |
| DashboardLayout.LogoutHidesAdminLinks | app/dashboard/layout.tsx:14-57 | after logout, whatever the role was, only the three non-admin links are shown |

## Left out

- HTTP: every axios call and its URL are replaced by the reply or outcome
  passed in. For the create, delete and fetch calls of the page this is an
  `Option` or a `bool`. For `login`, `createAccount` and `deleteUser` it is
  a `Reply`. axios rejecting non-2xx statuses is modelled by `Settle`. The
  other fetch functions of `app/services/authService.ts`, and `register`,
  only forward a reply.
- Dates: `new Date(d)` validity, `toISOString` and `getTime` are function
  parameters. An invalid date in the by-date chart makes the model return
  `None`, where the component throws while rendering.
- Floating point: amounts are whole centavos. `parseFloat` of the cleaned
  CSV amount is not modelled, so the import stops at the cleaned text. The
  rounding of a very long typed digit string is not modelled either.
- `Papa.parse` tokenisation: the import starts from parsed rows (maps from
  column name to cell text).
- Rendering, `toLocaleString` currency display, Chart.js, `console` output,
  and routing (`router.push`, `Link`).
- Concurrency: handlers are modelled as running one at a time on the
  current state. React's stale closures and overlapping async handlers are
  not modelled.
- `Object.keys` order: keys are listed in insertion order. JavaScript lists
  integer-like keys first, in numeric order. Keys that name inherited
  properties (such as "constructor") make `acc[key]` truthy from the start.
  Neither case is modelled.
- EditField: an input name other than "description", "amount" and "date"
  leaves the draft unchanged. The code would add a field of that name, but
  the form has no such input.
- TimeOrder.SortByTime: a comparator that returns NaN for an invalid label
  is not modelled. Labels come from `toISOString`, so they are valid dates.
- Strings are sequences of Unicode characters, not UTF-16 code units.
- The list is shown in stored order. The page has no filtering, searching,
  sorting or pagination, so none is modelled.
- The other pages of the dashboard only fetch and render. The login and
  create-account pages only wire these services to their forms.
- JsString.ReplaceFirst: the `$&`, `$1` and similar substitution patterns
  that `replace` expands in its replacement text are not modelled. The code
  only replaces with "" and ".".
- JsString.BeforeFirst: an empty separator, which `split` treats as splitting
  into single characters, is not modelled. The code only splits on "T".
