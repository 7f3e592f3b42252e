# Mountains journey: the stores and the navigation guard, modelled in Dafny

The application lets signed-in users browse mountain peaks, filter them and record
check-ins, all stored in a hosted backend. This project models the client's state layer:

- the **mountains store** (`src/store/mountains.ts`): its state, `peaks`, `checkins`,
  `selectedPeak`, `isLoading`, the three filters and the `init` flag, lives in class
  `Mountains.MountainsStore`. Its computed views (`filteredPeaks`, `peaksWithCheckin`,
  `checkedInPeaks`, `stats`, `provinces`, `cities`) and its row conversions are functions in
  module `MountainViews`;
- the **session store** (`src/store/auth.ts`): class `Auth.AuthStore` with `user`,
  `isLoading`, `isInitialized`, `error`, `isLoggingIn` and `isRegistering`;
- the **navigation guard** (`src/router/index.ts`): module `Router`, which holds the route table,
  the `requiresAuth` lookup, the redirect decision and `beforeEach`.

The record types of `src/types/index.ts` are datatypes in `Types`. The backend and its
client are not modelled. Each awaited call is an argument of type `Backend.Reply`:

- `Ok` when it resolved with data;
- `ErrorReturned` when it resolved with an `error` member;
- `Threw` when it rejected.

The source treats a returned error and a rejection differently in several places. The
runtime's text parsers (`JSON.parse`, `parseFloat` and `parseInt` of a string) are
function-valued arguments (`Backend.Parsers`). The way these functions coerce other
JavaScript values is written out in the model. Times are millisecond integers. The clock
readings used by `checkin` are arguments.

Behaviour worth noting:

- `loadPeaks` only replaces a `NaN` or 0 result of `parseInt`, so a negative altitude or
  difficulty is kept.
- `register` ignores an error that `resend` returns. A rejected `resend` is caught, though:
  `register` then sets `error` and returns false even though the account was created.
- `logout` ignores an error that `signOut` returns and clears the user. Only a rejection
  keeps the user.
- `init` in the session store leaves `user` as it was when there is no session. It does not
  clear it.

Files: `wrappers.dfy`, `types.dfy`, `backend.dfy`, `text.dfy` (lower-casing, `includes`, the
default sort order, sorted de-duplication, decimal rendering), `mountain_views.dfy`,
`mountains.dfy`, `auth.dfy`, `router.dfy`.

## Model

| member | source | states |
|---|---|---|
| Text.Lower | src/store/mountains.ts:24 | lower-casing keeps the length of the string |
| Text.LowerIdempotent | src/store/mountains.ts:24 | lower-casing a lower-cased string changes nothing |
| Text.ContainsAt | src/store/mountains.ts:24-32 | `includes` holds iff the needle equals the slice of the text at some position |
| Text.StrLessIrreflexive | src/store/mountains.ts:270 | no string sorts before itself in the default sort order |
| Text.StrLessTransitive | src/store/mountains.ts:270 | the default sort order is transitive |
| Text.StrLessTotal | src/store/mountains.ts:270 | of two different strings, one sorts before the other |
| Text.StrLessAsymmetric | src/store/mountains.ts:270 | two strings never sort before each other |
| Text.StrictlySortedDistinct | src/store/mountains.ts:264-270 | a strictly sorted list repeats no value |
| Text.InsertSorted | src/store/mountains.ts:267 | adding a value to a sorted, duplicate-free list keeps it sorted and duplicate-free, and adds exactly that value |
| Text.SortedUnique | src/store/mountains.ts:264-270 | `Array.from(set).sort()`: strictly sorted, holding exactly the values given |
| Text.StrictlySortedUnique | src/store/mountains.ts:270 | two strictly sorted lists with the same values are equal, so the sorted listing of a set is determined |
| Text.Decimal | src/store/mountains.ts:167 | the decimal form of a number is non-empty and all digits, with no leading zero |
| Text.DecimalInjective | src/store/mountains.ts:167 | different numbers have different decimal forms |
| MountainViews.NormaliseLocationAsWritten | src/store/mountains.ts:91-110 | the location code as written throws exactly when a location string parses to null |
| MountainViews.NormaliseLocation | src/store/mountains.ts:91-110 | the coordinates are read from the column when it is an object, or from what a location string parses to when that is an object; with no such object the location is (0,0); each coordinate is its number when numeric, `parseFloat` of its text or 0 when that fails, and 0 when missing or of any other kind; wherever the code as written does not throw, it agrees |
| MountainViews.JsonLocationScenario | src/store/mountains.ts:94-110 | a location column holding the text `{"lat":"10","lng":"20"}` becomes (10, 20) |
| MountainViews.NormalisePeak | src/store/mountains.ts:105-119 | id, name, description and image are kept. Altitude is 0 when its parse fails. Difficulty is 1 when its parse fails or yields 0, so it is never 0. Province and city are always present and default to the empty string |
| MountainViews.NormalisePeaks | src/store/mountains.ts:90-120 | one normalised peak per row, in row order |
| MountainViews.NormalisePeaksAsWritten | src/store/mountains.ts:90-127 | the row mapping as written yields nothing (the whole load is discarded) exactly when some row's location string parses to null; otherwise it yields the normalised peaks |
| MountainViews.NullLocationDiscardsAllRows | src/store/mountains.ts:94-110 | two rows, one with location text `null`: the code as written loads neither, the corrected mapping loads both |
| MountainViews.RowOfCheckin | src/store/mountains.ts:176-182 | the snake_case row written by `checkin` carries the id, user and peak, and `loadCheckins`' conversion maps it back to the same check-in |
| MountainViews.CheckinsOfRows | src/store/mountains.ts:145-153 | one check-in per row, in order, each converting back to its row |
| MountainViews.CheckinId | src/store/mountains.ts:167 | a generated id is `checkin-` followed by the non-empty decimal digits of the clock reading, with no leading zero for a positive reading |
| MountainViews.CheckinIdInjective | src/store/mountains.ts:167 | two check-ins get the same id exactly when created in the same millisecond |
| MountainViews.FindIndexById | src/store/mountains.ts:214 | `findIndex`: -1 iff no entry has the id, else the first position holding it |
| MountainViews.RemoveFirstById | src/store/mountains.ts:214-217 | with no entry for the id the list is unchanged; otherwise exactly the first entry with the id is removed, the others keep their order |
| MountainViews.CheckinThenDeleteRestores | src/store/mountains.ts:163-221 | a check-in with a fresh id, added and then deleted, leaves the list as it was |
| MountainViews.CheckinThenDeleteAfterCollision | src/store/mountains.ts:167 | when an older check-in has the same id, the delete removes the older one and the new one stays |
| MountainViews.FilteredPeaks | src/store/mountains.ts:20-36 | a peak is kept iff name, province and city all pass (AND, case-insensitive substring, empty filter passes); an empty or absent province or city never passes a non-empty filter; each kept peak appears as often as in the input |
| MountainViews.FilteredPeaksAppend | src/store/mountains.ts:20-36 | filtering a concatenation gives the filtered parts, concatenated, so the filter keeps order and repeats |
| MountainViews.FilteredIsSubsequence | src/store/mountains.ts:20-21 | filtering keeps the peaks' order |
| MountainViews.NoFiltersKeepsAll | src/store/mountains.ts:20-36 | with all three filters empty the filtered list is the peak list |
| MountainViews.FiltersIgnoreCase | src/store/mountains.ts:24-32 | lower-casing the search text, province filter and city filter leaves the filtered list unchanged |
| MountainViews.UserCheckins | src/store/mountains.ts:41-43 | exactly the check-ins for the peak by the current user; none when there is no user |
| MountainViews.UserCheckinsAppend | src/store/mountains.ts:41-43 | the user's check-ins of a concatenation are those of each part, concatenated |
| MountainViews.LatestIndex | src/store/mountains.ts:46-50 | the `reduce` picks a check-in with the greatest time, and on ties the first one, because it replaces only on strictly greater |
| MountainViews.PeakWithCheckinOf | src/store/mountains.ts:38-60 | the count is the number of the user's check-ins on the peak. `checkedIn` iff that count is positive. `checkinTime` equals `lastCheckinTime`: absent iff the count is 0, otherwise the greatest time among those check-ins |
| MountainViews.Summaries | src/store/mountains.ts:39-59 | one summary per peak, position by position |
| MountainViews.PeaksWithCheckin | src/store/mountains.ts:38-60 | same length and order as the filtered peaks |
| MountainViews.AppendCheckinCounts | src/store/mountains.ts:41-56 | appending the user's check-in on a peak raises that peak's count by one and makes it the latest time when no earlier one is later; other peaks keep their count |
| MountainViews.RemoveCheckinCounts | src/store/mountains.ts:41-56 | splicing out a check-in lowers the count of its peak by one when it was the user's, and no other count |
| MountainViews.CheckedInPeaks | src/store/mountains.ts:62-64 | exactly the summaries with `checkedIn`, each as often as in the input |
| MountainViews.CheckedInPeaksAppend | src/store/mountains.ts:62-64 | the checked-in summaries of a concatenation are those of each part, concatenated |
| MountainViews.CheckedInIsSubsequence | src/store/mountains.ts:62-64 | the checked-in summaries keep their relative order |
| MountainViews.CheckinRate | src/store/mountains.ts:70 | 0 when there are no peaks, between 0 and 100 otherwise, 100 when all are checked in |
| MountainViews.CheckedInTotals | src/store/mountains.ts:62-69 | the checked-in summaries are as many as the peaks the user has a check-in on, and their altitudes add up to those peaks' altitudes |
| MountainViews.StatsOf | src/store/mountains.ts:66-78 | `totalPeaks` counts all peaks, unfiltered. `checkedInCount` is the number of filtered peaks the user has a check-in on, at most the filtered count, which is at most `totalPeaks`. `totalAltitude` sums the checked-in filtered peaks. The rate lies in [0,100] and is 0 with no peaks |
| MountainViews.ProvinceValues | src/store/mountains.ts:264-269 | exactly the non-empty provinces of the peaks |
| MountainViews.Provinces | src/store/mountains.ts:263-271 | sorted, duplicate-free, no empty string, exactly the non-empty provinces of all peaks |
| MountainViews.CityValues | src/store/mountains.ts:275-281 | exactly the non-empty cities of peaks in the selected province (by equality), or of all peaks when none is selected |
| MountainViews.Cities | src/store/mountains.ts:274-283 | sorted, duplicate-free, no empty string; with a province selected, each city comes from a peak whose province equals it exactly |
| Mountains.MountainsStore.constructor | src/store/mountains.ts:9-15 | the store starts empty, not loading, with empty filters and `init` not yet run |
| Mountains.MountainsStore.LoadPeaks | src/store/mountains.ts:80-128 | on success `peaks` is the normalised rows; on failure it is unchanged; `isLoading` ends false |
| Mountains.MountainsStore.LoadCheckins | src/store/mountains.ts:130-161 | without a user nothing changes; otherwise on success `checkins` is the converted rows, on failure unchanged, and `isLoading` ends false |
| Mountains.MountainsStore.Checkin | src/store/mountains.ts:163-195 | without a user nothing is written or changed. Otherwise the row written carries the new id, the user and the peak. After a successful insert exactly that check-in is appended at the end; after a failed one `checkins` is unchanged |
| Mountains.MountainsStore.DeleteCheckin | src/store/mountains.ts:198-221 | without a user or after a failed delete nothing changes; otherwise the first entry with the id is removed |
| Mountains.MountainsStore.SelectPeak | src/store/mountains.ts:223-225 | the peak becomes the selected one |
| Mountains.MountainsStore.ClearSelectedPeak | src/store/mountains.ts:227-229 | no peak is selected |
| Mountains.MountainsStore.Init | src/store/mountains.ts:232-239 | the first call loads peaks and check-ins and ends not loading; later calls change nothing |
| Mountains.MountainsStore.SetSearchQuery | src/store/mountains.ts:242-244 | only the search text changes |
| Mountains.MountainsStore.SetProvinceFilter | src/store/mountains.ts:246-250 | sets the province and always clears the city |
| Mountains.MountainsStore.SetCityFilter | src/store/mountains.ts:252-254 | only the city filter changes |
| Mountains.MountainsStore.ResetFilters | src/store/mountains.ts:256-260 | all three filters are empty, so the filtered list is all peaks |
| Auth.UserOfSession | src/store/auth.ts:22-27 | id and creation time are copied; e-mail defaults to the empty string; the name defaults to the default label, so it is never empty |
| Auth.AuthStore.constructor | src/store/auth.ts:7-12 | no user, no error, every flag false |
| Auth.AuthStore.IsAuthenticated | src/store/auth.ts:149 | authenticated iff there is a user |
| Auth.AuthStore.Init | src/store/auth.ts:15-36 | does nothing once initialized. Otherwise it ends initialized and not loading, whether `getSession` succeeds or throws. It takes the session's user when there is one and otherwise keeps `user` |
| Auth.AuthStore.OnAuthStateChange | src/store/auth.ts:40-53 | the user is set from a session with a user, and cleared otherwise |
| Auth.AuthStore.Login | src/store/auth.ts:57-85 | succeeds iff sign-in reports no error. On success `error` is cleared; on failure it holds the message and `user` is unchanged. `isLoggingIn` ends false |
| Auth.AuthStore.Register | src/store/auth.ts:88-115 | the resend is attempted only after a successful sign-up with a non-empty e-mail, and an error it returns is ignored. The result is true iff sign-up succeeded and the resend did not reject. `isRegistering` ends false |
| Auth.AuthStore.Logout | src/store/auth.ts:118-130 | succeeds and clears the user iff sign-out does not reject; on a rejection the user stays; `isLoading` ends false |
| Auth.AuthStore.ResendVerificationEmail | src/store/auth.ts:133-147 | true iff resend succeeds; on failure `error` holds the message |
| Router.Resolve | src/router/index.ts:7-34 | the record found is in the table with the requested path; none iff no record has it |
| Router.RouteTable | src/router/index.ts:9-34 | `/login` does not require auth, `/` and `/stats` do, and no other path does |
| Router.Decide | src/router/index.ts:47-51 | redirect to `login` iff the target requires auth and there is no authenticated user; proceed otherwise |
| Router.LoginNeverRedirected | src/router/index.ts:10-17 | navigation to `/login` proceeds whatever the session, and the redirect target is a public route |
| Router.BeforeEach | src/router/index.ts:38-52 | runs the session store's `init` only when it is not initialized (and then ends initialized, with the session's user if it has one and `error`, `isLoggingIn` and `isRegistering` untouched), and redirects iff the target requires auth and there is no user afterwards |

## Left out

- The backend client, its configuration and the development proxy (`src/config/supabase.ts`, `vite.config.ts`): every call is a reply argument.
- Credentials: the e-mail, password and display name sent to sign-in and sign-up are not modelled. `Register` takes the e-mail only because the resend depends on it.
- The registration of the session listener with the backend: only the callback it installs is modelled (`OnAuthStateChange`).
- Asynchrony: each action is modelled by its final state. The `true` values that `isLoading`, `isLoggingIn` and `isRegistering` hold while a call is pending are not observable, and interleavings of concurrent actions are not modelled. `init` runs its two loads one after the other instead of through `Promise.all`.
- Reactivity: the computed views are functions recomputed from the state.
- Logging through `console.error`.
- Floating point: coordinates and `checkinRate` are exact reals, so rounding, `-0`, `NaN` and infinities are not modelled. `parseFloat` of a number is taken to give back that number.
- `parseInt` of a number is modelled as truncation toward zero. Numbers whose string form uses an exponent (`1e21`, `1e-7`) parse differently in JavaScript.
- Lower-casing covers ASCII letters only; `toLowerCase` also maps other scripts.
- The sort order compares Unicode scalar values, while JavaScript compares UTF-16 code units. The two differ only for characters outside the Basic Multilingual Plane.
- Dates are millisecond integers. `new Date(...)` on stored times is the identity, and invalid dates are not modelled.
- JavaScript arrays and functions are not among the row values. An array in a location column would behave like an object without `lat` and `lng`.
- Extra columns that the `...peak` spread copies onto a peak are not kept. Only the fields of the `Peak` type are.
- `user_metadata` is taken to be present on every session user, since reading `.name` of a missing one would throw. A peak's `name` is taken to be a string.
- The views and components the routes render. Route matching is by exact path; the router's case-insensitive and trailing-slash-tolerant matching is not modelled.
- Mountains.MountainsStore.LoadPeaks: stores the corrected normalisation (see Findings), so a location text that parses to `null` yields (0,0) instead of aborting the load.

## Findings

| source | as written | input that shows it | evidently intended | confidence | as-written member | corrected member |
|---|---|---|---|---|---|---|
| src/store/mountains.ts:94-110 | A location string is parsed, and the result's `lat` and `lng` are read without checking that it is an object. `JSON.parse` of the text `null` gives `null`, so reading `.lat` throws. The catch at line 123 then discards every row of the load. | a `peaks` row whose `location` column holds the text `null` (MountainViews.NullLocationDiscardsAllRows) | that row gets location (0,0) like any other malformed location, and the other rows load | medium, not executed | MountainViews.NormaliseLocationAsWritten | MountainViews.NormaliseLocation |
