# Oney tools — a Dafny model of the rate fetcher, the storage module and the shared helpers

This project models three parts of the Oney tools site.

- **The bank rate fetcher** (`scripts/fetch-rates.js`). It fetches home-loan
  products from seven Australian banks through the Consumer Data Standards
  banking API. Each request is retried with a growing delay. Each product's
  `lendingRates` are flattened into rate entries and then reduced to a
  nested quick-lookup summary: variable or fixed, then owner-occupied or
  investment, then the fixed term, then the LVR key, then the repayment
  key. The whole run is gathered into one report: a result per bank, the
  list of errors, and counters.
- **The browser storage module** (`core/storage.js`). It keeps JSON values
  under fixed keys of `localStorage` and `sessionStorage`. It covers the
  user profile with its defaults, updated with a deep merge; the history of
  recent calculations, newest first and at most ten; the preferences; and
  the query-string handling: `parseUrlParams`, the routing of
  `applyUrlParams` into profile updates and session fields, and the value
  filter of `generateUrl`.
- **The shared helpers** (`core/utils.js`): the ABN checksum, phone-number
  and e-mail checks, pass/warn/fail classification against thresholds,
  relative-time wording and `isEmpty`.

The project has these modules:

- `JsValues` (`values.dfy`) models JavaScript values: truthiness, own
  properties, `parseFloat`, `toFixed(4)` and the `JSON.stringify` /
  `JSON.parse` round trip.
- `Strings` (`strings.dfy`) and `Wrappers` (`wrappers.dfy`) are support
  modules.
- `Fetch`, `Rates` and `RateReport` model the fetcher.
- `Merging`, `UrlParams` and `Storage` model the storage module.
- `Utils` models the helpers.

Code that works step by step is written as methods with loops, and each is
proved equal to a specification function:

- the retry loop, `summarizeRates` and the two loops of `main`;
- the ABN loop and the `timeAgo` loop;
- the walk of `deepMerge`;
- the parameter loops of `parseUrlParams`, `applyUrlParams` and
  `generateUrl`.

The two storage areas are the fields of the class `Storage.Store`, whose
methods update them. The properties the source promises are proved as
lemmas about those functions.

The model takes the network, the clock and `Date.now()` as parameters:

- **Network:** the network is a function from the attempt number to what
  that attempt runs into. It is one of: a response (status, status text and
  a body that parses or not), a timeout (the abort after
  `Fetch.RequestTimeoutMs`, 15 s), or a network error.
- **Delays:** `FetchWithRetry` returns the delays it would sleep rather
  than sleeping them.
- **Clock:** the clock reading is the ISO string `now`, and `Date.now()` is
  the integer `id`.

Two behaviours of the code are easy to misread:

- **Bank status.** A bank is marked failed only when it had a failing
  product *and* every product entry carries a truthy `error`
  (`scripts/fetch-rates.js:298-303`). So a bank with no products counts as
  a success. `RateReport.BankStatus` states this exactly.
- **History cap.** `saveCalculation` pops at most one entry after the
  `unshift` (`core/storage.js:223-224`). A history that already held more
  than ten items keeps its length rather than being cut to ten.
  `Storage.PushedShape` states this.

## Model

| member | source | states |
|---|---|---|
| Fetch.FetchWithRetry | scripts/fetch-rates.js:100-129 | The loop settles exactly as `RetryOutcome`. With `retries < 1` there is no attempt and the result is `undefined`. Otherwise every attempt before the last one made failed. A success resolves with the body of the first successful attempt. A rejection happens only at attempt `retries`, with "Failed after N attempts: " and that attempt's error ("Request timeout" for an abort, "HTTP status text" for a non-2xx response). The backoff delays are 2000·k ms after attempt k. |
| Fetch.RetryAllFail | scripts/fetch-rates.js:116-122 | When every allowed attempt fails, the call rejects with the retry count and the last attempt's error message. |
| Fetch.RetryFirstSuccess | scripts/fetch-rates.js:101-115 | The first attempt that succeeds settles the call with its parsed body, whatever later attempts would do. |
| Fetch.AlwaysTimeout | scripts/fetch-rates.js:94-96 | An endpoint that always hits the 15 s abort timer rejects after three attempts with "Failed after 3 attempts: Request timeout". |
| Rates.OrNull | scripts/fetch-rates.js:153-163 | `x \|\| null` for a string property: it keeps exactly the truthy (present, non-empty) strings. |
| Rates.ParseRate | scripts/fetch-rates.js:154-156 | A rate is `null` exactly when the raw string is falsy; otherwise it is what `parseFloat` reads (a number or NaN). |
| Rates.RatePercent | scripts/fetch-rates.js:155-157 | The percentage is `null` exactly when the raw string is falsy. It is a number exactly when the parsed rate is, and then within 0.00005 of 100 times it (`toFixed(4)`). |
| Rates.FixedYearsLeftmost | scripts/fetch-rates.js:146-150 | `fixedYears` is N exactly when the leftmost occurrence of `P<digits>Y` in a truthy `additionalValue` spells N. |
| Rates.FixedYearsNone | scripts/fetch-rates.js:146-150 | The search finds nothing exactly when no `P<digits>Y` occurs at or after its start. |
| Rates.FixedYearsCanonical | scripts/fetch-rates.js:146-150 | The ISO-8601 duration `P<n>Y` reads back as n years. |
| Rates.FixedYearsMonths | scripts/fetch-rates.js:146-150 | A duration in months (`P10M`) has no fixed term. |
| Rates.FirstLvrTier | scripts/fetch-rates.js:141-143 | `tiers.find`: the index of the first tier whose truthy name, upper-cased, contains "LVR"; none before it qualifies; `None` when no tier qualifies. |
| Rates.ExtractRate | scripts/fetch-rates.js:152-165 | One flat entry per lending rate. The rate and its percentage are null exactly when the raw rate is falsy. `fixedYears` comes from `additionalValue`. `lvrMin`/`lvrMax` come from the first LVR tier, and are null when there is none. The rate type is kept exactly when it is truthy. The comparison rate is parsed and scaled as the rate is, and is null exactly when falsy. The repayment type, loan purpose and the two additional-info fields are `x \|\| null` of the raw fields. |
| Rates.ExtractLendingRates | scripts/fetch-rates.js:136-167 | A payload without `lendingRates` gives no entries. Otherwise it gives one entry per lending rate, in order, each equal to `ExtractRate` of it. |
| Rates.SummarizeRates | scripts/fetch-rates.js:190-231 | The loop computes the left-to-right fold `SummaryOf` of the entries. |
| Rates.SummaryBuckets | scripts/fetch-rates.js:191-194 | The summary always has exactly the `oo` and `inv` buckets under both `variable` and `fixed`. |
| Rates.SummaryVariableSlot | scripts/fetch-rates.js:197-215 | A variable slot (purpose, LVR key, repayment key) holds the percentage of the last entry with a truthy rate, type VARIABLE and those keys. It is absent when there is no such entry. |
| Rates.SummaryFixedSlot | scripts/fetch-rates.js:197-227 | A fixed slot (purpose, term, LVR key, repayment key) holds the percentage of the last entry with a truthy rate, type FIXED, a truthy term of that many years and those keys. It is absent when there is none. |
| Rates.SummaryIgnores | scripts/fetch-rates.js:197-227 | An entry placed in neither table (falsy rate, another type, or a fixed rate without a truthy term) leaves the summary as if it were absent. |
| Rates.AddVariable | scripts/fetch-rates.js:209-215 | Adding one entry changes exactly its own variable slot, when it is placed there. |
| Rates.AddFixed | scripts/fetch-rates.js:217-227 | Adding one entry changes exactly its own fixed slot, when it is placed there. |
| Rates.RatePercentExample | scripts/fetch-rates.js:154-155 | The raw rate "0.0539" parses to 0.0539 and becomes the percentage 5.39. |
| Rates.ParseFloatExample | scripts/fetch-rates.js:154 | `parseFloat("0.0539")` is 0.0539. |
| Rates.SummaryExample | scripts/fetch-rates.js:199-215 | Two owner-occupied variable entries without an LVR tier, one P&I and one interest-only, fill one `default` cell with both percentages. |
| RateReport.FetchProductRates | scripts/fetch-rates.js:170-187 | The product fetch settles as `ProductFetchOf`. A loaded record comes from a successful attempt's `data`, with the name falling back to the id. When all three attempts fail, it fails with the retry message of the third. |
| RateReport.RunBank | scripts/fetch-rates.js:253-303 | One bank's loop: the product results in order, the logged errors, and the success and failure counts, each equal to its specification function. |
| RateReport.Run | scripts/fetch-rates.js:234-310 | `main`'s loops produce exactly `ReportOf(network, registry)`: banks in order, errors concatenated, counters summed. |
| RateReport.BankProducts | scripts/fetch-rates.js:261-296 | Every product appears exactly once, in order, under its name. The entry is an error exactly when its fetch failed, and then carries that message and the product id. Otherwise it carries the record and its summary. |
| RateReport.BankCounts | scripts/fetch-rates.js:262-295 | Each product is counted once, as a success or as a failure, and the bank's error list has exactly as many entries as failed products. |
| RateReport.BankErrorsFailed | scripts/fetch-rates.js:281-290 | Each logged error names the bank key, and the name and id of a product whose fetch failed with that message. Every failed product has its own entry (bank key, name, id, message) in the list. Together with `BankCounts` (as many entries as failures), this gives one entry per failed product. |
| RateReport.EveryErroredResults | scripts/fetch-rates.js:298 | `every(p => p.error)` holds exactly when every product's fetch failed with a non-empty message. |
| RateReport.FailedInPositive | scripts/fetch-rates.js:292 | `bankHasError` is set exactly when some product's fetch failed. |
| RateReport.BankStatus | scripts/fetch-rates.js:298-303 | A bank is marked failed exactly when it has at least one product and every product failed with a non-empty message. |
| RateReport.ReportBanks | scripts/fetch-rates.js:253-305 | The report has one entry per configured bank, in configuration order, under its key. |
| RateReport.ReportCounts | scripts/fetch-rates.js:238-251 | Total products = successes + failures. The number of errors = failed products. Successful banks + failed banks = total banks = the number of configured banks. |
| RateReport.TwoProductRun | scripts/fetch-rates.js:234-310 | One bank whose first product loads and whose second fails three times gives stats (1, 1, 0, 2, 1, 1), one error for the second product with its retry message, and a successful bank. |
| Utils.IsValidAbn | core/utils.js:264-278 | `isValidABN` is true exactly when the string has eleven digits once non-digits are dropped, and the weighted sum (first digit minus one) is divisible by 89. |
| Utils.JsRem | core/utils.js:277 | JavaScript's `%` is zero exactly when the Euclidean remainder is; otherwise it has the sign of the dividend. |
| Utils.AbnIgnoresSeparators | core/utils.js:265 | Non-digit characters inserted anywhere do not change whether an ABN is valid. |
| Utils.AbnNeedsElevenDigits | core/utils.js:266 | A string with anything but eleven digits is never a valid ABN. |
| Utils.AbnExample | core/utils.js:264-278 | The register's example 51 824 753 556 is valid. |
| Utils.IsValidPhone | core/utils.js:256-259 | A phone number is valid exactly when it has 8 to 12 digits. |
| Utils.PhoneIgnoresSeparators | core/utils.js:257 | Inserted separators never change whether a phone number is valid. |
| Utils.IsValidEmail | core/utils.js:248-251 | `isValidEmail`: a valid address has at least five characters and contains an `@`. `EmailRule` states exactly which strings are valid. |
| Utils.EmailRule | core/utils.js:248-251 | The regular expression accepts exactly the strings with no white space, exactly one `@` with something before it, and after it a `.` with something on both sides. |
| Utils.GetStatus | core/utils.js:183-193 | `getStatus`: pass exactly when the value is on the good side of the pass threshold; fail only when it is past both thresholds; with equal thresholds there is never a warn. `StatusHigherIsBetter`, `StatusMirror` and `StatusMonotone` give the rest. |
| Utils.StatusHigherIsBetter | core/utils.js:183-187 | Higher-is-better: pass iff value ≥ pass threshold; warn iff below it and ≥ warn threshold; fail iff below both. This is the branch structure read directly; `StatusMirror` and `StatusMonotone` are the independent properties. |
| Utils.StatusMirror | core/utils.js:188-192 | Lower-is-better is higher-is-better on the negated value and thresholds. |
| Utils.StatusMonotone | core/utils.js:183-187 | With higher-is-better, a larger value never gets a worse status. |
| Utils.TimeAgo | core/utils.js:100-121 | The loop returns exactly `TimeAgoOf` of the elapsed seconds. |
| Utils.FirstUnitSpec | core/utils.js:114-119 | The unit chosen is the first, longest first, that fits at least once. |
| Utils.JustNow | core/utils.js:121 | `timeAgo` says "just now" exactly when less than a minute has passed. |
| Utils.TimeAgoWording | core/utils.js:114-118 | Otherwise the text is the count of the first fitting unit, the unit, plural `s` exactly when the count exceeds one, and "ago". |
| Utils.TimeAgoOneHour | core/utils.js:100-121 | 3600 s is "1 hour ago". |
| Utils.TimeAgoTwoHours | core/utils.js:100-121 | 7200 s is "2 hours ago". |
| Utils.TimeAgoHalfMinute | core/utils.js:100-121 | 30 s is "just now". |
| Utils.IsEmpty | core/utils.js:398-403 | `isEmpty`: every falsy value is empty, and only falsy values, arrays and objects can be empty. `IsEmptyMeaning` gives the exact rule. |
| Utils.IsEmptyMeaning | core/utils.js:398-403 | Falsy values are empty. Arrays and objects are empty exactly when they have no own properties. Every other truthy value is not empty. |
| JsValues.Spread | core/storage.js:370 | `{...a, ...b}` has the keys of both; b's values win, and a's remain elsewhere. |
| JsValues.OwnProps | core/storage.js:385-386 | The own enumerable properties: an object's properties, an array's indices, nothing for a primitive. |
| JsValues.JsonSafeRoundTrip | core/storage.js:71-83 | A value that JSON represents exactly survives `JSON.parse(JSON.stringify(v))` unchanged. |
| JsValues.JsonifyIdempotent | core/storage.js:71-83 | A second round trip changes nothing. |
| JsValues.ParseFloatDecimal | core/storage.js:291 | A text starting with `digits.digits` is read by `parseFloat` as that decimal. |
| Merging.DeepMerge | core/storage.js:382-396 | `deepMerge` returns exactly `DeepMergeOf`: `None` for the `TypeError` of `key in target` on a non-object target, otherwise the merged object. |
| Merging.MergeKey | core/storage.js:386-391 | One turn of the walk. It throws exactly for an object source value on a non-object target. Otherwise it writes the recursive merge where both sides hold objects, and the source's value everywhere else. |
| Merging.MergeProps | core/storage.js:382-396 | The merged keys are the target's and the source's. A key only in the target keeps its value. Where both sides hold objects the merge recurses. Everywhere else the source's value wins. |
| Merging.MergeAt | core/storage.js:383-391 | Each merged value comes from the source's write at that key, or from the target's copy. |
| Merging.MergeShallow | core/storage.js:387-390 | A source with no object values merges as the spread `{...target, ...source}`. |
| Merging.MergeEmptySource | core/storage.js:383 | Merging an empty source copies the target's own properties. |
| Merging.MergeSelf | core/storage.js:382-396 | Merging a tree of plain objects into itself gives it back. |
| Merging.MergeNestedExample | core/storage.js:387-388 | Merging `{a: {y: 3}}` into `{a: {x: 1, y: 2}}` keeps `x` and gives `{a: {x: 1, y: 3}}`. |
| UrlParams.PutLookup | core/storage.js:292 | After `data[k] = v`, key k reads v and every other key reads as before. |
| UrlParams.ParsedValue | core/storage.js:291-292 | A query value is stored as the number `parseFloat` reads once commas are removed, or as the original text when that is NaN. |
| UrlParams.ParseUrlParams | core/storage.js:255-297 | The loop computes `ParsedParams(Mapping, params)`, whose keys are distinct. |
| UrlParams.ParsedField | core/storage.js:287-294 | Each field holds the parsed value of the last query pair whose lower-cased name maps to it. A field that no pair maps to is absent. |
| UrlParams.ParsedFieldsMapped | core/storage.js:260-289 | Every field filled is one of the mapping's targets. |
| UrlParams.RouteSession | core/storage.js:308-310 | A key goes to the session under name n exactly when it is `_` followed by n. |
| UrlParams.RouteProfile | core/storage.js:311-317 | A key goes to profile section a, field b exactly when it does not start with `_` and is a and b, neither containing `.`, joined by `.`; other keys are dropped. |
| UrlParams.RouteDistinct | core/storage.js:307-319 | Two different keys that are not dropped never land in the same place. |
| UrlParams.RouteParams | core/storage.js:304-319 | The routing loop computes `Routed(params)`. |
| UrlParams.RoutedPlaces | core/storage.js:307-319 | For an object's entries, every session entry lands under its name with its value, and every profile entry at its section and field with its value. Every routed name, section and field comes from an entry. |
| UrlParams.UpdatesValue | core/storage.js:315-323 | The profile updates are passed as an object with one nested object per section. |
| UrlParams.GenerateUrl | core/storage.js:337-347 | The setting loop computes `Generated(existing, data)`. |
| UrlParams.GeneratedFresh | core/storage.js:340-344 | A link with no query of its own gets exactly the kept entries of `data`, in order. A value is kept unless it is `null`, `undefined`, `''` or `0`. |
| UrlParams.GeneratedSets | core/storage.js:340-344 | Whatever the link held, each kept entry's name reads its value. A name absent from `data` keeps what it read before. |
| UrlParams.SetParamSelf | core/storage.js:342 | After `searchParams.set(k, v)`, k reads v. |
| UrlParams.SetParamOther | core/storage.js:342 | `searchParams.set(k, v)` leaves what every other name reads. |
| Storage.Serialize | core/storage.js:83 | `JSON.stringify(undefined)` stores text that does not parse back. Anything else is stored as its JSON round trip, which is JSON-safe. |
| Storage.Read | core/storage.js:67-76 | `get`: an absent key gives the default, and an area that holds only JSON round trips, read with a JSON-safe default, gives a JSON-safe value. `ReadWritten` relates it to `set`. |
| Storage.ReadWritten | core/storage.js:67-89 | `get` after a successful `set` gives the value through the JSON round trip (or the default for `undefined`). It gives the value itself when JSON represents it. Other keys are unaffected. |
| Storage.ProfileOf | core/storage.js:118-126 | `getProfile` always returns a truthy profile: the stored one when it is truthy, else a fresh copy of the defaults. |
| Storage.ProfilePersists | core/storage.js:118-126 | After `getProfile` on a writable store, later calls return what it returned, through the JSON round trip, and write nothing more. |
| Storage.UpdatedProfileThrows | core/storage.js:131-133 | `updateProfile` throws exactly when the stored profile is truthy but not an object and some update is itself an object. |
| Storage.UpdatedProfileFields | core/storage.js:131-137 | The saved profile has the keys of the profile and of the updates, merged as `deepMerge` does, plus the new `lastUpdated`. |
| Storage.SectionUpdatedOnly | core/storage.js:142-150 | `updateSection` leaves a missing or falsy section's profile unchanged. Otherwise the section becomes its spread with the data, `lastUpdated` is stamped, and every other key is unchanged. |
| Storage.PushedShape | core/storage.js:222-224 | The new calculation is first and the older ones follow in order. Only the oldest is dropped, and only when the history was full. A history within ten stays within ten. |
| Storage.FilterToolSpec | core/storage.js:236 | The filter throws exactly when some element is `null` or `undefined`. Otherwise it keeps exactly the elements whose `tool === toolId`. |
| Storage.FilterToolConcat | core/storage.js:236 | Filtering a joined history is filtering each part. |
| Storage.SliceEnd | core/storage.js:238 | `slice(0, limit)` ends at `min(limit, length)` for a non-negative limit, and counts from the end for a negative one. |
| Storage.Recent | core/storage.js:233-239 | `getRecentCalculations`: the result is a list or (only without a tool filter) a sliced string, and a list holds at most `limit` entries for a non-negative `limit`; `None` is the `TypeError`. `RecentIsPrefix` and `RecentAfterSave` state which entries. |
| Storage.RecentIsPrefix | core/storage.js:233-239 | With a truthy tool id, the listed calculations are the first `limit` of that tool's, in stored order, and every one is in the history and matches. |
| Storage.RecentAfterSave | core/storage.js:213-239 | After saving a calculation for a tool, that tool's recent list starts with the saved record as read back from JSON. |
| Storage.Preferences | core/storage.js:356-363 | `getPreferences`: over an area holding only JSON round trips, the preferences are JSON-safe (the stored ones or the defaults). `PreferencesOverlay` relates it to `updatePreferences`. |
| Storage.PreferencesOverlay | core/storage.js:356-373 | After `updatePreferences(prefs)`, reading the preferences gives the earlier ones (or the defaults) overlaid with `prefs`. |
| Storage.SessionNameDistinct | core/storage.js:199 | Distinct session names give distinct `sessionStorage` keys. |
| Storage.Store.Set | core/storage.js:81-89 | `set` stores the serialized value when the area accepts writes, and returns whether it did. Nothing else changes. |
| Storage.Store.Remove | core/storage.js:94-102 | `remove` deletes the key and returns true. Nothing else changes. |
| Storage.Store.ClearAll | core/storage.js:107-109 | Exactly the module's five keys are removed from `localStorage`. Everything else keeps its value. |
| Storage.Store.GetProfile | core/storage.js:118-126 | It returns `ProfileOf` and saves a fresh default profile when the stored one is falsy. |
| Storage.Store.UpdateProfile | core/storage.js:131-137 | It returns the stamped deep merge, or `None` for its `TypeError` (after only `getProfile`'s write). It saves the merged profile. |
| Storage.Store.UpdateSection | core/storage.js:142-150 | It returns `SectionUpdated` of the profile, and saves it only when the section was truthy. |
| Storage.Store.SaveCalculation | core/storage.js:213-228 | A stored history that is not a list throws (`None`) and changes nothing. Otherwise it saves the history with the new record unshifted and capped, and returns that record. |
| Storage.Store.UpdatePreferences | core/storage.js:368-373 | It returns and saves the current preferences spread with `prefs`. |
| Storage.Store.SetSession | core/storage.js:197-204 | It stores the serialized value under `oney_session_<key>` when the session area accepts writes. |
| Storage.Store.StoreSession | core/storage.js:327-329 | Each session field is stored under its session key. Every other session key is unchanged. |
| Storage.Store.ApplyUrlParams | core/storage.js:302-332 | It parses, routes, calls `updateProfile` only when there are profile updates, then stores the session fields. It returns the routing, or `None` when `updateProfile` throws, in which case no session field has been stored. |

## Left out

- **Not modelled:**
  - **Network, console and file I/O.** `fetch`, the `AbortController` and its timer, `sleep`, `console` output and the `fs` writing of `data/rates.json` are not modelled. Attempt outcomes are a parameter (a timeout is one outcome), and the sleeps are returned as a list of delays.
  - **Timestamps.** `fetchedAt`, `fetchedAtAEST` and the per-bank `fetchedAt` are left out of the report. `new Date()` and `Date.now()` are parameters.
  - **The 500 ms pause between banks.** It is only the constant `RateReport.DelayBetweenBanksMs`; `Run` does not wait.
  - **The fatal-error handler and the exit code** of `main`.
- **Reduced to simpler values:**
  - **`fetchProductRates` URL handling.** The URL and the `encodeURIComponent` of the product id are not built. The network is indexed by (base URL, product id).
  - **Response bodies.** A body that parses to something other than an object (for example `null`) is not modelled. A body is an object with or without `data`.
  - Rates.ExtractLendingRates and RateReport.FetchProductRates: **payload field types.** The payload fields carry the banking standard's types: `lendingRates` is a list of rate objects, `tiers` a list of tier objects, and `name`, `rate` and `additionalValue` are strings or absent. Other JSON types make the code throw a TypeError, which `main` records as a product error. Examples are a `lendingRates` that is an object, a `null` rate or tier, a numeric tier `name` (`toUpperCase`) and a numeric `additionalValue` (`.match`). Those failures are not modelled. Neither is a numeric `rate`, which `parseFloat` would accept.
  - **`timeAgo` input.** It takes the elapsed whole seconds rather than a date. The `Date` parsing and the `Math.floor` of the milliseconds are left out.
  - **Numbers are exact reals.** There is no floating-point rounding, infinity or `-0`. `parseFloat` reads `[sign]digits[.digits]` only, with no exponents and no `Infinity`.
  - **Upper/lower-casing is ASCII only.**
- **JavaScript object details:**
  - **Inherited properties.** Objects are maps of their own properties. Inherited properties such as `constructor` (which `mapping[...]`, `key in target` and `profileUpdates[...]` would see) are not modelled.
  - **Key order.** Object key order is kept only where it matters: the parsed parameters and the link's query are ordered entry lists.
  - **Strings as objects.** The character properties of strings are not modelled, so spreading a string gives nothing.
- **Storage behaviour:**
  - **Storage exceptions.** `localStorage` and `sessionStorage` exceptions are modelled only as an area that refuses writes. `removeItem` always succeeds.
  - **`clearAll`** clears `localStorage` only, as the code does. `sessionStorage` is untouched.
  - **`getRecentCalculations`** for a `limit` that is not an integer is not modelled.
  - **`updateSection` on a profile that is an array or a string** (stored by hand) is treated as leaving it unchanged.
- **URL handling:**
  - **`parseUrlParams`** takes the query's decoded name/value pairs. `URLSearchParams` decoding is not modelled.
  - **`generateUrl`** returns the link's name/value pairs after `searchParams.set`. The values are not converted with `String(...)`, and the URL is not serialized or resolved against `window.location.origin`.
- **Not proved:**
  - **Distinct names.** In the source, the bank keys and each bank's product names are keys of object literals, so they are distinct. The model keeps them as lists of pairs, in order, and does not require them to be distinct. For a configuration that repeats a name, the model keeps every entry where the code would overwrite the earlier one. `Registry` has no repeats, but this is not proved.
- **Other functions** are outside this model:
  - in the storage module: `getSection`, `clearCalculations`, `getStorageStats`, `isAuthenticated`, `setAuthenticated` and `getSession`;
  - in the helpers: the formatting, financial-calculation and DOM helpers, `debounce`, `throttle`, `generateId`, `deepClone` and `sleep`;
  - `core/components.js` is not part of this model.
- **Utils.GetStatus:** a `NaN` value is not modelled (the model's values are reals).
