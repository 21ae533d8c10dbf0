# MEMORA business system — a Dafny model of its form, session and release logic

MEMORA is a React front end over Supabase and the Kakao map services. Sales
staff use it to file wired and wireless telecom subscriptions, and
administrators use it to maintain users and the reference dictionaries. Most
of its code is glue between screens and the backend. This project models the
pieces of deterministic logic inside that glue and proves what they promise:

- the two subscription schemas, as a total validation function. It returns
  either the accepted record or a map from each failing field to its message
  (`WiredSchema`, `WirelessSchema`, with the rule kinds in `Schema`);
- the dictionary pipeline of the form pages: active entries only, ascending by
  `order`, folded into a category → list map. Also the administration page's
  category filter (`Dictionary`, `AdminDictionaries`);
- the submit handlers of the two subscription pages: the inserted row, its
  author and `PENDING` status, and the error and navigation that follow
  (`WiredNewPage`, `WirelessNewPage`, `Submission`);
- the session store: user and loading flag, the startup session check,
  auth-change notifications, login with its synthetic e-mail address, and
  logout with its redirect. It is modelled both event by event and over whole runs
  (`AuthContext`);
- the login page: the company-code filter, the empty-field guard, the
  submit-enabled state, the browser's own checks on a click and how an
  attempt ends (`LoginPage`);
- the three address pickers: the keyword search gate, the road/lot address
  choice, the postal-code fallback chain and the reset after a selection
  (`KakaoLocal`, `KakaoAddressModal`, `KakaoAddressSearch`,
  `AddressSearchButton`);
- the two administration forms: edit prefill, create-or-update, the reset,
  the order parsing, the category list the browser enforces, the role
  selector and the activation toggle with its effect on the user table
  (`AdminDictionaries`, `AdminUsers`);
- the two release scripts' patch bump "M.m.p" → "M.m.(p+1)". This includes
  JavaScript's `undefined`/`NaN` on malformed versions and the
  database variant's default version (`Version`, `VersionBump`,
  `VersionBumpDb`).

Everything the code gets from outside is a parameter of the model. This covers
the backend's query results, the Kakao responses, the popup's outcome and the
date conversion `toIso`. The shared helpers are `Wrappers` (`Option`,
`Result`), `JsText` (JavaScript's `||` on strings, `indexOf`) and `Decimal`
(numerals, `Number` and `parseInt` on decimal text with an optional sign).

Field values that the schemas see are `Option<string>`. `None` is a field the
page never registered (`undefined`), and `Some(s)` is what an input produced.

## Model

| member | source | states |
|---|---|---|
| Schema.Check | src/schemas/wired.ts:4-15 | A length rule passes exactly when the value is present and long enough. An enum rule passes exactly when the value is one of the options. An optional field always passes. A missing value gets the library's "Required" message, or the enum's own required message. A present but short value gets the field's own message. |
| WiredSchema.RuleAgrees | src/schemas/wired.ts:3-16 | The rule table matches the field-by-field acceptance rules, which are written independently of it. |
| WiredSchema.ErrorMap | src/schemas/wired.ts:3-16 | A field has an entry exactly when it fails, and the entry is the message its rule gives. |
| WiredSchema.AcceptableIffNoErrors | src/schemas/wired.ts:3-16 | The whole record is acceptable exactly when no field has an error. |
| WiredSchema.Validate | src/schemas/wired.ts:3-16 | The result is Ok exactly when the record is acceptable. On rejection the error map is non-empty and lists exactly the failing fields. On acceptance every field is carried over unchanged, and the payment method is one of the two codes. |
| WiredSchema.RejectionMessages | src/schemas/wired.ts:4-10 | A name under 2 characters, a phone under 10, an empty postal code and a missing payment method each produce their own message under their own field. |
| WiredSchema.PaymentMethodIsEnum | src/schemas/wired.ts:10 | Any payment method other than ACCOUNT or CARD is rejected with the enum message naming the value received. |
| WiredSchema.NoCrossFieldRule | src/schemas/wired.ts:8-12 | An acceptable record stays accepted when account and card details are removed, including ACCOUNT without account details and CARD without card details. |
| WiredSchema.OptionalFieldsIrrelevant | src/schemas/wired.ts:8-12 | Changing the detail address, account info or card info changes neither acceptance nor the error map. |
| WiredSchema.SameErrorsWhenOnlyOptionalDiffer | src/schemas/wired.ts:3-16 | Two inputs that agree on every non-optional field have the same error map. |
| WirelessSchema.RuleAgrees | src/schemas/wireless.ts:3-15 | The rule table matches the field-by-field acceptance rules. |
| WirelessSchema.ErrorMap | src/schemas/wireless.ts:3-15 | A field has an entry exactly when it fails, and the entry is its rule's message. |
| WirelessSchema.AcceptableIffNoErrors | src/schemas/wireless.ts:3-15 | The record is acceptable exactly when no field has an error. |
| WirelessSchema.Validate | src/schemas/wireless.ts:3-15 | The result is Ok exactly when the record is acceptable. On rejection the error map lists exactly the failing fields. On acceptance every field is carried over unchanged. |
| WirelessSchema.RejectionMessages | src/schemas/wireless.ts:4-9 | A short name and a short phone each get their own message. A missing postal code gets "Required", and an empty one gets the postal-code message. |
| WirelessSchema.OptionalFieldsIrrelevant | src/schemas/wireless.ts:8-11 | The detail address and the authentication value never change acceptance or the error map. |
| WirelessSchema.SameErrorsWhenOnlyOptionalDiffer | src/schemas/wireless.ts:3-15 | Inputs that agree on every non-optional field have the same error map. |
| Dictionary.OfCategory | src/pages/admin/AdminDictionariesPage.tsx:57 | The result holds exactly the rows of the category, as a subsequence of the input (order kept). It is empty for a category that does not occur. |
| Dictionary.ActiveOnly | src/pages/WiredNewPage.tsx:32 | The result holds exactly the active rows, each as often as in the input, in input order. |
| Dictionary.Insert | src/pages/WiredNewPage.tsx:33 | Inserting into a list sorted by order keeps it sorted and adds exactly that one entry. |
| Dictionary.SortByOrder | src/pages/WiredNewPage.tsx:33 | The result is sorted ascending by order and is a permutation of the input. |
| Dictionary.ActiveByOrder | src/pages/WiredNewPage.tsx:29-33 | The query returns exactly the active entries, each as often as in the table, sorted ascending by order. |
| Dictionary.Group | src/pages/WiredNewPage.tsx:36-40 | The map's keys are exactly the categories present. Each key holds that category's rows in input order. |
| Dictionary.Load | src/pages/WiredNewPage.tsx:35-45 | An error or a missing result leaves the map empty. So does a row whose category is the name of a property every object inherits ("constructor", "toString", "__proto__" and the rest), because the fold then throws. Otherwise the map is the grouping of the rows. |
| Dictionary.InheritedCategoryEmptiesAll | src/pages/WiredNewPage.tsx:36-44 | One entry filed under "constructor" leaves the page with no dictionary at all, whatever else was fetched. |
| Dictionary.GroupShape | src/pages/WiredNewPage.tsx:36-40 | No group is empty. Every row sits in the group of its own category. Each group is a subsequence of the input. |
| Dictionary.CountPreserved | src/pages/WiredNewPage.tsx:36-40 | Summed over the categories, the group sizes equal the number of rows, so nothing is lost or duplicated. |
| Dictionary.SortedSubsequence | src/pages/WiredNewPage.tsx:33-40 | A subsequence of a list sorted by order is itself sorted, so sorted input gives sorted groups. |
| Dictionary.FormGroups | src/pages/WirelessNewPage.tsx:25-36 | Each group of the map a form page builds is sorted by order. It holds each entry exactly as often as the table does when the entry is active and of the group's category, and never otherwise. Every active entry's category is present. |
| Dictionary.ActiveCategoryCounts | src/pages/WiredNewPage.tsx:29-40 | One category of the sorted active rows holds each entry as often as the table does when it is active and of that category, and never otherwise. |
| Dictionary.PlanNamesComeOutOrdered | src/pages/WiredNewPage.tsx:29-40 | Two plan entries fetched in the wrong order come out grouped in ascending order. |
| Submission.AuthorId | src/pages/WiredNewPage.tsx:59 | The author is present exactly when a user is signed in, and it is that user's id. |
| Submission.Finish | src/pages/WiredNewPage.tsx:64-70 | Loading always ends. A successful insert navigates to the list page and clears the error. A failed one shows the backend's message when it is non-empty, and the fixed fallback otherwise. |
| WiredNewPage.Payload | src/pages/WiredNewPage.tsx:57-62 | The inserted row is PENDING and carries the signed-in user's id, or none. |
| WiredNewPage.PayloadCarriesForm | src/pages/WiredNewPage.tsx:57-62 | Reading the inserted row back gives the validated data, with only the birth date converted. |
| WiredNewPage.Submit | src/pages/WiredNewPage.tsx:50-71 | Something is inserted exactly when the schema accepts. A rejection leaves the page state as it was and shows the failing fields. An acceptance inserts the validated data with author and status, then finishes as the backend answered. |
| WiredNewPage.EmptyZipBlocksInsert | src/schemas/wired.ts:9 | A form with an empty postal code is never inserted, and the postal-code field shows its message. |
| WiredNewPage.SelectAddress | src/pages/WiredNewPage.tsx:140-143 | The address search sets the address and postal code to the callback's arguments and leaves every other field as it was. |
| WirelessNewPage.Payload | src/pages/WirelessNewPage.tsx:53-58 | The inserted row is PENDING and carries the signed-in user's id, or none. |
| WirelessNewPage.PayloadCarriesForm | src/pages/WirelessNewPage.tsx:53-58 | Reading the row back gives the validated data with the birth date converted. |
| WirelessNewPage.Submit | src/pages/WirelessNewPage.tsx:46-67 | Something is inserted exactly when the schema accepts. A rejection leaves the state alone. An acceptance inserts the data with author and status, and finishes as the backend answered. |
| WirelessNewPage.PageValues | src/pages/WirelessNewPage.tsx:84-195 | The page's form yields no postal code, detail address or authentication value. Every other field comes from an input. |
| WirelessNewPage.PageNeverSubmits | src/pages/WirelessNewPage.tsx:18-20 | Whatever the user enters, the page inserts nothing and its state is unchanged. The postal code is rejected with "Required". |
| WirelessNewPage.CorrectedPageSubmits | src/schemas/wireless.ts:3-15 | With a postal-code input registered, values meeting every length rule are inserted and carry what was entered. |
| AdminDictionaries.Filter | src/pages/admin/AdminDictionariesPage.tsx:55-61 | With no category selected, the list is the whole list. Otherwise it holds exactly the selected category's entries. It is a subsequence of the input in both cases. |
| AdminDictionaries.FilterAgreesWithGroup | src/pages/admin/AdminDictionariesPage.tsx:55-61 | Filtering by a category gives exactly the list the form pages' grouping keeps for it, or nothing when the category has no entries. |
| AdminDictionaries.OrderInput | src/pages/admin/AdminDictionariesPage.tsx:177 | The stored order is the value of the text's leading digits, negated after a minus sign, and 0 when the text starts with neither a sign nor a digit. |
| AdminDictionaries.OrderInputReadsLeadingNumber | src/pages/admin/AdminDictionariesPage.tsx:177 | A number typed in decimal is stored as that number, with its sign. Anything after its digits (a fraction, an exponent) is dropped. |
| AdminDictionaries.NonNumericOrderIsZero | src/pages/admin/AdminDictionariesPage.tsx:177 | Text that does not start with a sign or a digit is stored as 0. |
| AdminDictionaries.HandleEdit | src/pages/admin/AdminDictionariesPage.tsx:87-96 | Editing copies the entry's category, name, value and order, records the entry and opens the form. Nothing else changes. |
| AdminDictionaries.Cancel | src/pages/admin/AdminDictionariesPage.tsx:211-215 | Cancelling closes the form, forgets the edited entry and restores the empty defaults. |
| AdminDictionaries.HandleSubmit | src/pages/admin/AdminDictionariesPage.tsx:63-85 | An edited entry is PUT to its own path, and a new one is POSTed to the collection, with the form as the body. Success resets the form, sets the matching message and refetches. Failure keeps the form and shows the response's error text whenever it is non-empty, and the fallback otherwise. |
| AdminDictionaries.SuccessThenSubmitCreates | src/pages/admin/AdminDictionariesPage.tsx:69-78 | After a successful submit, the next submit POSTs a new, empty entry. The edit does not linger. |
| AdminDictionaries.RetryAfterFailureResends | src/pages/admin/AdminDictionariesPage.tsx:63-85 | After a failed submit, submitting again sends exactly the same request. |
| AdminDictionaries.EditThenSubmitUpdates | src/pages/admin/AdminDictionariesPage.tsx:69-70 | Editing an entry and submitting sends that entry's fields to that entry's path. |
| AdminDictionaries.Click | src/pages/admin/AdminDictionariesPage.tsx:158-204 | A click submits exactly when the form is shown, nothing is in flight, the category is one of the six listed, name and value are non-empty and the order is not negative. Then it is the submit handler. |
| AdminDictionaries.SentCategoryIsListed | src/pages/admin/AdminDictionariesPage.tsx:25-32 | Every entry the page sends has one of the six listed categories and a non-negative order. |
| AdminDictionaries.UnlistedCategoryBlocksEdit | src/pages/admin/AdminDictionariesPage.tsx:87-96 | An entry whose category is not listed cannot be saved through the edit form. |
| AdminUsers.HandleEdit | src/pages/admin/AdminUsersPage.tsx:87-97 | Null name, email, code or phone become empty fields. The role is copied, the user is recorded and the form opens. |
| AdminUsers.SelectRole | src/pages/admin/AdminUsersPage.tsx:186-193 | Choosing in the selector sets one of the two offered roles and changes nothing else. |
| AdminUsers.Cancel | src/pages/admin/AdminUsersPage.tsx:224-228 | Cancelling closes the form, forgets the user and resets the fields, with role USER. |
| AdminUsers.HandleSubmit | src/pages/admin/AdminUsersPage.tsx:51-85 | An edited user is updated by id. A new user is inserted as active. Success resets the form, sets the matching message and refetches. Failure keeps the form and shows the error's message whenever it is non-empty, and the fallback otherwise. |
| AdminUsers.RoleStaysOffered | src/pages/admin/AdminUsersPage.tsx:186-193 | Cancelling, choosing and submitting keep the form's role among the offered ones. Editing does so exactly when the stored role is one of them. |
| AdminUsers.ToggleUserStatus | src/pages/admin/AdminUsersPage.tsx:116-129 | The toggle writes the negation of the shown status for that user. Success sets a message naming the new status and refetches. Failure changes only the error, which is the error's message whenever that is non-empty. |
| AdminUsers.ToggleMessageNamesNewState | src/pages/admin/AdminUsersPage.tsx:124 | The message says 활성화 exactly when the user is now active, and the two messages differ. |
| AdminUsers.SetStatus | src/pages/admin/AdminUsersPage.tsx:118-121 | The update filtered by id changes the status of that user only. Every other row, and the set of users, stay as they were. |
| AdminUsers.ToggleFlipsStoredStatus | src/pages/admin/AdminUsersPage.tsx:116-125 | After a successful toggle the stored status of that user is the opposite one, the message names the status now stored, and no other user changes. |
| AdminUsers.ToggleTwiceRestores | src/pages/admin/AdminUsersPage.tsx:116-125 | Toggling a user twice, each time from the refetched list and both times successfully, gives back exactly the original table. |
| AuthContext.FetchUserData | src/context/AuthContext.tsx:50-66 | Loading always ends. The user changes only to a row returned without error, and such a row always becomes the user. |
| AuthContext.Restore | src/context/AuthContext.tsx:29-35 | With a session, the user row is read. Without one, loading ends and the user is unchanged. |
| AuthContext.AuthChanged | src/context/AuthContext.tsx:38-45 | A session means the user row is read. No session means no user and not loading. |
| AuthContext.LoginEmail | src/context/AuthContext.tsx:71 | The address starts with the company code followed by a dash, and has the expected length. |
| AuthContext.LoginEmailRoundTrip | src/context/AuthContext.tsx:71 | For a dash-free company code, the address splits back into the code and the user name. |
| AuthContext.LoginEmailInjective | src/context/AuthContext.tsx:71 | Different logins with dash-free codes never share an address. |
| AuthContext.Login | src/context/AuthContext.tsx:68-86 | A failed sign-in leaves the store unchanged and throws the error's message, or "로그인에 실패했습니다". A successful one reads the user row when the sign-in returned a user, and throws nothing. |
| AuthContext.Logout | src/context/AuthContext.tsx:88-92 | Logging out always leaves no user and sends the browser to /login. |
| AuthContext.LoadingNeverRestarts | src/context/AuthContext.tsx:24-92 | Once loading has ended, no sequence of events starts it again. |
| AuthContext.UserProvenance | src/context/AuthContext.tsx:24-92 | After any run, the user is absent, the initial one, or a row the backend returned during the run. |
| AuthContext.StartupWithoutSession | src/context/AuthContext.tsx:24-34 | From the initial state, a startup check without a session gives an anonymous, not-loading store. |
| LoginPage.DigitsOnly | src/pages/LoginPage.tsx:64 | The filter keeps exactly the input's digits, each as often as it occurs, and never lengthens the text. |
| LoginPage.DigitsOnlyIsFilter | src/pages/LoginPage.tsx:64 | The filter works character by character: one digit is kept, one other character is dropped, and filtering two pieces of text gives the two results in order. |
| LoginPage.DigitsOnlyOfDigits | src/pages/LoginPage.tsx:64 | Text made only of digits passes through unchanged. |
| LoginPage.Sanitize | src/pages/LoginPage.tsx:64 | The stored code is the first two of the typed digits, in the order typed, or all of them when there are fewer. |
| LoginPage.SanitizeIdempotent | src/pages/LoginPage.tsx:64 | Filtering a filtered code changes nothing. |
| LoginPage.SanitizedCodeRoundTrips | src/pages/LoginPage.tsx:64 | The login address built from a filtered code always splits back into code and user name. |
| LoginPage.HandleSubmit | src/pages/LoginPage.tsx:15-34 | With an empty field, the page shows its message and login is not called. Otherwise login is called and loading ends. Success navigates home with no error. Failure shows the thrown message. The typed fields are never changed. |
| LoginPage.Click | src/pages/LoginPage.tsx:60-110 | A click that does not reach the login changes nothing. One that does runs the submit handler. |
| LoginPage.EnabledIffLoginCalled | src/pages/LoginPage.tsx:99-106 | A click reaches the login exactly when the button is enabled and the password has at least 8 characters. |
| KakaoLocal.ResultsOf | src/components/KakaoAddressModal.tsx:41-49 | A successful answer shows its documents, or nothing when they are missing. A failure shows nothing. |
| KakaoLocal.ChooseAddress | src/components/KakaoAddressModal.tsx:56 | The road address is used when non-empty, and the lot address otherwise. |
| KakaoLocal.ZipOf | src/components/KakaoAddressModal.tsx:69-76 | A non-empty postal code comes from the first document of a successful answer, from its road or lot address. Anything else gives the empty string. |
| KakaoLocal.RoadZoneWins | src/components/KakaoAddressModal.tsx:71 | A non-empty road-address code is the postal code. |
| KakaoLocal.LotZipWhenNoZone | src/components/KakaoAddressModal.tsx:71-72 | Without a road-address code, a non-empty lot-address code is used. |
| KakaoLocal.SelectPlace | src/components/KakaoAddressModal.tsx:55-79 | A selection calls back exactly once, with the chosen address and the looked-up code. A failed lookup gives the empty code. |
| KakaoAddressModal.Search | src/components/KakaoAddressModal.tsx:22-53 | A query under 2 characters clears the results and sends nothing. A longer one asks for 15 places and shows what came back. Shown results always come from a successful answer. |
| KakaoAddressModal.FailedSearchListsNothing | src/components/KakaoAddressModal.tsx:41-49 | A failed search, or one without documents, lists nothing. |
| KakaoAddressModal.HandleSelect | src/components/KakaoAddressModal.tsx:55-84 | A selection calls back once, clears query and results, and closes the dialog. |
| KakaoAddressModal.SelectResets | src/components/KakaoAddressModal.tsx:81-83 | After a selection the dialog is back in its initial state. |
| KakaoAddressSearch.Search | src/components/KakaoAddressSearch.tsx:36-68 | A short keyword clears the results without searching. A successful search shows its results and switches the list on. A failure clears the results and leaves the switch as it was. |
| KakaoAddressSearch.ListOnlyFromResults | src/components/KakaoAddressSearch.tsx:36-68 | After a search, the list is on screen only if that search succeeded with documents. |
| KakaoAddressSearch.Focus | src/components/KakaoAddressSearch.tsx:116 | Focusing switches the list on when there is a query, and otherwise changes nothing. |
| KakaoAddressSearch.HandleSelect | src/components/KakaoAddressSearch.tsx:71-106 | A selection calls back once, clears the query and hides the list. Clearing a non-empty query fires the debounced search on the empty query, which empties the results. An already empty query fires nothing, and the results stay. |
| KakaoAddressSearch.SelectSettlesLikeEmptySearch | src/components/KakaoAddressSearch.tsx:36-40 | What a selection leaves is what a search on the cleared query gives: no request, whatever the service would answer. |
| AddressSearchButton.HandleClick | src/components/AddressSearchButton.tsx:9-21 | A script failure alerts and never calls back. A completed popup calls back once with the road address, falling back to the lot address, and the code unchanged. A dismissed popup does nothing. |
| AddressSearchButton.ButtonChoosesLikePickers | src/components/AddressSearchButton.tsx:12-16 | The popup button picks the address by the same road-then-lot rule as the keyword pickers, and passes the popup's own postal code. |
| Decimal.ValueOfShow | scripts/version-bump.js:13 | Reading a printed number back gives the number. |
| Decimal.ShowInjective | scripts/version-bump.js:14 | Different numbers print differently. |
| Decimal.ParseInt | src/pages/admin/AdminDictionariesPage.tsx:177 | parseInt yields a number exactly when a run of digits follows the optional sign. |
| Decimal.ParseIntOfShow | src/pages/admin/AdminDictionariesPage.tsx:177 | parseInt reads a printed number back as itself. |
| Decimal.ParseIntReadsLeadingNumber | src/pages/admin/AdminDictionariesPage.tsx:177 | parseInt reads the numeral at the front with its sign, "-n" as -n and "+n" as n, and ignores whatever follows a non-digit. |
| Version.Split | scripts/version-bump.js:13 | Splitting gives at least one piece, and no piece contains a dot. |
| Version.SplitFormat | scripts/version-bump.js:13 | "M.m.p" splits into its three numerals. |
| Version.NumberOf | scripts/version-bump.js:13 | A piece is a number exactly when it is all digits, or one sign followed by digits. An all-digit piece gives its value. It is never undefined. |
| Version.NumberOfShowPart | scripts/version-bump.js:13-14 | Reading back a printed number gives the number, for every integer including negative ones. |
| Version.PartsOfFormat | scripts/version-bump.js:13 | Reading "M.m.p" gives back M, m and p. |
| Version.BumpFormat | scripts/version-bump.js:13-14 | "M.m.p" becomes "M.m.(p+1)", and reading the result gives M, m and p+1. |
| Version.BumpChanges | scripts/version-bump.js:13-14 | A bumped version never equals the one it came from. |
| Version.BumpTimesFormat | scripts/version-bump.js:13-14 | Bumping k times adds k to the patch and changes nothing else. |
| Version.ShortVersionGivesNaN | scripts/version-bump.js:13-14 | A two-part version "M.m" becomes "M.m.NaN". |
| VersionBump.AsWrittenLogLine | scripts/version-bump.js:13-40 | The line as written, which reads the package object after line 17 overwrote it, equals the intended old → new line only when the bump changes nothing. |
| VersionBump.CorrectedRun | scripts/version-bump.js:13-40 | The corrected run, with the log built from the version read before the bump. The package version and the generated APP_VERSION are the same bumped string, and the log names the old version and then the new one. |
| VersionBump.LogHidesOldVersion | scripts/version-bump.js:40 | For every well-formed version, the printed line differs from the intended old → new line. |
| VersionBump.LogLinesDiffer | scripts/version-bump.js:40 | Log lines with different left-hand versions differ. |
| VersionBump.RunOnFormat | scripts/version-bump.js:13-40 | On "M.m.p", both files get "M.m.(p+1)" and the log shows "M.m.p → M.m.(p+1)", unlike the line as written. |
| VersionBumpDb.Run | scripts/version-bump-db.js:6-84 | Every path exits with 0. Without a key nothing is written. A failed or empty lookup inserts 1.0.3. A stored value is bumped and updated. A null value writes nothing. The generated file exists exactly when a write succeeded, and it holds the written value. |
| VersionBumpDb.StoredVersionIsBumped | scripts/version-bump-db.js:41-61 | A stored "M.m.p" is updated to "M.m.(p+1)", and the generated file holds the same. |
| VersionBumpDb.DefaultIsFormat | scripts/version-bump-db.js:22 | The default version is the well-formed 1.0.3. |
| VersionBumpDb.DefaultThenBump | scripts/version-bump-db.js:22-42 | The default version is well formed, and the next run bumps it to 1.0.4. |

## Left out

- Backend and network calls (Supabase tables and auth, the HTTP API, the
  Kakao services) are not performed. Their answers are parameters, and the
  model describes what the code does with each possible answer.
- `src/lib/kakao-postcode.ts` is not part of this model. It injects the
  popup's script into the page. The popup's outcome is a parameter of
  `AddressSearchButton.HandleClick`.
- The 300 ms debounce and the click-outside listener of the autocomplete are
  timing and DOM plumbing. A search is modelled as one call with the keyword.
  The one search that matters for the list's contents, the one a selection
  fires by clearing the query, is part of `KakaoAddressSearch.HandleSelect`.
- Dates: `new Date(...).toISOString()` is the parameter `toIso`. `BUILD_DATE`,
  the update's `updatedAt` timestamp and the log's build-date line are not
  modelled.
- JavaScript's number conversions are modelled for decimal text with an
  optional sign. Values above 2^53 are left out. Text lengths count
  characters, which for the Korean and ASCII text here equals JavaScript's
  UTF-16 length; the same holds for the password's `minLength`.
- Version.NumberOf: a version part that is `Infinity`, hexadecimal (`0x1F`),
  binary, octal, an exponent (`1e3`) or padded with white space is a number
  for JavaScript's `Number` but `NaN` in the model. Release versions are
  plain decimal, so these forms are out of scope.
- Decimal.ParseInt: leading white space, which `parseInt` skips, and a
  `0x`/`0X` prefix, which `parseInt` without a radix reads as hexadecimal
  ("0x10" is 16, the model reads 0), are not modelled. The order input is a
  number input, whose value never starts with white space or holds a `0x`
  prefix.
- The schema library and the form library are not modelled as libraries.
  Their observable behaviour on string or missing values is written out:
  the "Required" default, the enum's required message, and the default
  enum message.
- The `role === 'admin'` check in `src/components/Layout.tsx` and
  `src/pages/DashboardPage.tsx` never matches the USER and MASTER roles the
  user page assigns. It is presentational and not modelled.
- `handleDelete` on both administration pages is left out, because it is a
  confirm dialog around one backend call with a message. The list fetches
  (`fetchUsers`, `fetchDictionaries`) only replace the list and are left out
  too.
- Callbacks (`onSelect`, `onClose`) and `signOut` are assumed not to throw.
  A throwing `onSelect` inside the pickers' `try` would be called a second
  time from the `catch`.
- Redirects, `navigate` and `process.exit` are recorded as values: the path
  navigated to, the logout's `window.location.href` target, and the exit
  code. `alert` is recorded as the alert text. Console output is not
  modelled.
- The logout redirect is a full page load. A run of `AuthContext` events
  covers one loaded document; the next document starts again from
  `AuthContext.Initial`.
- The browser's own form checks are modelled for the two forms whose
  buttons are modelled as clicks: `required` and `minLength` on the login
  page, and `required` and `min` on the dictionary form. The login user
  name's `maxLength={20}` limits typing and is not modelled; neither are
  the user form's checks, which only guard `AdminUsers.HandleSubmit`.
- Asynchronous interleaving: the session store's events are applied one at
  a time, in the order they complete.
- The dictionary query's filter and sort run in the database.
  `Dictionary.ActiveByOrder` is a stable sort, while the database leaves the
  order of equal `order` values unspecified.
- The release scripts' file writes are assumed to succeed.
  `VersionBumpDb.Run` models a stored null value as the thrown `TypeError`
  the script catches: nothing is written and the exit code is 0.
- AdminUsers.HandleEdit copies a stored role even when it is not one of the
  selector's options. `AdminUsers.RoleStaysOffered` states exactly when the
  role stays offered, rather than claiming that it always does.
- LoginPage.HandleSubmit describes the page after the attempt completes. The
  intermediate loading state during the call is not modelled.

## Findings

| source | as written | input that shows it | evidently intended | confidence | as-written member | corrected member |
|---|---|---|---|---|---|---|
| src/pages/WirelessNewPage.tsx:18-20 | The page validates with the wireless schema, which requires `zipCode`, but it registers no postal-code input. `zipCode` is therefore always `undefined` and is rejected with "Required". The page shows no message for that field. | Any values, e.g. every field filled in correctly | A registered postal-code input, as the wired page has, so that well-formed values are inserted | high; not executed | WirelessNewPage.PageNeverSubmits | WirelessNewPage.CorrectedPageSubmits |
| scripts/version-bump.js:40 | The log line reads `packageJson.version` after line 17 overwrote it with the new version. | The version 1.0.3 logs "1.0.4 → 1.0.4" | Log the version read before the bump: "1.0.3 → 1.0.4" | high; not executed | VersionBump.LogHidesOldVersion | VersionBump.RunOnFormat |
