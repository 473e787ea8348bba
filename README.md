# Paperless expense tracker — a Dafny model

This project models the core of a small expense tracker. It has an Express/Mongoose API and a browser script:

- **Stored records.** Users, categories and expense entries are kept in three collections. They are modelled as the sequences of one `Store.Database` object, with a counter that hands out fresh ids.
- **Route handlers.** The handlers under `/api/entries` and `/api/categories` and the Google sign-in callback are methods on that database. They return a tagged response: `Ok(body)` or `Fail(status, message)`.
- **Entries GET.** The GET handler of `/api/entries` is a first-match dispatcher over its query parameters. It is the pure function `EntryRoutes.Dispatch`, and its month windows come from a model of `Date.UTC` (`UtcDates`).
- **Token middleware.** The middleware that checks the Bearer token is `VerifyToken`. JWT verification is an opaque function from a token to its outcome.
- **Browser script.** The helpers in the browser script are modelled in their own modules:
  - `MonthNav`: the month navigation;
  - `Dashboard`: the dashboard card order;
  - `MilkTracker`: milk search pagination and the yearly milk buckets;
  - `SpendingSummary`: the spending-summary totals;
  - `ClientForms`: the category rename form.

  Where the script changes the global `STATE` in place, the model is a class with `modifies` clauses (`MonthNav.ViewState`, `ClientForms.CategoryCache`). Where the script loops, the model is a method with a loop proved against a specification function (`MilkTracker.AllDates`, `MilkTracker.FillBuckets`, `SpendingSummary.TallyEntries`).

Amounts and litres are exact `real` numbers (the script's IEEE-754 doubles round; see "## Left out"), and times are integer milliseconds since the epoch, in UTC. Generic sequence facts (filters, sums, a stable insertion sort) live in `Seqs`. JavaScript string helpers (`split`, `trim`, `parseInt`, `String(n)`) live in `JsText`.

Where the code and the design description disagree, the code is modelled. The design describes re-seeding missing default folders for existing users. `api/routes/categories.js:94-100` does nothing for them, so `CategoryRoutes.GetCategories` never seeds a user who already owns a category.

## Model

| member | source | states |
|---|---|---|
| EntryModel.Create | api/models/Entry.js:3-49 | a document is created exactly when `categoryId`, `amount`, `date` and a non-empty `itemName` are present; the optional fields are copied, `paymentMode` defaults to `Cash`, both timestamps are the creation time |
| EntryModel.MissingFieldRefused | api/models/Entry.js:4-25 | lacking any one required field, or having an empty `itemName`, the entry is refused |
| CategoryModel.ParseKind | api/models/Category.js:18-21 | only `milk` and `general` pass the enum, and each reads back as its own name |
| CategoryModel.KindRoundTrip | api/models/Category.js:18-22 | each kind's name parses back to that kind |
| CategoryModel.Create | api/models/Category.js:3-27 | a category is created exactly when `parentCategory` and `name` are non-empty and the type is absent or in the enum; absent type gives `general`, `createdAt` is the creation time |
| UserModel.Create | api/models/User.js:7-43 | a user is created exactly when the name is non-empty, the trimmed lower-cased email is non-empty, and a password is given whenever there is no Google id; `profilePic` defaults to ""; `createdAt` and `lastLogin` are the times given |
| UserModel.NormalizeEmailIdempotent | api/models/User.js:18-24 | the lowercase/trim setters are idempotent: storing a stored email again changes nothing |
| UserModel.Lower | api/models/User.js:22 | `lowercase` on ASCII letters: `A`–`Z` become `a`–`z`, every other character is kept, and the length does not change |
| UserModel.PreSave | api/models/User.js:47-53 | the hook changes only the password, only when it was modified and is non-empty, and then to its hash |
| UserModel.ComparePassword | api/models/User.js:56-59 | with no stored password the answer is false without consulting bcrypt; otherwise it is bcrypt's verdict |
| UserModel.GoogleOnlyAccountRejectsPasswords | api/models/User.js:25-30 | a valid user without a password has a Google id, and no password matches it |
| Store.Database.FreshId | api/routes/entries.js:13-27 | a fresh `_id` is one no stored document has; the collections are unchanged |
| Store.EntryIdsFilter | api/routes/categories.js:140 | keeping a subsequence of the entries keeps their ids distinct and allocated |
| EntryRoutes.CreateEntry | api/routes/entries.js:9-33 | the stored entry carries the caller's id, and its category is not checked against the caller; a validation failure is a 500 that stores nothing |
| EntryRoutes.ApplyUpdate | api/routes/entries.js:39-57 | `id`, `userId`, `categoryId`, `paymentMode` and `createdAt` never change; `updatedAt` moves to now |
| EntryRoutes.UpdateSetsPresentFields | api/routes/entries.js:39-57 | every field the body carries replaces the stored value |
| EntryRoutes.UpdateKeepsAbsentFields | api/routes/entries.js:39-57 | every field the body leaves undefined keeps its stored value |
| EntryRoutes.UpdateIdempotent | api/routes/entries.js:41-57 | repeating the same update stores the same document |
| EntryRoutes.EmptyUpdateOnlyTouches | api/routes/entries.js:41-57 | an empty body changes only `updatedAt` |
| EntryRoutes.UpdateSkipsValidators | api/routes/entries.js:41-57 | an update can store an empty `itemName`, which creation refuses |
| EntryRoutes.UpdateEntry | api/routes/entries.js:37-68 | only the caller's entry is updated, and the response is the updated document; otherwise 404 and nothing changes |
| EntryRoutes.DeleteEntry | api/routes/entries.js:161-174 | a missing or foreign entry is 404 with no change; otherwise exactly that entry is removed |
| EntryRoutes.DeleteRemovesExactlyOne | api/routes/entries.js:168 | deletion removes one entry and keeps every other one with its multiplicity |
| EntryRoutes.ParseMonth | api/routes/entries.js:96-98 | the month string parses exactly when its first two `-` pieces `parseInt` to numbers; the month is made 0-based |
| EntryRoutes.MonthFilter | api/routes/entries.js:99-101 | an unparsable month gives the Invalid Date filter; otherwise the window is that month's `Date.UTC` range |
| EntryRoutes.MilkWindow | api/routes/entries.js:93-102 | `start` and `end` give the window from start to the end of end's UTC day; otherwise `month` gives that month; otherwise there is no date filter |
| EntryRoutes.DateOrdersArePreorders | api/routes/entries.js:79 | both date sort orders are total preorders |
| EntryRoutes.Latest | api/routes/entries.js:79 | `.limit(10)` keeps min(10, n) entries |
| EntryRoutes.GroupIds | api/routes/entries.js:121-122 | the ids are exactly those of the caller's categories in the group |
| EntryRoutes.Dispatch | api/routes/entries.js:72-157 | the only failures are the 400 `Invalid query parameters` and the 500 `Server Error` |
| EntryRoutes.LatestAreNewest | api/routes/entries.js:79 | the 10 kept entries are sorted newest first, come from the input with no entry kept more often than it is stored, and are at least as new as every dropped entry |
| EntryRoutes.LatestWithinAll | api/routes/entries.js:79 | the kept entries are a sub-multiset of the input |
| EntryRoutes.LatestBeatTheRest | api/routes/entries.js:79 | an entry that is not kept is not newer than any kept entry |
| EntryRoutes.CategoryQuery | api/routes/entries.js:77-81 | a `categoryId` query answers with at most 10 of the caller's entries in that category, each no more often than it is stored, the newest ones, newest first |
| EntryRoutes.CategoryQueryIgnoresRest | api/routes/entries.js:77-81 | with `categoryId` every other parameter, `month` included, is ignored |
| EntryRoutes.MilkWithoutCategory | api/routes/entries.js:84-87 | a milk query from a user without a milk category gets no entries and zero totals and average |
| EntryRoutes.MilkBranch | api/routes/entries.js:83-117 | a milk query answers with the aggregate of the caller's milk entries in the window, and names the milk category |
| EntryRoutes.AggregateMean | api/routes/entries.js:106-108 | the litre total is the sum of `quantity`, a missing one counting as 0; the amount total the sum of amounts, and the average the mean, or 0 for no entries |
| EntryRoutes.OldestFirstSelection | api/routes/entries.js:104 | sorting oldest first keeps exactly the selected entries, and so also their sums |
| EntryRoutes.MilkReportExact | api/routes/entries.js:104-116 | the milk report lists exactly the caller's milk entries in the window, oldest first, with their totals |
| EntryRoutes.StartEndWindow | api/routes/entries.js:93-94 | with `start` and `end` a time is admitted exactly when it is at or after start and its UTC day is not after end's |
| EntryRoutes.MonthFilterExact | api/routes/entries.js:95-102 | a parsable month admits exactly the instants of that UTC calendar month (late months roll over, years 0-99 mean 19xx) |
| EntryRoutes.ParentQueryExact | api/routes/entries.js:119-136 | a `parentCategory` query answers with exactly the caller's entries in that group's categories, within the optional month, each as often as it is stored (same multiset), newest first |
| EntryRoutes.MonthQueryExact | api/routes/entries.js:140-150 | a month alone answers with exactly the caller's entries in that month, each as often as it is stored (same multiset), newest first |
| EntryRoutes.BadRequestExactly | api/routes/entries.js:152 | 400 exactly when no branch applies |
| EntryRoutes.GeneralMonthRejected | api/routes/entries.js:140 | a month with `type=general` falls through every branch to 400 |
| EntryRoutes.MilkBeforeParent | api/routes/entries.js:83-119 | a milk query ignores `parentCategory`, and it never answers 400 |
| EntryRoutes.ServerErrorOnlyFromDates | api/routes/entries.js:153-156 | among the failures the model can produce (the store never rejects, query values are strings), a 500 arises only from an unparsable month |
| EntryRoutes.GetIsOwnerScoped | api/routes/entries.js:75 | no GET answer contains another user's entry |
| UtcDates.MonthRangeIsWholeMonth | api/routes/entries.js:99-100 | `Date.UTC(y, m, 1)` to `Date.UTC(y, m + 1, 0, 23, 59, 59, 999)` is the first to the last millisecond of the normalised month, leap Februaries included |
| UtcDates.MonthRangeMembership | api/routes/entries.js:99-101 | an instant is in the month window exactly when its UTC year and month are that month's |
| UtcDates.DayWindow | api/routes/entries.js:99-101 | an instant lies between the first millisecond of day `first` and the last of day `last` exactly when its day does |
| UtcDates.DayInMonth | api/routes/entries.js:99-101 | a day lies between a month's first and last day exactly when its UTC year and month are that month's |
| UtcDates.EndOfDayBound | api/routes/entries.js:94 | `setUTCHours(23, 59, 59, 999)` stays in the same day, and a time is before it exactly when its day is not later |
| UtcDates.February2025 | api/routes/entries.js:99-100 | February 2025 runs from 2025-02-01T00:00Z to 2025-02-28T23:59:59.999Z |
| UtcDates.February2024 | api/routes/entries.js:99-100 | the leap February 2024 ends at 2024-02-29T23:59:59.999Z |
| UtcDates.RollOverAndTwoDigitYears | api/routes/entries.js:99-100 | month 12 rolls into the next January, and year 25 reads as 1925 |
| UtcDates.UtcMonth | public/script.js:1969 | the month of any instant is in 0..11 |
| JsText.Split | api/routes/entries.js:96 | `split` gives at least one piece, and no piece holds the separator |
| JsText.JoinSplit | api/routes/entries.js:96 | joining the pieces gives the string back |
| JsText.ParseDecimal | api/routes/entries.js:97 | `parseInt(String(n))` is `n` |
| CategoryRoutes.DefaultsShape | api/routes/categories.js:7-32 | there are twenty defaults in five parent groups |
| CategoryRoutes.DefaultsOneMilk | api/routes/categories.js:8 | exactly one default is a milk category: the first, Milk under Daily Expenses |
| CategoryRoutes.SeedFor | api/routes/categories.js:89-91 | the seed is `DEFAULTS` for the caller, with consecutive fresh ids; the `i`-th document is stamped with the `i`-th reading of the clock (`default: Date.now`, api/models/Category.js:23-26) |
| CategoryRoutes.SeedValid | api/routes/categories.js:89-91 | every seeded category is valid and belongs to the caller |
| CategoryRoutes.ListingExact | api/routes/categories.js:60-72 | a listing holds exactly the caller's categories that pass the filter, oldest first; `parent` wins over `dashboard` |
| CategoryRoutes.SeedStepSparesOthers | api/routes/categories.js:86-91 | seeding leaves every other user's categories as they were |
| CategoryRoutes.SecondGetNeverSeeds | api/routes/categories.js:86-100 | after one GET the caller owns categories, so a second GET inserts nothing |
| CategoryRoutes.FirstGetListsDefaults | api/routes/categories.js:86-93 | a new user's first unfiltered GET answers with the twenty defaults in `DEFAULTS` order, provided the clock does not go back while they are built |
| CategoryRoutes.SeedInCreationOrder | api/routes/categories.js:88-93 | with a clock that does not go back, the seed's creation times are non-decreasing in `DEFAULTS` order, so the stable sort by `createdAt` keeps that order |
| CategoryRoutes.NewUserSelection | api/routes/categories.js:88-93 | for a user owning nothing, the unfiltered selection after seeding is the seed |
| CategoryRoutes.SeedOwnedAtOnce | api/routes/categories.js:90 | all the seeded categories belong to the caller |
| CategoryRoutes.DashboardHidesFolders | api/routes/categories.js:67-69 | the dashboard listing never contains a Miscellaneous or Savings category |
| CategoryRoutes.SeedKeepsIds | api/routes/categories.js:91 | inserting the seed keeps the stored ids distinct and the categories valid |
| CategoryRoutes.GetCategories | api/routes/categories.js:58-107 | only a caller owning no category is seeded (no re-seeding otherwise), with one clock reading per inserted default; the answer is the listing of the resulting store |
| CategoryRoutes.CreateCategory | api/routes/categories.js:37-54 | creation succeeds exactly when the body is valid, whatever is already stored (no duplicate check), with the type defaulting to `general` |
| CategoryRoutes.CreateDefaultsToGeneral | api/routes/categories.js:45 | an absent or empty type gives a general category |
| CategoryRoutes.Renamed | api/routes/categories.js:120 | only the name changes, and only for a truthy name; validity is kept |
| CategoryRoutes.RenameCategory | api/routes/categories.js:111-128 | only the caller's category is renamed; a missing or foreign one is 404 and nothing changes |
| CategoryRoutes.DeleteCategory | api/routes/categories.js:132-148 | 404 and no change unless the caller owns it; otherwise the category and the caller's entries in it are removed and nothing else |
| CategoryRoutes.CascadeExact | api/routes/categories.js:140 | the cascade removes exactly the caller's entries in that category; every other entry stays with its multiplicity |
| GoogleAuth.Verify | api/config/passport.js:19-56 | a known Google id only moves `lastLogin`; an unknown one creates exactly one user in `signup` mode and is refused otherwise; a failed create is an error |
| GoogleAuth.RecordLogin | api/config/passport.js:46-50 | a returning user's `lastLogin` moves to now, nothing else in the store changes, and the user is logged in |
| GoogleAuth.CreateUser | api/config/passport.js:29-40 | the new user is appended and flagged new when creation validates and the email is free; otherwise the store is unchanged and the result is an error |
| GoogleAuth.OnlySignupCreates | api/config/passport.js:22 | the mode is `signup` exactly for `state=signup`, and defaults to `login` |
| GoogleAuth.SignUpFields | api/config/passport.js:31-38 | a sign-up stores the Google id, display name, first email and photo, needs no password, and takes `createdAt` and `lastLogin` from two separate clock readings |
| GoogleAuth.UniqueAfterAdd | api/models/User.js:8-24 | adding a user with a new email and Google id keeps both unique indexes |
| GoogleAuth.UniqueAfterLogin | api/config/passport.js:48-49 | moving `lastLogin` keeps both unique indexes |
| VerifyToken.BearerToken | api/middleware/verifyToken.js:12-22 | a token exists exactly when the header is present and starts with `Bearer `, and it holds no space |
| VerifyToken.BearerTokenRfc6750 | api/middleware/verifyToken.js:22 | the token of `Bearer <token>` (section 2.1 of RFC 6750) is read back exactly |
| VerifyToken.BearerTokenSecondField | api/middleware/verifyToken.js:22 | the token is the second space-separated field; anything after it is ignored |
| VerifyToken.LowerCaseSchemeRefused | api/middleware/verifyToken.js:14 | `bearer <token>` counts as no token |
| VerifyToken.Authenticate | api/middleware/verifyToken.js:9-63 | a pass carries the stored user with the decoded id; among the failures the model can produce (the user lookup never rejects), a 500 comes exactly from a verification failure that is neither expiry nor a malformed token; every other denial is 401 |
| VerifyToken.Classification | api/middleware/verifyToken.js:14-61 | each outcome has its status and message: no token, user gone (exactly when no user has the id), expired, invalid, other failure |
| VerifyToken.Middleware | api/middleware/verifyToken.js:37-41 | on success `user` and `userId` are set and `next` runs exactly once; on failure only the error response is sent |
| MonthNav.Step | public/script.js:2403-2412 | the resulting month is in 0..11, and a step that stays in the year only moves the month |
| MonthNav.StepWraps | public/script.js:2406-2412 | forward from December gives January of the next year; back from January gives December of the previous year |
| MonthNav.StepIsOneMonth | public/script.js:2403-2412 | a ±1 step moves exactly one calendar month |
| MonthNav.StepUndo | public/script.js:2403-2412 | +1 then −1, or −1 then +1, restores the selection |
| MonthNav.ViewState.NavMonth | public/script.js:2399-2416 | `navMonth` stores the stepped year and month |
| MonthNav.ViewState.SetMonth | public/script.js:2447-2448 | `setMonth` stores the month and keeps the year |
| MonthNav.ViewState.ShiftMonth | public/script.js:2474-2482 | `shiftMonth`'s in-place update ends at the same step as `navMonth` |
| MonthNav.Pad2 | public/script.js:865 | `padStart(2, '0')` gives at least two decimal digits |
| MonthNav.ParsePad2 | public/script.js:865 | the padded month parses back to its number |
| MonthNav.FormatParseMonth | public/script.js:865 | the server parses the client's `YYYY-MM` back to the selected year and month |
| MonthNav.SelectedMonthQuery | public/script.js:1677 | for years from 100 on, the client's month query admits exactly the instants of the selected UTC month |
| Dashboard.AsCards | public/script.js:883 | each category becomes its own card, in order |
| Dashboard.PushFolder | public/script.js:886-892 | a folder is appended exactly when no card has its name; afterwards some card has it |
| Dashboard.Board | public/script.js:883-892 | after the pushes the board has a Miscellaneous and a Savings card |
| Dashboard.BoardMembers | public/script.js:883-892 | the board holds every category outside the two groups and, besides them, only the two folders |
| Dashboard.Special | public/script.js:896-898 | `find` gives at most one card, with that name and from the list, and none exactly when no card has the name |
| Dashboard.ByNamePreorder | public/script.js:908 | for a total preorder of names, the card comparator is a total preorder |
| Dashboard.BoardMilk | public/script.js:896 | the board has a Milk card exactly when a category outside the two groups is named Milk |
| Dashboard.GeneralOnly | public/script.js:901-905 | only cards named neither Milk, Miscellaneous nor Savings are in the general part |
| Dashboard.GeneralMembers | public/script.js:901-908 | the sorted general part is a permutation of the board's general cards |
| Dashboard.Layout | public/script.js:912-917 | the rebuilt list is the optional Milk card, the general cards, Miscellaneous, then Savings |
| Dashboard.BoardLayout | public/script.js:912-917 | the same layout, for any board that holds both folders |
| Dashboard.FoldersLast | public/script.js:912-917 | Miscellaneous and Savings are the last two cards and appear nowhere else |
| Dashboard.MilkFirst | public/script.js:896-914 | a Milk card comes first exactly when a visible category is named Milk, and no other Milk card follows |
| Dashboard.GeneralSorted | public/script.js:901-915 | the middle of the list is in name order and is a permutation of the board's general cards |
| Dashboard.GeneralOfBoard | public/script.js:883-905 | a card is general on the board exactly when it is a visible category with a non-special name |
| Dashboard.GeneralAreVisible | public/script.js:883-915 | the general cards shown are exactly the visible categories not named Milk, Miscellaneous or Savings |
| Dashboard.HidesGroupItems | public/script.js:883 | no item of the Miscellaneous or Savings groups is shown; the only cards that are not stored categories are the folders |
| Dashboard.ListedFromBoard | public/script.js:912-917 | every card of the rebuilt list comes from the board |
| Dashboard.FolderOnlyWhenAbsent | public/script.js:886-892 | a folder card is present only when no visible category carries its name |
| MilkTracker.DecideSearchExact | public/script.js:2087-2095 | a missing date stops the search, then a `from` after `to`; the search runs exactly when both dates are given and `from` is not after `to` |
| MilkTracker.DayRange | public/script.js:1721-1723 | the range lists every day from `from` to `to` once, in order, and is empty when `from` is later |
| MilkTracker.AllDates | public/script.js:1721-1723 | the loop pushes exactly the days of the range |
| MilkTracker.TotalPagesIsCeiling | public/script.js:1726 | the page count is the least number of 28-day pages that hold all the days |
| MilkTracker.ClampPageBounds | public/script.js:1729-1730 | with pages, the clamped page is a real page, and a real page is left alone |
| MilkTracker.JsSlice | public/script.js:1733 | `slice` gives a contiguous run of the array |
| MilkTracker.PageIsRun | public/script.js:1732-1733 | page p is the p-th run of 28 dates |
| MilkTracker.PageShape | public/script.js:1725-1733 | a page holds at most 28 dates, and they are consecutive days |
| MilkTracker.PagesPrefix | public/script.js:1725-1733 | reading pages 1..k in order goes through the first 28k dates |
| MilkTracker.PagesCoverAll | public/script.js:1725-1733 | concatenating every page gives the whole date list |
| MilkTracker.SearchHasPages | public/script.js:2087-2095 | a valid search has at least one page, and page 1 starts on its first day |
| MilkTracker.Paginate | public/script.js:1715-1735 | with both dates the page is the clamped slice of the day list; otherwise there are no dates and one page |
| MilkTracker.MonthOfEntryIsKey | public/script.js:1969 | `getMonth` picks one of the twelve buckets |
| MilkTracker.BucketStep | public/script.js:1967-1972 | an entry adds its amount and litres to its own month's bucket and to no other |
| MilkTracker.BucketsSum | public/script.js:1974-1975 | the buckets of months lo..11 add up to the entries of those months |
| MilkTracker.BucketsPartition | public/script.js:1966-1975 | the twelve buckets add up to the sums of amounts and litres over all entries |
| MilkTracker.MaxOf | public/script.js:1976 | `Math.max` is an upper bound that is attained |
| MilkTracker.FillBuckets | public/script.js:1966-1972 | each bucket is the sum of the amounts and of the litres (`quantity`, or 0) over the entries of its month |
| MilkTracker.YearlyStats | public/script.js:1966-1976 | the buckets, the yearly totals (equal to the sums over all entries) and the largest monthly amount |
| SpendingSummary.GroupOfCases | public/script.js:1338-1340 | an entry's group is its first matching category's parent group, or that category's name when the parent is empty |
| SpendingSummary.GroupOfUnknown | public/script.js:1340 | an entry with no loaded category is counted under `Other` |
| SpendingSummary.IndexOf | public/script.js:1342 | the row found has that name, and none is found exactly when no row has it |
| SpendingSummary.AddToAt | public/script.js:1342 | adding an amount to the map keeps the names, grows only that name's row, and appends a new name last |
| SpendingSummary.AddToFinds | public/script.js:1342 | afterwards a name has a row exactly when it had one before or is the added name |
| SpendingSummary.AddToTotal | public/script.js:1342 | adding an amount raises the sum of the rows by that amount |
| SpendingSummary.TallyDistinct | public/script.js:1336-1345 | the tally never names a group twice |
| SpendingSummary.TallySums | public/script.js:1336-1345 | each tally row is the sum of its group's amounts |
| SpendingSummary.TallyGroups | public/script.js:1336-1345 | the rows are exactly the groups of the entries |
| SpendingSummary.GroupNamesMembers | public/script.js:1336-1345 | a name is a group of the entries exactly when some entry belongs to it |
| SpendingSummary.TallyTotal | public/script.js:1336-1345 | the rows add up to the sum of all amounts |
| SpendingSummary.TallyEntries | public/script.js:1336-1345 | the `forEach` loop computes the tally |
| SpendingSummary.LargestFirstIsPreorder | public/script.js:1348 | the comparator is a total preorder |
| SpendingSummary.RenderSpendingSummary | public/script.js:1330-1348 | the method computes the summary: entries sorted oldest first, grand total, tally, totals sorted by amount |
| SpendingSummary.SummaryGrandTotal | public/script.js:1333-1348 | the grand total is the sum of the month's amounts, and the group totals add up to it |
| SpendingSummary.SummaryLargestFirst | public/script.js:1347-1348 | the group totals come largest first |
| SpendingSummary.SummaryDistinct | public/script.js:1347-1348 | no group is listed twice |
| SpendingSummary.SummarySums | public/script.js:1336-1348 | each listed amount is the sum of the month's amounts in that group |
| SpendingSummary.SummaryGroups | public/script.js:1336-1348 | a group is listed exactly when some entry of the month belongs to it |
| SpendingSummary.DashboardAgreesWithSummary | public/script.js:966-967 | the summary's grand total equals the dashboard's monthly total |
| ClientForms.DecideRenameExact | public/script.js:692-707 | an unchanged name makes no request; an empty one, or one over 25 characters, is rejected; only other names of 1 to 25 characters are sent |
| ClientForms.TrimIdempotent | public/script.js:680 | trimming a trimmed name changes nothing |
| ClientForms.SentNameIsTrimmed | public/script.js:680-707 | a sent name has 1 to 25 characters and no surrounding whitespace |
| ClientForms.BlankRejected | public/script.js:680-700 | an all-whitespace input is rejected as empty, unless the old name was empty |
| ClientForms.SentNameApplies | public/script.js:716-719 | the server's `if (name)` holds for a sent name, so it is applied and validity is kept |
| ClientForms.CategoryCache.SaveCategoryName | public/script.js:692-731 | a request whose body is the new name is made exactly when the name is sent; after a successful request only the first cached category with that id is renamed; otherwise the cache is untouched |

## Left out

- **Outside the model:**
  - Express wiring, HTTP parsing, JSON encoding, CORS, `console` logging and rendering:
    - the DOM, toasts, Chart.js and PDF export;
    - `toLocaleString`/`toFixed` formatting.

    None of these decides anything the model states.
  - JWT signing and verification, bcrypt, and the Google OAuth handshake. They are opaque parameters (`verify`, `hash`, `compare`) or inputs (the Google profile).
  - The network and asynchrony. Each request is one atomic step. A failed fetch is the `requestOk` parameter of `ClientForms.CategoryCache.SaveCategoryName`. The race between two concurrent first GETs that could both seed is not modelled.
- **Mongo and Mongoose details:**
  - A malformed `:id`, `categoryId` or decoded token `id` would make Mongoose throw a cast error. The model's ids are numbers, so that error cannot be stated.
  - `EntryRoutes.CreateEntry`, `EntryRoutes.UpdateEntry`: body values are typed in the model. In the source, an `amount` such as `"abc"` or an unparsable `date` makes Mongoose fail to cast it, and the catch at api/routes/entries.js:29-31 or 64-66 answers 500. A numeric string such as `"12"` is cast to a number and accepted.
  - Mongo's order among entries with equal dates or creation times is unspecified. The model's stable sort keeps store order.
- **Dates and times:**
  - `start` and `end` are taken as already-parsed instants. String-to-`Date` parsing, and an Invalid Date from a bad `start`/`end`, are not modelled. Only an unparsable `month` produces the 500.
  - `UtcDates`: the ±8.64e15 ms limit of JavaScript time values is not modelled. Times are unbounded integers.
  - `MilkTracker.MonthOfEntry`: the client's `getMonth()` reads local time. The model uses the UTC month.
  - `MilkTracker.AllDates`: days are day numbers. Stepping with `setDate` across local time zones and daylight-saving changes is not modelled, and neither is the parsing of the date inputs (`None` is an empty input).
  - `MonthNav.SelectedMonthQuery`: requires a year of at least 100. Below that, `Date.UTC` reads the year as 19yy.
- **JavaScript semantics:**
  - JSON `null` is not distinguished from an absent field (`Option`).
  - Strings are sequences of characters. `length` counts characters, not UTF-16 code units, so `ClientForms.DecideRename`'s 25-character limit is stated on characters.
  - `Dashboard.ByName`: `localeCompare` is a `collate` parameter. It is assumed to be a total preorder.
  - `SpendingSummary.Tally`: the map keeps its keys in insertion order. JavaScript orders integer-like keys (such as a group named "2024") first, and this is not modelled. The final sort by amount keeps tied groups in tally order, so that order can differ from the script's.
  - `SpendingSummary.Tally`: every group name is a fresh key of the map. The script's `categoriesMap` is a plain `{}`, so a group named after an `Object.prototype` member behaves differently there. A group named "constructor" starts from the inherited function and its row becomes a string. A group named "__proto__" drops out of the totals. The model's tally, `TallyEntries` and the `Summary` lemmas describe group names that are not such members.
  - `SpendingSummary.GroupOf`: `e.parentCategory` is not modelled. The entry schema has no such field, so entries from the API never carry one.
  - `SpendingSummary.GroupOf`, `ClientForms.CategoryCache.SaveCategoryName`: the lookups by `_id` or `id` (`c._id === id || c.id === id` at public/script.js:722) are a match on the one id field the model has.
- **Floating point:** amounts and litres are exact reals. The script adds IEEE-754 doubles, whose sums depend on the order of the additions. The equalities below hold of exact reals, and the script's sums may differ from them in the last bits.
  - `SpendingSummary.DashboardAgreesWithSummary`: the dashboard adds the month's entries newest first and the summary adds them oldest first. For entries of 0.1, 0.2 and 0.3 on consecutive days, the script shows 0.6 on the dashboard and 0.6000000000000001 in the summary.
  - `SpendingSummary.SummaryGrandTotal`: the group totals add up to the grand total in exact arithmetic only.
  - `SpendingSummary.TallyTotal`: the rows add up to the sum of all amounts in exact arithmetic only.
  - `SpendingSummary.SummarySums`, `SpendingSummary.TallySums`: each group's total is its entries' sum taken in the order of the entries, which exact arithmetic does not distinguish from any other order.
  - `MilkTracker.BucketsPartition`, `MilkTracker.YearlyStats`: the bucketed sums match the flat sums in exact arithmetic only.
  - `EntryRoutes.MilkReportExact`, `EntryRoutes.OldestFirstSelection`: the totals are equal before and after sorting in exact arithmetic only.
- **Weaker than the source:**
  - `UserModel.Lower`: only the ASCII letters `A`–`Z` are lowered. `toLowerCase` lowers every cased Unicode letter, and can change the length ("İ" becomes two code units). So "ÉVA@x.com" is stored unchanged, and the unique-email facts (`GoogleAuth.UniqueAfterAdd`, `GoogleAuth.CreateUser`) treat "ÉVA@x.com" and "éva@x.com" as different addresses, although the source's index refuses the second.
  - `VerifyToken.BearerToken`: the scheme is matched case-sensitively, as the code does. Section 2.1 of RFC 6750 with a case-insensitive scheme is stronger, and the model does not claim it.
  - `MonthNav.Step`: the property that a step always moves one month is proved only for the ±1 steps the buttons make. For a larger `delta` the code clamps to January or December, as modelled.
- **Error paths simplified:**
  - `GoogleAuth.Verify` reduces a store error to `Failed`. Errors are produced only by a profile without emails, by a validation failure, and by a duplicate email.
  - `EntryRoutes.ServerErrorOnlyFromDates`: in the model the store never rejects a call and every query value is a string. In the source, a rejected `save`, `find`, `findOne` or `deleteOne` also reaches the handlers' 500 (api/routes/entries.js:29-32, 153-156, 170-173). So does a repeated query key such as `?month=a&month=b`, which makes `month` an array on which `split` throws. The fact holds only among the failures the model can produce.
  - `VerifyToken.Authenticate`: in the model the `User.findById` lookup never rejects. In the source, a database error or a cast error for a non-ObjectId `decoded.id` at api/middleware/verifyToken.js:28 also reaches the 500 at lines 57-61. The "500 exactly from an unclassified verification failure" fact holds only among the failures the model can produce.
- **Sign-up redirect:** `isNewUser` is the flag of `GoogleAuth.AuthResult`. The front-end redirect it drives is not modelled.
