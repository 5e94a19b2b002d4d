# JobPlatform client logic in Dafny

This project models the client-side logic of the JobPlatform mobile app, a
React Native job board over a hosted Postgres/PostgREST backend. It covers:

- `lib/filters.ts`: the job-list filter and sort, the salary parser and the
  location list (module `Filters`).
- `components/FilterPanel.tsx`: editing the feed's filter options (module
  `FilterPanel`).
- `lib/jobRefresh.ts`: the process-wide refresh bus and the two wrappers that
  order effects around mutations (module `JobRefresh`, class `RefreshBus`).
- `lib/storage.ts`: extension, size, path and MIME-type logic of uploads and
  pickers (module `Storage`).
- `lib/savedJobs.ts`: saved jobs over an abstract `saved_jobs` table (module
  `SavedJobs`, class `SavedJobsTable`).
- `components/BookmarkButton.tsx`: the bookmark button's state machine
  (module `Bookmark`, class `BookmarkButton`).
- `app/_layout.tsx`: the authentication redirect and the session/loading
  state (module `RootLayout`).
- `components/CreateJobAlertModal.tsx`, `components/CVUploadModal.tsx` and
  `components/EasyApplyModal.tsx`: the handlers of three dialogs (modules
  `CreateJobAlert`, `CvUpload`, `EasyApply`).

`Text` holds the string functions they share: character-wise lower-casing,
substring search, trimming, splitting on the last separator, decimal digits and
lexicographic order. `Results` holds `Option` and `Result`.

Pure code is modelled as functions with lemmas. Code that updates state (the
listener registry, the table, component state) is modelled as classes whose
methods state their new state through those functions. Backend answers, the
clock, pickers and the signed-in user are parameters: each method takes the
outcome of the call it awaits, including a failure.

Properties of note:

- `filterJobs` is a conjunctive filter followed by a stable sort. It permutes
  the kept jobs, orders them as the sort option asks and keeps ties in input
  order.
- The salary parser gives 0, the single number, or the mean of the first two
  numbers.
- The refresh bus calls each registered listener exactly once per trigger.
  After an unsubscribe it never calls that listener again.
- `withOptimisticUpdate` performs its effects in a fixed order on success and
  on failure.
- `uploadCV`'s MIME lookup by substring search labels `doc` files with the
  DOCX type and `docx` files as PDF (see Findings).
- When the lookup inside `toggleSaveJob` fails on a job that is already saved,
  the function saves it again. The save hits the unique constraint, which
  reads as success, so the bookmark button shows the job as unsaved while the
  row stays (`SavedJobs.ToggleAfterFailedLookup`,
  `Bookmark.FailedLookupShowsUnsaved`).
- The CV link check runs on the untrimmed text, so a leading space is always
  refused.

## Model

| member | source | states |
|---|---|---|
| Filters.SelectCount | lib/filters.ts:22-26 | `Array.prototype.filter` keeps each job satisfying the condition as often as it occurs and drops every other |
| Filters.KeepCriterion | lib/filters.ts:20-43 | a job is kept iff the search (skipped for a blank query; untrimmed lower-cased query in lower-cased title, description or location), the job-type test (skipped for an empty list) and the location test (skipped for an empty list; some lower-cased selected location occurs in the lower-cased job location) all hold |
| Filters.SelectAlways | lib/filters.ts:17 | an inactive stage keeps the list as it is |
| Filters.SelectTwice | lib/filters.ts:30-43 | filtering twice equals filtering once by the conjunction |
| Filters.SelectMaybe | lib/filters.ts:20-43 | a stage guarded by its activity test equals filtering by its condition or by the always-true one |
| Filters.NarrowIsConjunction | lib/filters.ts:17-43 | the three sequential stages equal one filter by the conjunction of the three conditions |
| Filters.LeadingDigits | lib/filters.ts:70 | the leading digit run is maximal: all digits, followed by a non-digit or the end |
| Filters.NumbersSkip | lib/filters.ts:70 | text without digits contributes no match to `/\d+/g` |
| Filters.NumbersRun | lib/filters.ts:70 | a maximal digit run contributes its decimal value, then the matching continues after it |
| Filters.LeadingRun | lib/filters.ts:70 | the leading run of a digit string followed by a non-digit is exactly that string |
| Filters.SalaryWithoutNumber | lib/filters.ts:71 | a salary string without a digit gives 0 |
| Filters.SalaryOfOneNumber | lib/filters.ts:73-75 | a string with exactly one digit run gives that number |
| Filters.SalaryOfRange | lib/filters.ts:77-80 | two digit runs give the mean of the first two, whatever follows |
| Filters.DocumentedSalaryExamples | lib/filters.ts:66-67 | "€1000-1500" gives 1250 and "€2000" gives 2000 |
| Filters.InsertMultiset | lib/filters.ts:46-60 | an insertion step of the sort adds exactly the inserted job |
| Filters.InsertHead | lib/filters.ts:46-60 | after an insertion the first job is the inserted one or the former first |
| Filters.InsertSorted | lib/filters.ts:46-60 | insertion into a rank-ordered list keeps it ordered |
| Filters.InsertClass | lib/filters.ts:46-60 | insertion puts the job ahead of the jobs of equal rank and changes no other rank class |
| Filters.StableSortCorrect | lib/filters.ts:46-60 | the sort orders by the comparator, is a permutation of its input and keeps jobs of equal rank in input order |
| Filters.FilterJobsKeeps | lib/filters.ts:12-63 | `filterJobs` returns each job passing all three filters as often as it occurs in the input, and nothing else |
| Filters.FilterJobsOrder | lib/filters.ts:46-60 | newest: non-increasing creation time; oldest: non-decreasing; salary: non-increasing parsed salary |
| Filters.FilterJobsStable | lib/filters.ts:46-60 | jobs that tie under the sort keep their input order |
| Filters.Distinct | lib/filters.ts:88 | `new Set(...)` has no duplicates and exactly the input's elements |
| Filters.InsertLex | lib/filters.ts:88 | inserting a new string into a strictly sorted list keeps it strictly sorted and adds exactly that string |
| Filters.SortLex | lib/filters.ts:88 | sorting distinct strings gives a strictly sorted list of the same elements |
| Filters.GetUniqueLocations | lib/filters.ts:86-89 | the result is sorted, has no duplicates and holds exactly the input's locations |
| Filters.StrictlySortedUnique | lib/filters.ts:88 | two strictly sorted lists with the same elements are equal, so the result is determined by the set of locations |
| FilterPanel.RemoveCount | components/FilterPanel.tsx:72 | `filter(t => t !== v)` drops every occurrence of v and keeps every other value with its multiplicity |
| FilterPanel.RemoveAbsent | components/FilterPanel.tsx:72 | removing an absent value changes nothing |
| FilterPanel.RemoveAppended | components/FilterPanel.tsx:72-73 | removing a value just appended to a list without it gives the list back |
| FilterPanel.ToggleEffect | components/FilterPanel.tsx:70-75 | toggling appends an absent value at the end and removes every occurrence of a present one |
| FilterPanel.ToggleFlipsMembership | components/FilterPanel.tsx:70-96 | a toggle flips the toggled value's membership and keeps every other value's |
| FilterPanel.ToggleTwiceAbsent | components/FilterPanel.tsx:70-75 | toggling an absent value twice gives the original list |
| FilterPanel.ToggleFromEmpty | components/__tests__/FilterPanel.test.tsx:46 | toggling full-time on an empty selection gives `['full-time']` |
| FilterPanel.ToggleJobTypeEffect | components/FilterPanel.tsx:70-75 | flips the job type's membership; every other field is unchanged |
| FilterPanel.ToggleLocationEffect | components/FilterPanel.tsx:77-82 | flips the location's membership; every other field is unchanged |
| FilterPanel.ToggleWorkModeEffect | components/FilterPanel.tsx:84-89 | flips the work mode's membership; every other field is unchanged |
| FilterPanel.ToggleExperienceLevelEffect | components/FilterPanel.tsx:91-96 | flips the level's membership; every other field is unchanged |
| FilterPanel.NoActiveFiltersIffCleared | components/FilterPanel.tsx:98-115 | no filter is active, and the clear-all button is hidden, exactly when all four lists are empty, there is no salary range and the date is "all"; the sort is free |
| FilterPanel.SortNeverCounts | components/FilterPanel.tsx:98-104 | choosing a sort order never changes whether filters are active |
| FilterPanel.AddingActivates | components/FilterPanel.tsx:98-104 | adding a job type or work mode makes a filter active |
| FilterPanel.PresetSelectedIffEqual | components/FilterPanel.tsx:256-258 | a salary chip is selected iff the current range has its min and max |
| FilterPanel.PressPresetSingleChoice | components/FilterPanel.tsx:250-270 | pressing the selected chip clears the range and leaves no chip selected; pressing another selects exactly that chip; nothing else changes |
| FilterPanel.PressPresetTwice | components/FilterPanel.tsx:267-270 | pressing a chip twice from no range restores the options |
| FilterPanel.ChoicesReplaceOneField | components/FilterPanel.tsx:304-337 | choosing a date or a sort sets only that field, idempotently |
| JobRefresh.SetAddEffect | lib/jobRefresh.ts:17-18 | subscribing makes the listener a member, keeps the registry free of repeats and other memberships unchanged; subscribing twice is subscribing once |
| JobRefresh.SetDeleteEffect | lib/jobRefresh.ts:19 | the unsubscribe function removes exactly that listener and keeps all others |
| JobRefresh.SetDeleteTwice | lib/jobRefresh.ts:19 | calling the unsubscribe function again changes nothing |
| JobRefresh.FirstRejectingSpec | lib/jobRefresh.ts:27-28 | a refresh succeeds iff no listener of the snapshot rejects; a failure names a rejecting listener |
| JobRefresh.RefreshCallsEachOnce | lib/jobRefresh.ts:25-29 | a trigger calls every listener registered at call time exactly once and nothing else |
| JobRefresh.RefreshEmpty | lib/jobRefresh.ts:25-29 | with no listener a trigger calls nothing and succeeds |
| JobRefresh.AbsentListenerSilent | lib/jobRefresh.ts:17-29 | a listener not registered and not subscribed again is never called by later triggers |
| JobRefresh.UnsubscribeSilences | lib/jobRefresh.ts:19-28 | after unsubscribing, no later trigger calls that listener unless it subscribes again |
| JobRefresh.MutationOrder | lib/jobRefresh.ts:35-51 | the caller's callback runs first; a refresh follows only when it completed |
| JobRefresh.OptimisticSuccessOrder | lib/jobRefresh.ts:70-84 | on success: optimistic update, server call, refresh, `onSuccess(result)`, and the result is returned |
| JobRefresh.OptimisticServerFailure | lib/jobRefresh.ts:85-90 | after a failed server call: only the catch block's refresh, `onError(error)`, the same error rethrown, `onSuccess` never called |
| JobRefresh.TryRefreshRejected | lib/jobRefresh.ts:78-90 | when the `try` block's refresh rejects, the listeners are called a second time by the catch block's refresh, then `onError` gets the first refresh's error, which is rethrown |
| JobRefresh.RefreshOnlyInvokes | lib/jobRefresh.ts:27 | a refresh's only effects are listener calls |
| JobRefresh.OptimisticOkIff | lib/jobRefresh.ts:70-90 | the wrapped call returns normally iff the optimistic update, the server call, the `try` block's refresh and `onSuccess` all succeed, and then returns the server's result |
| JobRefresh.RefreshBus.constructor | lib/jobRefresh.ts:12 | the registry starts empty |
| JobRefresh.RefreshBus.Subscribe | lib/jobRefresh.ts:17-18 | the registry becomes `set.add(l)` |
| JobRefresh.RefreshBus.Unsubscribe | lib/jobRefresh.ts:19 | the registry becomes `set.delete(l)`, which reports whether l was present |
| JobRefresh.RefreshBus.TriggerRefresh | lib/jobRefresh.ts:25-29 | the trace grows by a call to each listener of the snapshot, in order; the outcome is the first rejection |
| JobRefresh.RefreshBus.RunMutation | lib/jobRefresh.ts:35-51 | the trace and outcome of a mutation wrapper |
| JobRefresh.RefreshBus.Recover | lib/jobRefresh.ts:85-90 | the trace and outcome of the catch block, whose refresh meets the catch-time rejections |
| JobRefresh.RefreshBus.WithOptimisticUpdate | lib/jobRefresh.ts:64-92 | the trace and outcome of the wrapped call; the two refreshes meet their own listener rejections |
| JobRefresh.RefreshBus.CallServer | lib/jobRefresh.ts:75-90 | the server call, then the rest of the `try` block on a result or the catch block on a throw; the registry is unchanged |
| JobRefresh.RefreshBus.Settle | lib/jobRefresh.ts:78-90 | after a resolved server update: the refresh, then `onSuccess` and the result, or the catch block when the `try` block's refresh or `onSuccess` throws; the registry is unchanged |
| Storage.FileExtSpec | lib/storage.ts:24 | the extension is the lower-cased last dot-separated segment, without a dot; the fallback is used only when that segment is empty; a URI without a dot is its own extension |
| Storage.PathKeepsExtension | lib/storage.ts:28 | the path starts with `userId/` and its extension is the one it was built with |
| Storage.PhotoUploadSpec | lib/storage.ts:19-66 | a photo upload succeeds iff the extension is jpg/jpeg/png/webp, the file was read, it is at most 512000 bytes and storage accepts it; the extension is checked before the fetch, the size before the upload; content type `image/ext`, upsert on |
| Storage.CvContentTypeMatchesExtension | lib/storage.ts:8-13 | the corrected lookup gives pdf, doc and docx their own MIME types |
| Storage.CvContentTypeAsWrittenMislabels | lib/storage.ts:92 | the substring search maps pdf correctly, doc to the DOCX type and docx to application/pdf |
| Storage.FirstOfThree | lib/storage.ts:92 | `find` over three types returns the first one containing the extension |
| Storage.AsWrittenPdf | lib/storage.ts:92 | the search gives application/pdf for pdf |
| Storage.AsWrittenDoc | lib/storage.ts:92 | the search gives the wordprocessingml type for doc |
| Storage.AsWrittenDocx | lib/storage.ts:92 | the search finds no type for docx and falls back to application/pdf |
| Storage.CvUploadSpec | lib/storage.ts:71-108 | a CV upload succeeds iff the extension is pdf/doc/docx, the file was read, it is at most 2097152 bytes and storage accepts it; checks come before the fetch and the upload; the content type is the one the substring search gives; upsert off |
| Storage.CvLabelsAgreeIffPdf | lib/storage.ts:92 | for an allowed extension the substring search and the by-extension lookup agree exactly on pdf |
| Storage.UploadCvIntendedSpec | lib/storage.ts:92-101 | with the corrected lookup the upload has the same outcome and calls, except that the stored content type is the extension's own, which differs from the search's for doc and docx only |
| Storage.PickImageSpec | lib/storage.ts:113-142 | without permission the result is a permission error; a cancel or an empty asset list gives no URI; a reported size over 512000 bytes is refused as too large; otherwise the result is the first asset's URI |
| Storage.PickDocumentSpec | lib/storage.ts:147-167 | a cancel or an empty asset list gives no URI; a wrong type is reported exactly for a name with a non-empty last segment outside pdf/doc/docx; otherwise a reported size over 2097152 bytes is refused as too large, and any other asset gives its URI |
| Storage.DocumentWithoutDot | lib/storage.ts:156-159 | a document name without a dot is refused unless the whole name is an allowed extension |
| SavedJobs.IsJobSavedSpec | lib/savedJobs.ts:6-24 | the lookup reports saved iff the row exists and no error occurred; "not found" (PGRST116) and any other error give false |
| SavedJobs.ListingsSpec | lib/savedJobs.ts:85-122 | errors give [] and 0; otherwise the data passes through and a missing count is 0; a count of 2 gives 2 |
| SavedJobs.SaveIsIdempotent | lib/savedJobs.ts:29-48 | a save without a failure leaves the row saved and reports success, also when it was already saved |
| SavedJobs.SaveFailure | lib/savedJobs.ts:38-47 | a failed save leaves the table and reports success only for the duplicate-key code 23505 |
| SavedJobs.UnsaveSpec | lib/savedJobs.ts:53-67 | an unsave reports success iff no error, and then the row is gone; on an error the table is unchanged |
| SavedJobs.ToggleFlips | lib/savedJobs.ts:72-80 | a toggle without failures flips the row's membership, changes no other row, reports success, and inserts the row when starting unsaved |
| SavedJobs.ToggleAfterFailedLookup | lib/savedJobs.ts:72-80 | a toggle whose lookup fails on a saved job saves again, hits 23505 and reports success with the table unchanged |
| SavedJobs.SavedJobsTable.IsJobSaved | lib/savedJobs.ts:6-24 | true iff the lookup did not fail and the (user, job) row exists |
| SavedJobs.SavedJobsTable.SaveJob | lib/savedJobs.ts:29-48 | the table and result follow the insert, the unique constraint and the error mapping |
| SavedJobs.SavedJobsTable.UnsaveJob | lib/savedJobs.ts:53-67 | the table and result follow the delete and the error mapping |
| SavedJobs.SavedJobsTable.ToggleSaveJob | lib/savedJobs.ts:72-80 | look up, then unsave when found and save otherwise |
| SavedJobs.SavedJobsTable.GetSavedJobsCount | lib/savedJobs.ts:109-122 | the number of the user's rows, or 0 on an error |
| Bookmark.ToggleOutcomeSpec | components/BookmarkButton.tsx:38-51 | signed in, a successful toggle sets the opposite of the state seen at the press and passes it to `onToggle` when given; a failed toggle changes nothing and calls nothing; without a user one alert and no change; an `onToggle` that throws is followed by the error alert, the new state staying |
| Bookmark.PressUnsavedCallsBack | components/__tests__/BookmarkButton.test.tsx:31-43 | pressing an unsaved job-2 as u1 requests the toggle for (u1, job-2) and calls `onToggle(true)` |
| Bookmark.ToggleKeepsAgreement | components/BookmarkButton.tsx:44-49 | when the button agrees with the table and the lookup succeeds, it still agrees after the toggle, whether the write succeeds or fails with any code but the duplicate key 23505 |
| Bookmark.FailedLookupShowsUnsaved | components/BookmarkButton.tsx:44-49 | a failed lookup on a saved job leaves the row in the table but turns the button to unsaved |
| Bookmark.BookmarkButton.constructor | components/BookmarkButton.tsx:14-15 | not saved and not loading at mount |
| Bookmark.BookmarkButton.CheckSavedStatus | components/BookmarkButton.tsx:17-31 | signed in, `isSaved` becomes the lookup of (user, jobId); otherwise nothing changes |
| Bookmark.BookmarkButton.Press | components/BookmarkButton.tsx:33-37 | a press while loading changes nothing; otherwise loading is set and the current `isSaved` is captured |
| Bookmark.BookmarkButton.Complete | components/BookmarkButton.tsx:38-54 | the table toggles when signed in, the state follows `ToggleOutcome` (including a throwing `onToggle`), and loading is false on every path |
| RootLayout.RedirectSpec | app/_layout.tsx:87-138 | no redirect while loading; login exactly when signed out outside the auth group; a role-chosen screen exactly when signed in inside the auth group or on the tabs index; nothing otherwise |
| RootLayout.RoleRouteSpec | app/_layout.tsx:108-116 | my-jobs exactly for the employer role; a missing profile, another role or a throw lead to the feed |
| RootLayout.RedirectSettles | app/_layout.tsx:87-138 | on the chosen route the same session leads to no further redirect |
| RootLayout.ReplaySpec | app/_layout.tsx:72-85 | loading is false exactly after the initial session read; the session is the latest callback's |
| RootLayout.RootLayoutNav.constructor | app/_layout.tsx:69-70 | no session, loading |
| RootLayout.RootLayoutNav.InitialSessionRead | app/_layout.tsx:74-77 | stores the session and stops loading |
| RootLayout.RootLayoutNav.AuthStateChanged | app/_layout.tsx:80-82 | replaces only the session |
| RootLayout.RootLayoutNav.RedirectEffect | app/_layout.tsx:87-138 | decides the redirect from the current state |
| CreateJobAlert.NamePartsSpec | components/CreateJobAlertModal.tsx:61-73 | the name parts are exactly the non-empty job type, location and work mode, in that order: one part per non-empty field, the location right after the job type when there is one; the search query and experience level never contribute; none means no parts |
| CreateJobAlert.AutoNameExample | components/CreateJobAlertModal.tsx:64-70 | full-time in Tirana with an empty work mode gives "full-time - Tirana" |
| CreateJobAlert.SaveOutcomeSpec | components/CreateJobAlertModal.tsx:75-94 | a save is refused exactly for a blank name; an accepted one keeps the name untrimmed, copies the five filters, the frequency and the active flag, and sets no minimum salary |
| CreateJobAlert.CreateJobAlertModal.constructor | components/CreateJobAlertModal.tsx:49-51 | starts with no name, daily, active |
| CreateJobAlert.CreateJobAlertModal.AutoName | components/CreateJobAlertModal.tsx:61-73 | when visible with filters and some part, the name becomes the parts joined by " - "; otherwise it stays |
| CreateJobAlert.CreateJobAlertModal.ResetForm | components/CreateJobAlertModal.tsx:96-100 | back to no name, daily, active |
| CreateJobAlert.CreateJobAlertModal.HandleSave | components/CreateJobAlertModal.tsx:75-94 | a blank name alerts and keeps the form; otherwise `onSave` gets the alert and the form is reset |
| CreateJobAlert.CreateJobAlertModal.HandleClose | components/CreateJobAlertModal.tsx:102-105 | resets the form, then `onClose` |
| CvUpload.FilePickSpec | components/CVUploadModal.tsx:24-42 | a cancel, or a pick giving an empty URI (falsy for `!docUri`), does nothing; `onSuccess(url)` runs exactly when pick, upload and update succeed, after the upload and the profile update; `onClose` follows unless `onSuccess` throws; any failure, a throwing `onSuccess` included, ends with one alert |
| CvUpload.LinkSubmitSpec | components/CVUploadModal.tsx:44-66 | the profile is updated exactly for a non-blank link with an http or https scheme, with the link untrimmed; then `onSuccess(link)` and `onClose`; a failed update gives one alert with its message and no success; a throwing `onSuccess` gives the alert instead of `onClose` |
| CvUpload.LeadingSpaceRefused | components/CVUploadModal.tsx:51-54 | a link with a leading space never passes the scheme check |
| CvUpload.CvUploadModal.constructor | components/CVUploadModal.tsx:20-22 | select mode, empty link, not loading |
| CvUpload.CvUploadModal.ChooseLink | components/CVUploadModal.tsx:105 | switches to link mode only |
| CvUpload.CvUploadModal.Back | components/CVUploadModal.tsx:125 | switches back to select mode, keeping the link |
| CvUpload.CvUploadModal.EditLink | components/CVUploadModal.tsx:118 | replaces the link only |
| CvUpload.CvUploadModal.HandleFilePick | components/CVUploadModal.tsx:24-42 | effects as `FilePickEffects`, where a missing or empty URI is a cancel; loading false on every path |
| CvUpload.CvUploadModal.HandleLinkSubmit | components/CVUploadModal.tsx:44-66 | effects as `LinkSubmitEffects`; loading false after every submitted update, untouched when validation refuses |
| CvUpload.CvUploadModal.SaveLink | components/CVUploadModal.tsx:56-65 | the profile update with the link as typed, then success and close, or one alert with the thrown message or the default text; loading cleared on both paths |
| CvUpload.CvUploadModal.ResetAndClose | components/CVUploadModal.tsx:68-72 | select mode, empty link, then `onClose` |
| EasyApply.QuickApplySpec | components/EasyApplyModal.tsx:47-58 | quick apply applies exactly with a default CV, passing it with the quick flag, then closes; otherwise it only alerts |
| EasyApply.ApplyExamples | components/__tests__/EasyApplyModal.test.tsx:20-55 | the test profile's quick apply passes the default CV, not the profile CV; profile-only apply passes no CV |
| EasyApply.ExistingCvSpec | components/EasyApplyModal.tsx:65-70 | applying with the existing CV acts exactly when the option is shown, passing the profile CV |
| EasyApply.UploadNewCvSpec | components/EasyApplyModal.tsx:72-98 | a cancelled or throwing pick, or one giving an empty URI (falsy for `!cvUri`), does nothing; an application happens exactly after a pick, a signed-in user and a successful upload, with the uploaded URL; with set-as-default both CV fields are updated first; the dialog closes exactly then unless `onApply` throws, which ends in the error alert |
| EasyApply.SetDefaultCvSpec | components/EasyApplyModal.tsx:100-120 | needs a profile CV; an update that does not throw, including one whose error the response carries unread, makes it the local default, so quick apply is offered; otherwise the profile is unchanged |
| EasyApply.EasyApplyModal.constructor | components/EasyApplyModal.tsx:18-20 | no profile, not uploading |
| EasyApply.EasyApplyModal.LoadUserProfile | components/EasyApplyModal.tsx:36-45 | a returned profile replaces the current one; a missing one or a throw keeps it |
| EasyApply.EasyApplyModal.HandleQuickApply | components/EasyApplyModal.tsx:47-58 | effects as `QuickApplyEffects` |
| EasyApply.EasyApplyModal.HandleApplyWithProfile | components/EasyApplyModal.tsx:60-63 | `onApply(null)`, then `onClose` |
| EasyApply.EasyApplyModal.HandleApplyWithExistingCv | components/EasyApplyModal.tsx:65-70 | effects as `ApplyWithExistingCvEffects` |
| EasyApply.EasyApplyModal.HandleUploadNewCv | components/EasyApplyModal.tsx:72-98 | effects as `UploadNewCvEffects`, where a missing or empty URI returns at once; uploading false after a non-empty pick; the local profile is not updated |
| EasyApply.EasyApplyModal.HandleSetDefaultCv | components/EasyApplyModal.tsx:100-120 | profile and effects as `SetDefaultCvOutcome` |
| Text.ToLowerIdempotent | lib/filters.ts:21-25 | lower-casing twice is lower-casing once |
| Text.ContainsIffOccurs | lib/filters.ts:23-25 | `includes` holds iff the needle occurs at some index |
| Text.TrimEmptyIffBlank | lib/filters.ts:20 | a string trims to empty iff it is all whitespace |
| Text.LastSegment | lib/storage.ts:24 | `split(sep).pop()` is the suffix after the last separator, or the whole string |
| Text.DecimalRoundTrip | lib/storage.ts:28 | the decimal digits of a number read back as that number |
| Text.LexLessTransitive | lib/filters.ts:88 | the default sort order is transitive |
| Text.LexLessTotal | lib/filters.ts:88 | any two distinct strings are ordered one way |

## Left out

- Rendering, styling, fonts, the splash screen and the query-client settings are not modelled.
- `debounce` (lib/filters.ts:94-109) is left out because it is built on timers.
- Asynchrony is modelled as a sequence: each awaited call becomes an input outcome and the handler's effects are an ordered trace. Interleavings between two handlers of one component are not modelled, except the bookmark button's press and completion.
- Bookmark.BookmarkButton.Press: the guard reads the current `loading`. React's render-time value, which two presses within one render could both see as false, is not modelled.
- JobRefresh.FirstRejectingSpec: `Promise.all` rejects with the first rejection in time. The model takes the first rejecting listener in registry order. A listener that throws synchronously is not modelled.
- Text.ToLower: lower-casing covers ASCII letters only. There is no Unicode case mapping.
- Text.LexLess: the default sort compares code points, not UTF-16 code units.
- Filters.FilterJobsOrder: creation times are integers. Date parsing, including an unparsable date giving NaN, is not modelled.
- Filters.SalaryOfRange: `parseInt` of very long digit runs loses precision in floating point. The model uses exact reals.
- Storage.CvUploadSpec: the returned public URL is represented by the bucket and path. `getPublicUrl` is not modelled, and neither are fetch errors beyond "could not be read".
- Storage.PickDocumentSpec: the picker's own MIME-type filter is not modelled.
- SavedJobs.ListingsSpec: `getSavedJobs` asks the backend to order the rows by `created_at`, newest first. The model passes the returned data through and does not restate that ordering.
- SavedJobs.SavedJobsTable.IsJobSaved: the table holds (user, job) pairs only. Row ids and timestamps are not modelled.
- Logging (`console.log`, `console.error`) is not modelled.
- Parent callbacks other than `onToggle` (BookmarkButton), `onSuccess` (CVUploadModal), `onApply` inside the upload handler (EasyApplyModal) and the refresh bus's callbacks are taken to return normally: `onClose` everywhere, `onSave` in `CreateJobAlert.CreateJobAlertModal.HandleSave`, and `onApply` in `EasyApply.EasyApplyModal.HandleQuickApply`, `HandleApplyWithProfile` and `HandleApplyWithExistingCv`, where no `try` surrounds it and a throw would leave the handler.
- lib/auth.ts, lib/supabase.ts and the pickers are not part of this model. Their results are inputs.

## Findings

| source | as written | input that shows it | evidently intended | confidence | as-written member | corrected member |
|---|---|---|---|---|---|---|
| lib/storage.ts:92 | the CV content type is the first of the three MIME types containing the extension as a substring, else application/pdf | a CV named `cv.doc` is uploaded as `application/vnd.openxmlformats-officedocument.wordprocessingml.document`, and `cv.docx` as `application/pdf` | each extension gets its own type: pdf → application/pdf, doc → application/msword, docx → the wordprocessingml type | high; not executed | Storage.CvContentTypeAsWrittenMislabels | Storage.CvContentTypeMatchesExtension |
