# HireSwift front end: the decision logic, in Dafny

HireSwift is a hiring platform. Talents apply to jobs and ask for their skills
to be verified. Hiring managers run hiring cycles made of steps. Admins review
verification requests and browse the user lists. Its React client leaves all
storage to a hosted database and authentication service. What the client
decides for itself is modelled here:

- which applications a hiring step shows, and with which badge;
- the statistics of a hiring cycle: counts, pass rate, the ranking of the
  finalists by average mark, and which of them may be hired;
- the job form's skill toggle, submit guard and date default;
- the row built by the "add step" dialog;
- the sign-up and sign-in validation, the routing after sign-in, onboarding,
  and the landing page's redirect;
- the skill-verification life cycle: a request is created pending, listed
  newest first under a status selector, and approved or rejected once
  (by visits that do not overlap);
- the side navigation's role precedence, its links and the highlighted link;
- the breadcrumb title computed from the URL path;
- the admin lists that join profile rows with the authentication service's
  users.

Every database or authentication call is a parameter: the rows a query
returns, or whether it failed. A table that a handler writes to is an object
whose rows the method changes (`VerificationTable`, and the two profile tables
of `StatusSelectionPage`). Each React component with state is a `class` whose
fields are its `useState` variables, and each handler that updates them is a
method. Pure helpers are functions. JavaScript built-ins the logic depends on
are written out: `trim`, the `\s` class, `RegExp.test` with
`\S+@\S+\.\S+`, `split`, `join`, `filter`, `parseInt`, `String(n)`,
`padStart` and `replace`.

Modules, one per source file plus shared ones:

| module | file | models |
|---|---|---|
| Common | common.dfy | optional values, query outcomes, auth users, navigation calls, `Array.prototype.filter` |
| FieldRules | field_rules.dfy | JavaScript white space, `trim`, the email regex, error clearing |
| Numerals | numerals.dfy | `String(n)` and `parseInt` |
| HiringData | hiring_data.dfy | step, application and job rows |
| StepDetails | step_details.dfy | components/hiring-cycles/StepDetails.jsx |
| ViewStatistics | view_statistics.dfy | components/hiring-cycles/ViewStatistics.jsx |
| AddStepForm | add_step_form.dfy | components/hiring-cycles/AddStepForm.jsx |
| CreateJobForm | create_job_form.dfy | components/jobs/CreateJobForm.jsx |
| Register | register.dfy | pages/auth/Register.jsx |
| Login | login.dfy | pages/auth/Login.jsx |
| StatusSelection | status_selection.dfy | pages/auth/StatusSelection.jsx |
| Home | home.dfy | pages/Home.jsx |
| VerificationLog | verification_log.dfy | the `verifications` table both verification pages use |
| Verifications | verifications.dfy | pages/Verifications.jsx |
| AdminVerifications | admin_verifications.dfy | pages/admin/AdminVerifications.jsx |
| AdminVerificationDetails | admin_verification_details.dfy | pages/admin/AdminVerificationDetails.jsx |
| AuthenticatedPage | authenticated_page.dfy | pages/auth/AuthenticatedPage.jsx |
| SideNav | side_nav.dfy | components/layout/SideNav.jsx |
| UserDirectory | user_directory.dfy | the user join of pages/admin/AdminTalents.jsx |
| AdminHiringManagers | admin_hiring_managers.dfy | pages/admin/AdminHiringManagers.jsx |

## Model

| member | source | states |
|---|---|---|
| Common.Filter | src/components/hiring-cycles/StepDetails.jsx:17-21 | `filter` keeps exactly the elements that satisfy the predicate, and every kept element satisfies it |
| Common.FilterIsSubsequence | src/components/hiring-cycles/StepDetails.jsx:15-24 | a filter result is a subsequence of its input: nothing is added or reordered |
| Common.FilterMultiplicity | src/components/hiring-cycles/StepDetails.jsx:17-21 | a filter keeps every copy of a kept element: each kept element occurs as often as in the input, and a dropped one not at all |
| Common.FilterAppend | src/components/jobs/CreateJobForm.jsx:47-49 | filtering a concatenation filters each part separately |
| Common.FilterAll | src/components/hiring-cycles/StepDetails.jsx:22-23 | a predicate that holds everywhere returns the list unchanged |
| Common.FilterNone | src/components/hiring-cycles/StepDetails.jsx:16-17 | a predicate that holds nowhere returns the empty list |
| FieldRules.TrimStart | src/pages/auth/Register.jsx:33 | the result is a suffix of the input, everything dropped is white space, and the result does not start with white space |
| FieldRules.TrimEnd | src/pages/auth/Register.jsx:33 | the result is a prefix of the input, everything dropped is white space, and the result does not end with white space |
| FieldRules.TrimStartNoSpace | src/pages/auth/Register.jsx:33 | text that does not begin with white space is unchanged by `trimStart` |
| FieldRules.TrimStartSkipsBlank | src/pages/auth/Register.jsx:33 | leading white space of any length makes no difference to `trimStart` |
| FieldRules.BlankTrimsToEmpty | src/pages/auth/Register.jsx:37 | all-white-space text trims to the empty string |
| FieldRules.TrimEmptyIffBlank | src/pages/auth/Register.jsx:33-37 | `s.trim()` (`Trim`) is empty exactly when `s` is empty or all white space (`IsBlank`), in both directions |
| FieldRules.Filled | src/pages/auth/Login.jsx:34 | `s.trim()` is truthy exactly when some character of `s` is not white space |
| FieldRules.EmailFormatOkIffRegex | src/pages/auth/Register.jsx:39 | the character-level email test `EmailFormatOk` accepts exactly the strings in which some substring fully matches `\S+@\S+\.\S+` |
| FieldRules.NoAtNoEmail | src/pages/auth/Register.jsx:39 | text without an '@' never passes the email test |
| FieldRules.EmailError | src/pages/auth/Login.jsx:34-38 | blank gives "Email is required", otherwise a failed pattern gives "Invalid email format", otherwise no error; each case holds in both directions |
| FieldRules.ClearMessage | src/pages/auth/Register.jsx:22-27 | after an edit the field's slot shows nothing, and the slot exists afterwards exactly when it existed before |
| Numerals.NatToString | src/components/jobs/CreateJobForm.jsx:61-62 | `String(n)` is a non-empty string of decimal digits |
| Numerals.NatToStringRoundTrip | src/components/jobs/CreateJobForm.jsx:61-62 | reading back the digits `String(n)` writes gives `n` |
| Numerals.NoLeadingZero | src/components/jobs/CreateJobForm.jsx:61-62 | `String(n)` starts with '0' exactly when `n` is 0 |
| Numerals.NatToStringLength | src/components/jobs/CreateJobForm.jsx:60 | a number with k digits is written with k characters |
| Numerals.DigitOf | src/components/hiring-cycles/AddStepForm.jsx:27 | a digit's value is below the radix, and in base 10 the digits are exactly '0'-'9' with their usual values |
| Numerals.DigitRun | src/components/hiring-cycles/AddStepForm.jsx:27 | `parseInt` reads the longest prefix of digits: every character before the stop is a digit and the character at the stop is not |
| Numerals.ParseDigits | src/components/hiring-cycles/AddStepForm.jsx:27 | `parseInt` gives NaN exactly when no digit follows the sign and prefix |
| Numerals.DecimalValue | src/components/hiring-cycles/AddStepForm.jsx:27 | base-10 reading by `parseInt` agrees with the decimal value of the digits |
| Numerals.ParseSignedPlain | src/components/hiring-cycles/AddStepForm.jsx:27 | text without a sign is read as it stands |
| Numerals.ParseSignedMinus | src/components/hiring-cycles/AddStepForm.jsx:27 | a leading '-' negates the number that follows |
| Numerals.ParseUnsignedDecimal | src/components/hiring-cycles/AddStepForm.jsx:27 | the digits of n followed by a non-digit read back as n |
| Numerals.DecimalPrefix | src/components/hiring-cycles/AddStepForm.jsx:27-29 | `parseInt` (`ParseInt`, through `ParseSigned` and `ParseUnsigned`) reads back what `String(n)` wrote, with or without a minus sign, ignoring any non-digit tail |
| Numerals.UnsignedText | src/components/hiring-cycles/AddStepForm.jsx:27 | text starting with a digit needs no trimming or sign handling |
| Numerals.NegativeText | src/components/hiring-cycles/AddStepForm.jsx:27 | text starting with '-' is the negation of the rest |
| Numerals.ParseIntSkipsSpace | src/components/hiring-cycles/AddStepForm.jsx:27 | leading white space does not change what `parseInt` returns |
| Numerals.BlankIsNaN | src/components/hiring-cycles/AddStepForm.jsx:27 | empty or all-white-space text gives NaN |
| Numerals.HexText | src/components/hiring-cycles/AddStepForm.jsx:29 | text starting with "0x" or "0X" is read in base 16 from its third character |
| Numerals.HexPrefix | src/components/hiring-cycles/AddStepForm.jsx:29 | a "0x" or "0X" prefix switches `parseInt` to base 16 |
| Numerals.NegativeHexPrefix | src/components/hiring-cycles/AddStepForm.jsx:29 | a sign before the hex prefix negates the base-16 value |
| Numerals.EmptyHexIsNaN | src/components/hiring-cycles/AddStepForm.jsx:29 | "0x" with no digit after it is NaN, not 0 |
| StepDetails.StatusPriority | src/components/hiring-cycles/StepDetails.jsx:27-32 | `getApplicationStatus` (`ApplicationStatus`): the badge is Passed iff the id is on the passed list; Failed iff it is on the failed list but not the passed one; Ongoing iff it is only on the applications list; Unknown otherwise |
| StepDetails.FilteredApplications | src/components/hiring-cycles/StepDetails.jsx:8-25 | Every view is a subsequence of the step's applications. 'passed' and 'failed' keep exactly the records whose id is on that list, each as many times as it occurs in the applications. 'ongoing' keeps exactly the records whose id occurs as an element of the same applications list, with the same multiplicity. Any other filter returns the list unchanged |
| StepDetails.MissingListsAreEmpty | src/components/hiring-cycles/StepDetails.jsx:9-13 | a missing list gives the same badge and the same view, under every filter, as an empty list |
| StepDetails.OngoingEmptyOnUniformList | src/components/hiring-cycles/StepDetails.jsx:13-17 | if the applications list holds only records, or only bare ids, the 'ongoing' view is empty |
| StepDetails.IdListHidesPassedAndFailed | src/components/hiring-cycles/StepDetails.jsx:18-21 | if the applications list holds only bare ids, the 'passed' and 'failed' views are empty |
| StepDetails.PassedViewMatchesBadge | src/components/hiring-cycles/StepDetails.jsx:18-19 | a record of the step is in the 'passed' view exactly when its badge is Passed |
| StepDetails.FailedViewCanShowPassedBadge | src/components/hiring-cycles/StepDetails.jsx:20-21 | an id on both lists is shown under 'failed' yet badged Passed |
| ViewStatistics.PassRate | src/components/hiring-cycles/ViewStatistics.jsx:14 | the rate is passed/total × 100 and 0 with no decisions. It lies in [0, 100], is 100 iff all decided passed, and is 0 iff none passed |
| ViewStatistics.StepStatistics | src/components/hiring-cycles/ViewStatistics.jsx:10-14 | the counts are the lengths of the passed and failed lists (missing is empty), the total is their sum, and the rate is the pass rate of those counts |
| ViewStatistics.OngoingNotCounted | src/components/hiring-cycles/ViewStatistics.jsx:11-13 | adding ongoing applications to a step changes none of its statistics |
| ViewStatistics.AverageMarks | src/components/hiring-cycles/ViewStatistics.jsx:87-89 | the average times the number of marks is their sum, and missing or empty marks average 0 |
| ViewStatistics.SumBounds | src/components/hiring-cycles/ViewStatistics.jsx:88 | n marks each within [lo, hi] sum to a total within [lo·n, hi·n] |
| ViewStatistics.AverageWithinBounds | src/components/hiring-cycles/ViewStatistics.jsx:87-89 | an average lies between the smallest and the largest possible mark |
| ViewStatistics.WithAverage | src/components/hiring-cycles/ViewStatistics.jsx:85-90 | the ranked row keeps the application and carries its average mark |
| ViewStatistics.WithAverages | src/components/hiring-cycles/ViewStatistics.jsx:84-90 | one ranked row per fetched application, in the same order |
| ViewStatistics.Swap | src/components/hiring-cycles/ViewStatistics.jsx:91 | exchanges two rows and leaves every other row in place |
| ViewStatistics.SortByAverage | src/components/hiring-cycles/ViewStatistics.jsx:91 | after the in-place sort the array is a permutation of what it held, ordered by non-increasing average |
| ViewStatistics.HireSlots | src/components/hiring-cycles/ViewStatistics.jsx:137-139 | the number of hireable rows is min(open positions, ranked), with missing open positions counted as 0 and never below 0 |
| ViewStatistics.HireEligibleIsPrefix | src/components/hiring-cycles/ViewStatistics.jsx:137-139 | `canHire` (`CanHire`): a ranked row may be hired iff its index is below the number of hire slots |
| ViewStatistics.HireColumn | src/components/hiring-cycles/ViewStatistics.jsx:190-196 | the highlighted rows are exactly the first `HireSlots` rows of the ranking |
| ViewStatistics.StatisticsView.FetchData | src/components/hiring-cycles/ViewStatistics.jsx:51-107 | Loading always ends. With no steps, steps, job and ranking stay as they were. Only the last step's passed applications are ranked. If that list is empty the ranking stays as it was, and so does everything on an application-query error. Otherwise steps and job are stored, and the ranking is a permutation of the fetched finalists with averages, highest first |
| CreateJobForm.HandleChange | src/components/jobs/CreateJobForm.jsx:36-42 | the named field takes the value and every other field, skills included, is unchanged |
| CreateJobForm.Without | src/components/jobs/CreateJobForm.jsx:48 | every occurrence of the id is removed, other ids keep membership and relative order, and the length drops by the number of occurrences |
| CreateJobForm.ToggleSkill | src/components/jobs/CreateJobForm.jsx:47-49 | a selected id is removed everywhere and an unselected one is appended at the end. The id ends up selected iff it was not before, and the other ids' membership is unchanged |
| CreateJobForm.HandleSkillChange | src/components/jobs/CreateJobForm.jsx:45-56 | only the skills change: every text field stays, the clicked id flips, and no other id flips |
| CreateJobForm.ToggleTwiceUnselected | src/components/jobs/CreateJobForm.jsx:45-56 | clicking an unselected skill twice restores the exact list |
| CreateJobForm.ToggleTwiceSelected | src/components/jobs/CreateJobForm.jsx:45-56 | clicking a selected skill twice restores membership, with the id now once and at the end |
| CreateJobForm.ToggleKeepsNoDuplicates | src/components/jobs/CreateJobForm.jsx:47-49 | a list without repeated ids never gets one by toggling |
| CreateJobForm.HandleSubmit | src/components/jobs/CreateJobForm.jsx:66-75 | `onSubmit` receives the unchanged form exactly when at least one skill is selected |
| CreateJobForm.TwoDigits | src/components/jobs/CreateJobForm.jsx:61-62 | padding a month or day of 1..99 gives two digits that read back as the number |
| CreateJobForm.CurrentDate | src/components/jobs/CreateJobForm.jsx:58-64 | the date is digits with a '-' after the year and after the month; the parts read back as the year, the 1-based month and the day; a four-digit year gives ten characters |
| AddStepForm.BuildStep | src/components/hiring-cycles/AddStepForm.jsx:23-33 | cycle id, name and description are copied; sequence order is `parseInt` of its text; url and pass mark are present iff their text is non-empty, the pass mark through `parseInt`; all three id lists are empty |
| AddStepForm.TypedPassMarkIsStored | src/components/hiring-cycles/AddStepForm.jsx:29 | a pass mark typed as the digits of any natural number is stored as that number; "0" is non-empty text, so it is stored, as 0 |
| AddStepForm.NewStepIsEmpty | src/components/hiring-cycles/AddStepForm.jsx:30-32 | a new step badges every id Unknown, shows nothing under any filter, and has all-zero statistics |
| AddStepForm.HandleSubmit | src/components/hiring-cycles/AddStepForm.jsx:14-49 | An empty name, description or order gives only the error toast, with no insert. Otherwise the built row is inserted. A failed insert gives the error toast. A successful one gives the success toast, then `onSuccess`, then `onClose` |
| Register.SetField | src/pages/auth/Register.jsx:16-19 | the named field takes the value; the others are unchanged |
| Register.SetError | src/pages/auth/Register.jsx:23-26 | one error slot takes the message; the others are unchanged |
| Register.RegisterErrors | src/pages/auth/Register.jsx:30-51 | A name error iff the name is blank. An email error iff it is blank or malformed, with the matching message. A password error iff it is shorter than 6, "required" when empty. A mismatch error iff the two passwords differ, whatever the other rules say |
| Register.ValidIffAllRulesHold | src/pages/auth/Register.jsx:53-54 | validation passes iff the name is not blank, the email is not blank and contains a regex match, the password has at least 6 characters, and the confirmation equals it. `IsFormValid`, the button's condition, is stated by the three lemmas below |
| Register.ValidatedFormIsEnabled | src/pages/auth/Register.jsx:65-74 | a form that passes validation has the submit button enabled |
| Register.BlankNameIsEnabled | src/pages/auth/Register.jsx:65-74 | a white-space name fails validation but enables the button |
| Register.MalformedEmailIsEnabled | src/pages/auth/Register.jsx:65-74 | an email without '@' fails validation but enables the button |
| Register.RegisterPage.HandleChange | src/pages/auth/Register.jsx:14-28 | the edited field takes the value, and only that field's shown message is blanked |
| Register.RegisterPage.ValidateForm | src/pages/auth/Register.jsx:30-55 | the stored errors are exactly `RegisterErrors` of the form, and it returns true iff there are none |
| Login.SetField | src/pages/auth/Login.jsx:18-21 | the named field takes the value; the other is unchanged |
| Login.ValidationErrors | src/pages/auth/Login.jsx:31-46 | The email rule is the sign-up one. The password error is set iff the password is empty. No submit error. Validation passes iff the email is valid and the password non-empty |
| Login.ShortPasswordAccepted | src/pages/auth/Login.jsx:40-42 | a one-character password passes sign-in validation |
| Login.RouteAfterSignIn | src/pages/auth/Login.jsx:75-103 | A talent profile goes to /explore as 'talent', even with a manager profile. Otherwise a manager profile goes to /jobs as 'hiring_manager'. Otherwise the user goes to /select-status with no status. Every case replaces history and carries the name |
| Login.RouteAgreesWithHome | src/pages/Home.jsx:10-17 | a named user routed to /explore or /jobs by sign-in is forwarded to the same page by the landing page |
| Login.LoginPage.HandleChange | src/pages/auth/Login.jsx:16-29 | the edited field takes the value, and only that field's shown message is blanked |
| Login.LoginPage.HandleSubmit | src/pages/auth/Login.jsx:48-115 | Validation errors replace the old errors, and a failed validation attempts nothing. A sign-in error stores its message, or the default text, under `submit`, without navigating. A signed-in user is navigated by `RouteAfterSignIn`. Loading ends off |
| StatusSelection.SetField | src/pages/auth/StatusSelection.jsx:65-71 | the named field takes the value; the others are unchanged |
| StatusSelection.TalentRecordOf | src/pages/auth/StatusSelection.jsx:97-103 | the talent row holds exactly the user id, the bio and the experience |
| StatusSelection.ManagerRecordOf | src/pages/auth/StatusSelection.jsx:110-116 | the manager row holds exactly the user id, the chosen organization as `org_id`, and the title |
| StatusSelection.RecordsIgnoreOtherRole | src/pages/auth/StatusSelection.jsx:94-116 | the other role's fields never reach the stored row |
| StatusSelection.Landing | src/pages/auth/StatusSelection.jsx:122-127 | the page goes to /home without replacing history, carrying the user's name and the chosen role |
| StatusSelection.LandingAgreesWithSignIn | src/pages/auth/StatusSelection.jsx:122-127 | after onboarding as talent or hiring manager, the landing page forwards to the page a later sign-in with that profile leads to |
| StatusSelection.StatusSelectionPage.FetchOrganizations | src/pages/auth/StatusSelection.jsx:28-63 | rows fill the select, no data empties it, a failed query sets the load error, and loading ends off |
| StatusSelection.StatusSelectionPage.HandleChange | src/pages/auth/StatusSelection.jsx:65-71 | one form field changes; all other state stays |
| StatusSelection.StatusSelectionPage.HandleStatusChange | src/pages/auth/StatusSelection.jsx:73-82 | the role is set, every form field is reset to empty, and the submit button is enabled iff the role is non-empty and no submission is under way |
| StatusSelection.StatusSelectionPage.HandleSubmit | src/pages/auth/StatusSelection.jsx:84-135 | With no user the error is "No user found" and nothing is stored. Otherwise only the chosen role's table gains its row, and only on success. A failed insert shows its message and does not navigate. Any success navigates to /home. Loading ends off, so the button is enabled again iff a role is chosen |
| Home.FirstUnderscore | src/pages/Home.jsx:31 | the position of the first '_', or the length when there is none |
| Home.ReplaceFirstUnderscore | src/pages/Home.jsx:31 | same length; only the first '_' becomes a space |
| Home.ReplaceAtFirstUnderscore | src/pages/Home.jsx:31 | the text before the first '_' and everything after it, later underscores included, are kept |
| Home.HiringManagerRoleLine | src/pages/Home.jsx:31 | "hiring_manager" reads "hiring manager" |
| Home.SecondUnderscoreKept | src/pages/Home.jsx:31 | a second underscore stays: "a_b_c" reads "a b_c" |
| Home.HomeDecision | src/pages/Home.jsx:10-34 | A missing name or status redirects to /login, and only that does. 'talent' forwards to /explore and 'hiring_manager' to /jobs, both with name and status. Any other status shows the welcome view with the converted role line |
| Home.WelcomeOnlyForOtherStatus | src/pages/Home.jsx:20-34 | the welcome view is shown iff name and status are present and the status is neither role |
| VerificationLog.StatusBadge | src/pages/Verifications.jsx:203-212 | 'approved' gives Approved and 'rejected' gives Rejected, each iff; every other status gives Pending |
| VerificationLog.InsertByTime | src/pages/Verifications.jsx:138 | inserting a row adds exactly that row to the list |
| VerificationLog.InsertKeepsOrder | src/pages/Verifications.jsx:138 | inserting into a newest-first list keeps it newest first |
| VerificationLog.SortNewestFirst | src/pages/Verifications.jsx:138 | the ordered listing is newest first and a permutation of its input |
| VerificationLog.Listing | src/pages/Verifications.jsx:130-144 | the listing is newest first and a permutation of the rows the filter keeps; a row is listed iff it is in the table and kept |
| VerificationLog.WithStatus | src/pages/admin/AdminVerificationDetails.jsx:45-48 | the rows with the id get the new status, every other row is unchanged, and the length is kept |
| VerificationLog.VerificationTable.Insert | src/pages/Verifications.jsx:174-181 | the table gains exactly the new row |
| VerificationLog.VerificationTable.UpdateStatus | src/pages/admin/AdminVerificationDetails.jsx:45-48 | the table becomes `WithStatus` of its old rows |
| VerificationLog.StatusUpdateChangesOnlyStatus | src/pages/admin/AdminVerificationDetails.jsx:45-48 | an update changes only the `status` field, and only of the rows with the given id |
| Verifications.SubmitGuard | src/pages/Verifications.jsx:33-40 | the form is passed on, unchanged, iff both the skill and the document link are filled |
| Verifications.NewRequest | src/pages/Verifications.jsx:174-181 | a new request is pending, badged Pending, and holds the talent's id, the chosen skill and the document link |
| Verifications.TalentListing | src/pages/Verifications.jsx:130-142 | Only the talent's rows are listed, newest first. Under a filter other than 'all' every listed row has that status. Every such row of the table is listed |
| Verifications.SubmittedRequestIsListed | src/pages/Verifications.jsx:189-196 | after a submission the unfiltered reload lists the new request, which a filter for another status would hide |
| Verifications.VerificationsPage.FetchTalentId | src/pages/Verifications.jsx:103-119 | the talent id is stored only when a user is signed in and the lookup finds the row |
| Verifications.VerificationsPage.FetchVerifications | src/pages/Verifications.jsx:125-152 | Without a talent id nothing happens, not even the end of loading. Otherwise the list is the talent's filtered listing, or unchanged when the query fails, and loading ends |
| Verifications.VerificationsPage.HandleVerificationSubmit | src/pages/Verifications.jsx:157-201 | With no user, a failed or empty lookup, or a failed insert, there is one error toast, no insert and the form stays. Otherwise the pending request is appended, the form is hidden and the success toast is shown. Then the list is reloaded without the status filter, or an error toast follows |
| AdminVerifications.FetchedList | src/pages/admin/AdminVerifications.jsx:15-38 | Rows give the listing: newest first (`NewestFirst`), and a permutation of exactly the rows the selector admits (`AdminView`, through `MatchesFilter`), each listed as often as it occurs in the table. No data gives the empty list. An error keeps the previous list |
| AdminVerifications.ReviewAction | src/pages/admin/AdminVerifications.jsx:94-101 | a row has a Review button iff it is pending, and the button leads to its detail page |
| AdminVerifications.ReviewUnderSelector | src/pages/admin/AdminVerifications.jsx:11 | Under the default 'pending' selector every listed row is badged Pending and has a Review button. Under 'approved' or 'rejected' none has one. Under 'all' a row has one iff it is pending |
| AdminVerifications.BadgeAndReviewCanDisagree | src/pages/admin/AdminVerifications.jsx:44-54 | a row with some other status is badged Pending yet has no Review button |
| AdminVerificationDetails.DecisionStatus | src/pages/admin/AdminVerificationDetails.jsx:116-122 | Approve writes 'approved' and Reject writes 'rejected', each iff |
| AdminVerificationDetails.OfferedDecisions | src/pages/admin/AdminVerificationDetails.jsx:68-128 | Reject and Approve are offered iff loading is over and a pending request was loaded; otherwise none |
| AdminVerificationDetails.HandleStatusUpdate | src/pages/admin/AdminVerificationDetails.jsx:43-66 | On success the rows with the route id get the new status, the success toast names it, and the page goes to the list. On failure the table is unchanged, the error toast shows, and there is no navigation |
| AdminVerificationDetails.LoadedRequest | src/pages/admin/AdminVerificationDetails.jsx:15-28 | `.eq('id', id).single()` yields a row of the table carrying the id, and yields one iff exactly one row carries it |
| AdminVerificationDetails.Visit | src/pages/admin/AdminVerificationDetails.jsx:113-128 | a visit either leaves the table alone or writes the clicked decision through `WithStatus`; it writes exactly when the request loads as pending and both queries succeed |
| AdminVerificationDetails.ClickDecision | src/pages/admin/AdminVerificationDetails.jsx:43-128 | a click on a rendered button runs `HandleStatusUpdate` only for a decision among `OfferedDecisions` of the loaded request, and leaves the table as `Visit` says; the page navigates iff an offered decision was written |
| AdminVerificationDetails.LoadedAfterUpdate | src/pages/admin/AdminVerificationDetails.jsx:15-48 | after a status write the route loads the same request with the written status |
| AdminVerificationDetails.DecidedIsTerminal | src/pages/admin/AdminVerificationDetails.jsx:113-128 | a request that does not load as pending (approved and rejected ones among them) is terminal: no series of visits, with any failures, changes the table |
| AdminVerificationDetails.FirstDecisionIsFinal | src/pages/admin/AdminVerificationDetails.jsx:43-128 | from pending, the first visit whose queries succeed writes its decision and nothing after it changes the table; the request then loads with the decided status; with no such visit the table is unchanged |
| AuthenticatedPage.Split | src/pages/auth/AuthenticatedPage.jsx:8 | `split` gives at least one piece, and no piece contains the separator |
| AuthenticatedPage.JoinSplit | src/pages/auth/AuthenticatedPage.jsx:16-18 | joining the pieces of a split with the same separator gives back the string |
| AuthenticatedPage.SplitWithoutSeparator | src/pages/auth/AuthenticatedPage.jsx:8 | text without the separator is a single piece |
| AuthenticatedPage.SplitAtSeparator | src/pages/auth/AuthenticatedPage.jsx:8 | splitting at a separator splits the two sides independently |
| AuthenticatedPage.Segments | src/pages/auth/AuthenticatedPage.jsx:8 | the segments are non-empty, contain no '/', and are a subsequence of the pieces of the split |
| AuthenticatedPage.SegmentsAtSlash | src/pages/auth/AuthenticatedPage.jsx:8 | a slash separates the segments on its two sides and adds none |
| AuthenticatedPage.SlashesIgnored | src/pages/auth/AuthenticatedPage.jsx:8 | leading, trailing and doubled slashes make no difference to the segments |
| AuthenticatedPage.NoSegments | src/pages/auth/AuthenticatedPage.jsx:8 | the empty path has no segment |
| AuthenticatedPage.OneSegment | src/pages/auth/AuthenticatedPage.jsx:8 | a non-empty name without '/' is exactly one segment |
| AuthenticatedPage.Upper | src/pages/auth/AuthenticatedPage.jsx:17 | lower-case ASCII letters become their capitals; every other character is kept |
| AuthenticatedPage.CapitalizeAll | src/pages/auth/AuthenticatedPage.jsx:17 | every word is capitalised, and the count and order are kept |
| AuthenticatedPage.TitleFrom | src/pages/auth/AuthenticatedPage.jsx:14-19 | the character-by-character reading of the title has the route's length and applies the per-character rule |
| AuthenticatedPage.TitleAfterDash | src/pages/auth/AuthenticatedPage.jsx:14-19 | a leading '-' gives a leading space, and the rest is titled on its own |
| AuthenticatedPage.TitleAfterLetter | src/pages/auth/AuthenticatedPage.jsx:14-19 | a leading non-dash character is capitalised and starts the first word |
| AuthenticatedPage.TitleMatchesCharacters | src/pages/auth/AuthenticatedPage.jsx:14-19 | `getTitle` (`Title`: split, capitalise, join) equals the character-by-character reading |
| AuthenticatedPage.TitleCharacters | src/pages/auth/AuthenticatedPage.jsx:14-19 | The title has the route's length. Each '-' becomes a space. The first character of each part is upper-cased. Every other character is kept, so empty parts stay empty |
| AuthenticatedPage.Breadcrumb | src/pages/auth/AuthenticatedPage.jsx:22-28 | there is no title, because `getTitle` throws, exactly when the path has no segment |
| AuthenticatedPage.ThreeSegments | src/pages/auth/AuthenticatedPage.jsx:8 | three slash-free names after a leading slash are the first three segments, in order |
| AuthenticatedPage.DetailsBreadcrumb | src/pages/auth/AuthenticatedPage.jsx:24-26 | on `/section/item/details/...` the breadcrumb is the section's title, " > ", and the item verbatim |
| AuthenticatedPage.SectionBreadcrumb | src/pages/auth/AuthenticatedPage.jsx:27 | when the third segment is not 'details', the breadcrumb is the section's title alone |
| SideNav.ResolveRole | src/components/layout/SideNav.jsx:50-56 | admin wins over hiring manager, which wins over talent, each iff; no role iff no profile was found |
| SideNav.NavItems | src/components/layout/SideNav.jsx:65-94 | each role has its link list, and there are no links iff there is no role |
| SideNav.AdminPathsUnderAdmin | src/components/layout/SideNav.jsx:67-74 | every admin link leads under /admin/ |
| SideNav.OthersHaveNoAdminPath | src/components/layout/SideNav.jsx:76-91 | no hiring-manager or talent link leads under /admin/ |
| SideNav.PathsDistinct | src/components/layout/SideNav.jsx:66-92 | within each role's list, the paths are distinct |
| SideNav.Render | src/components/layout/SideNav.jsx:98-120 | nothing is rendered iff there is no role; otherwise one link per item, in order, highlighted iff the current path equals its path |
| SideNav.AtMostOneActive | src/components/layout/SideNav.jsx:112-116 | at most one link is highlighted on any path |
| SideNav.SideNavState.FetchUserRole | src/components/layout/SideNav.jsx:23-63 | the role is set by precedence only when some profile is found; a thrown error, a missing user or no profile leaves it as it was |
| UserDirectory.UserMap | src/pages/admin/AdminTalents.jsx:26 | the map's keys are exactly the users' ids, and each key maps to a user with that id |
| UserDirectory.LastIndexOf | src/pages/admin/AdminTalents.jsx:26 | the position of the last user with the id, or -1 when there is none |
| UserDirectory.LastUserWith | src/pages/admin/AdminTalents.jsx:26 | none iff no user has the id; otherwise the user at the last position holding it |
| UserDirectory.UserMapKeepsLast | src/pages/admin/AdminTalents.jsx:26-30 | every lookup in the map answers with the last user holding that id |
| UserDirectory.OrNA | src/pages/admin/AdminTalents.jsx:33-34 | a present non-empty value is kept; anything else shows "N/A" |
| UserDirectory.JoinUsers | src/pages/admin/AdminTalents.jsx:29-36 | One output row per profile row, in order. Each keeps every profile field and gains `full_name` and `email`, which override same-named fields. Both come from the last user with the row's `user_id`, else "N/A" |
| UserDirectory.Listed | src/pages/admin/AdminTalents.jsx:11-44 | the joined rows when both the user list and the profile query deliver; the initial empty list otherwise |
| AdminHiringManagers.OrganizationCell | src/pages/admin/AdminHiringManagers.jsx:60 | the joined organization's name is shown when it is non-empty text, and "N/A" in every other case: no organization, a null one, or one whose name is missing, null or empty |
| AdminHiringManagers.NoOrganizationShowsNA | src/pages/admin/AdminHiringManagers.jsx:60 | a manager whose organization join is null or absent shows "N/A" |
| AdminHiringManagers.ListedManagers | src/pages/admin/AdminHiringManagers.jsx:31-43 | one row per manager, each keeping its organization cell, with name and email from the last user holding its `user_id` |

## Left out

- Database and authentication calls are not modelled. Each query's outcome
  is a parameter: its rows, no data, or an error. Filters and orders asked
  of the database are specified over the table passed in
  (`VerificationLog.Listing`).
- Asynchronous ordering, overlapping requests and React's batching of state
  updates are not modelled. Each handler runs to completion, in source order.
- Floating point is not modelled. Pass rates and averages are `real`, and
  the `toFixed` display rounding is dropped.
- `new Date()` and date-fns `format` are not modelled.
  `CreateJobForm.CurrentDate` takes the year, month index and day as
  parameters.
- `handleHire` does nothing in the source and is not modelled.
- The `Table` component is not modelled. It calls `render(row)` without a row
  index and ignores `rowClassName`, so `CanHire` is stated for an explicit
  index.
- JSX, styling, icons, the pie chart, toasts other than their text, the
  `FormInput` component, the browser's `required` attribute, and
  react-router's mechanics are not modelled. A navigation is recorded as the
  `Navigation` value passed.
- Pages that only fetch and display, and the routing and config files, are
  not part of this model.
- Register's `handleSubmit` only logs after `validateForm`, so only
  `Register.RegisterPage.ValidateForm` is modelled.
- `console` logging is not modelled anywhere.
- String lengths count characters. JavaScript counts UTF-16 code units, so
  the password length rule differs for characters outside the Basic
  Multilingual Plane.
- AuthenticatedPage.Upper: only ASCII letters are upper-cased. The full
  Unicode `toUpperCase` mapping, such as 'ß' to "SS", is not modelled.
- Numerals.ParseInt: `-0` and `0` are the same number, and a huge digit run
  is an exact integer rather than a rounded double.
- VerificationLog.SortNewestFirst: equal `created_at` timestamps keep table
  order. The database promises no order for ties, so only the newest-first
  property is relied on.
- The skill and talent names joined into the verification and hiring-cycle
  queries are display-only and not modelled.
- UserDirectory.Listed: the user list is passed as a sequence of users. The
  exact response shape of the service's list-users call is not modelled.
- SideNav.RoleLookup: each `.single()` lookup is a found/not-found flag. Its
  error for zero or several rows counts as not found, as the source ignores
  it.
- StatusSelection.StatusSelectionPage.HandleSubmit: the signed-in user's
  metadata is assumed present. The source would throw reading `full_name`
  from missing metadata.
- Login.LoginPage.HandleSubmit: the two profile lookups are given as row
  counts. Their errors are ignored, as in the source.
- ViewStatistics.StatisticsView.FetchData: the applications query is given
  as its result for the final step's passed ids. The `.in('id', ...)`
  selection is not re-specified. Nor is the steps query's
  `.order('sequence_order')`: the last step is the last element of the list
  passed in, which is taken to come in that order.
- Verifications.VerificationsPage.FetchTalentId: a failed lookup and a
  missing row both leave the id unset, as the source's catch does.
- AdminVerificationDetails.DecidedIsTerminal: each visit loads the request
  and writes against the same table, so a decision is final only for visits
  that follow one another. The update does not re-check the status, so a
  page loaded as pending before another admin decides can still overwrite
  that decision; overlapping visits are not modelled.
- AdminVerificationDetails.Visit: a fetch or update failure is a flag of the
  visit (`Attempt`); the talent and skill names the fetch joins in are
  display-only and not modelled.
