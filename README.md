# Campus placement portal: a Dafny model of its business rules

This project models the rule-bearing core of a campus-placement web application (Next.js
route handlers over an Appwrite document store, and three React pages). It covers:

- the users collection helper (`userDB`): creation defaults, the update merge, look-up by
  email, the onboarding flag and the academic-results update with its active-backlog count
  (`users.dfy`);
- `createInvite` (`invite.dfy`) and the invite route `POST /api/invite`, with its ordered
  check chain, the invite write and the append to the user's `invite` list
  (`invite_route.dfy`);
- the sign-in callback `POST /api/auth/callback` (`auth_callback_route.dfy`), the
  onboarding route `POST /api/onboarding` (`onboarding_route.dfy`) and the organization
  route `POST /api/organization` (`organization_route.dfy`);
- the onboarding wizard: backlog counting, GPA input coercion, per-step validation,
  navigation, academic-file uploads and the final submission (`onboarding_page.dfy`);
- the admin and student dashboards: post creation, the invite accept/decline transitions,
  the post fetch, the visible section and the post-type labels (`membership.dfy`,
  `admin_dashboard.dfy`, `student_dashboard.dfy`);
- the class-name joiner `cn` (`class_names.dfy`).

Supporting modules:

- `js.dfy` holds JavaScript values, truthiness, object spread, `trim` and decimal rendering.
- `store.dfy` holds the document store. A `Table` is a snapshot of one collection: ids in
  creation order and a map from id to fields. `Collection` is the mutable class the handlers
  call. A store call that fails is a parameter (`Fault`).
- `http.dfy` holds responses and their bodies.

Each route is a pure function from the collections (and the injected failure) to the new
collections and the response. It has an imperative handler method on `Collection` objects
that is proved equal to it. The properties are lemmas about the pure functions. Each page
handler is a method on a class holding the page state, proved against a function of the
old state.

## Model

| member | source | states |
|---|---|---|
| Users.CountExactZero | src/collections/users.ts:178 | the count of values exactly equal to 0 is at most the length; it is 0 iff no value is 0 and the full length iff all are |
| Users.ActiveBacklogs | src/collections/users.ts:169-178 | the active backlog count lies in 0..6 and is 0 iff no semester score is exactly 0 |
| Users.PreUniversityScoresIgnored | src/collections/users.ts:169-178 | the 10th and 12th scores never change the count |
| Users.AcademicPayload | src/collections/users.ts:180-183 | the payload holds exactly the supplied scores, unchanged, plus `active_backlog` set to the count |
| Users.Coalesce | src/collections/users.ts:67-68 | `??` keeps a present non-null value and otherwise takes the fallback |
| Users.CreatePayload | src/collections/users.ts:65-70 | creation keeps every supplied field; `isCompleted` defaults to false and `invite` to `[]` only when absent or null; `updatedAt` is set |
| Users.UpdatePayload | src/collections/users.ts:87-90 | an update writes exactly the supplied fields plus `updatedAt` |
| Users.CreateUserDefaults | src/collections/users.ts:60-78 | a created user document carries the defaults unless values were supplied, and no other document changes |
| Users.UpdateUserFrame | src/collections/users.ts:85-98 | an update changes only the supplied fields and `updatedAt` of that one document |
| Users.Create | src/collections/users.ts:60-83 | the collection and the result are those of `CreateUser` on the old contents |
| Users.Update | src/collections/users.ts:85-103 | the collection and the result are those of `UpdateUser` on the old contents |
| Users.Delete | src/collections/users.ts:105-112 | a successful delete removes exactly that document; a failure is rethrown |
| Users.GetByEmail | src/collections/users.ts:128-140 | returns the first listed document whose email matches; null iff none matches; a failing listing is rethrown |
| Users.IsOnboardingCompleted | src/collections/users.ts:143-151 | returns the stored `isCompleted` value, or false when the look-up throws |
| Users.UpdateAcademicResults | src/collections/users.ts:154-190 | writes the supplied results with `active_backlog` as an update of the user document |
| Users.FullResultsKeepConsistent | src/collections/users.ts:169-185 | when all six semesters are supplied, the stored `active_backlog` matches the stored semesters afterwards |
| Users.PartialResultsBreakConsistency | src/collections/users.ts:169-185 | a stored zero that the call does not resend is no longer counted (the counterexample of the finding below) |
| Users.MergedSemesters | src/collections/users.ts:180-185 | merging a payload carrying the supplied semesters over a stored document yields the effective semesters |
| Users.ConsistentAcademicPayload | src/collections/users.ts:180-183 | the corrected payload equals the original one except that the count covers the semesters the document will hold |
| Users.CorrectedUpdateKeepsConsistent | src/collections/users.ts:169-185 | after a successful corrected update the stored `active_backlog` always matches the stored semesters |
| Users.UpdateAcademicResultsConsistent | src/collections/users.ts:154-190 | the corrected method reads the stored document and then writes the corrected payload |
| Invites.ExpiresAt | src/collections/invite.ts:14 | the expiry is the clock reading in whole seconds (floored) plus 604800 |
| Invites.InviteFields | src/collections/invite.ts:20-27 | the invite holds exactly `org_id`, `email`, `token`, `expired_at`, `status` "pending" and `created_by`, with the given values |
| Invites.CreateInviteAddsOne | src/collections/invite.ts:13-30 | unless the store fails, exactly one pending document is added, under the fresh id, and it is the one returned; a failure adds nothing |
| Invites.CreateInvite | src/collections/invite.ts:8-31 | the invites collection and the result are those of `CreateInviteIn` |
| InviteRoute.HandlePost | src/app/api/invite/route.ts:14-77 | the handler's writes and response are those of `Post` |
| InviteRoute.MissingFieldsDecidedByBodyAlone | src/app/api/invite/route.ts:19-21 | the response is 400 iff one of `orgId`, `email`, `createdBy` is falsy, and then nothing is written |
| InviteRoute.RejectionsWriteNothing | src/app/api/invite/route.ts:19-56 | every 400, 404 and 409 leaves both collections unchanged |
| InviteRoute.UnknownOrganization | src/app/api/invite/route.ts:24-32 | a nonexistent organization yields 404 with no writes |
| InviteRoute.UnknownUser | src/app/api/invite/route.ts:34-41 | an existing organization and no user document with the email yield exactly 404 "User with this email not found" with no writes |
| InviteRoute.ServerErrorsAndTheOrphanInvite | src/app/api/invite/route.ts:58-76 | a 500 never changes the users; the invites change only when the final user update fails, and then keep the new invite |
| InviteRoute.SuccessIsAdmissible | src/app/api/invite/route.ts:19-72 | a 200 implies the request is admissible |
| InviteRoute.AdmissibleSucceeds | src/app/api/invite/route.ts:19-72 | an admissible request without failures is answered 200 |
| InviteRoute.SuccessExactly | src/app/api/invite/route.ts:19-72 | the response is 200 iff no call fails, the fields are present, the organization exists, some user has the email and no invite has the pair |
| InviteRoute.Deliver | src/app/api/invite/route.ts:58-76 | the answer is 200 iff neither write fails and the user is still stored; a 500 leaves the users alone and the invites alone or holding one more document, the new one |
| InviteRoute.DeliverWrites | src/app/api/invite/route.ts:58-72 | without failures the invite is inserted under the new id, the user is patched with the appended list, and the answer carries the invite, its token and the link `BASE_URL/accept-invite?token=` + token |
| InviteRoute.DeliverAppends | src/app/api/invite/route.ts:59-72 | the invites gain exactly the new pending invite; the user's list gets the new id appended (the old list or `[]` first) and grows by one; other fields and users are kept |
| InviteRoute.DeliveredIsListed | src/app/api/invite/route.ts:35-65 | after delivery the user is still found by email and the new invite is found by the duplicate query |
| InviteRoute.SuccessAppendsInvite | src/app/api/invite/route.ts:42-65 | on success the writes are those of `DeliverAppends` for the first user whose email matches |
| InviteRoute.DuplicateConflicts | src/app/api/invite/route.ts:45-56 | any listed invite for the same email and organization, whatever its status, yields 409 and no writes |
| InviteRoute.RetryAfterSuccessConflicts | src/app/api/invite/route.ts:45-65 | repeating a successful request is answered 409 |
| AuthCallbackRoute.NewUserFields | src/app/api/auth/callback/route.ts:35-40 | a new user holds the email, the name when present, and `isCompleted` false |
| AuthCallbackRoute.HandleCallback | src/app/api/auth/callback/route.ts:9-57 | the handler's writes and response are those of `Callback` |
| AuthCallbackRoute.MissingUserIs400 | src/app/api/auth/callback/route.ts:13-18 | the response is 400 iff the user or their email is missing, and then nothing is written |
| AuthCallbackRoute.ExistingUserIsReturned | src/app/api/auth/callback/route.ts:43-52 | a known email returns the first matching document, with `needsOnboarding` the negation of its `isCompleted`, and writes nothing |
| AuthCallbackRoute.NewUserNeedsOnboarding | src/app/api/auth/callback/route.ts:29-52 | an unknown email adds exactly one document, under `user.$id`, and the answer says onboarding is needed |
| AuthCallbackRoute.TakenIdIsServerError | src/app/api/auth/callback/route.ts:31-56 | an unknown email whose account id is taken is a 500 with no writes |
| AuthCallbackRoute.RepeatedCallbackIdempotent | src/app/api/auth/callback/route.ts:20-46 | a second identical call writes nothing and repeats a successful answer; at most one document is created |
| OnboardingRoute.CompletionPayload | src/app/api/onboarding/route.ts:25-28 | the payload is `updateData` with `isCompleted` forced to true |
| OnboardingRoute.HandleComplete | src/app/api/onboarding/route.ts:8-40 | the handler's write and response are those of `Complete` |
| OnboardingRoute.MissingUserIdIs400 | src/app/api/onboarding/route.ts:13-18 | the response is 400 iff `userId` is falsy, and then nothing is written |
| OnboardingRoute.FailuresWriteNothing | src/app/api/onboarding/route.ts:33-38 | every failure is a 500 that writes nothing, with the thrown message or "Failed to update user profile" |
| OnboardingRoute.SuccessForcesCompletion | src/app/api/onboarding/route.ts:21-32 | on success the document gets every field of `updateData` and `isCompleted` true, keeps the rest, and is returned with `success: true` |
| OnboardingRoute.CompletionNeverReverts | src/app/api/onboarding/route.ts:21-30 | after one success no later call turns `isCompleted` back, and `isOnboardingCompleted` reports true |
| OrganizationRoute.OrganizationFields | src/app/api/organization/route.ts:22-27 | the created document holds exactly `name`, `college` and `capacity` |
| OrganizationRoute.HandleCreate | src/app/api/organization/route.ts:10-36 | the handler's write and response are those of `CreateOrganization` |
| OrganizationRoute.RejectedIs400 | src/app/api/organization/route.ts:15-20 | the response is 400 iff name or college is falsy or capacity is undefined, and then nothing is written |
| OrganizationRoute.CapacityZeroAcceptedAbsentRejected | src/app/api/organization/route.ts:15 | a capacity of 0 (or null) is accepted and an absent one is rejected |
| OrganizationRoute.SuccessCreatesExactlyOne | src/app/api/organization/route.ts:22-29 | success adds exactly one document under the new id and answers 201 with it |
| OrganizationRoute.FailureIs500 | src/app/api/organization/route.ts:30-35 | a failed write is a 500 with the message, or "Something went wrong" when there is none, and writes nothing |
| OnboardingPage.SetField | src/app/onboarding/page.tsx:245-246 | the field takes the value (undefined removes it) and every other field is kept |
| OnboardingPage.CalculateActiveBacklogs | src/app/onboarding/page.tsx:86-89 | the count lies in 0..6; it is 0 iff no semester holds exactly 0 and 6 iff all do |
| OnboardingPage.SameCountAsCollection | src/app/onboarding/page.tsx:86-89 | the page and the users collection compute the same count for the same results |
| OnboardingPage.GpaInput | src/app/onboarding/page.tsx:606 | a typed GPA of 0 or a non-number is stored as undefined; any other number is stored as typed |
| OnboardingPage.TypedGpaNeverAddsBacklog | src/app/onboarding/page.tsx:606 | typing a GPA never raises the backlog count, and removes that semester from it |
| OnboardingPage.TypingAloneRecordsNoBacklog | src/app/onboarding/page.tsx:606 | from a form without backlogs, no sequence of typed GPAs records one |
| OnboardingPage.InitialFormHasNoBacklog | src/app/onboarding/page.tsx:52-76 | the initial form counts no backlog |
| OnboardingPage.EmailPatternIffShape | src/app/onboarding/page.tsx:259 | the unanchored pattern `\S+@\S+\.\S+` matches iff some `@` has a non-space before it, then non-space characters up to a `.` with a non-space after it |
| OnboardingPage.StepErrors | src/app/onboarding/page.tsx:252-270 | step 1 records only under `name` and `email`, step 3 only under `resume_file_id` (iff it is missing), steps 2 and 4 nothing; every message is non-empty |
| OnboardingPage.StepOneErrors | src/app/onboarding/page.tsx:256-260 | step 1 records only `name` and `email`: "Name is required" iff the name is all white space; "Email is required" iff the email is, else "Invalid email format" iff it has no `x@y.z` shape |
| OnboardingPage.StepErrorsEmptyIffValid | src/app/onboarding/page.tsx:252-274 | a step validates iff its demands are met |
| OnboardingPage.NextStepOf | src/app/onboarding/page.tsx:276-280 | the step stays within 1..4 and advances by one iff it validates and is below 4 |
| OnboardingPage.PrevStepOf | src/app/onboarding/page.tsx:282-286 | the step stays within 1..4 and goes back by one iff it is above 1 |
| OnboardingPage.Navigate | src/app/onboarding/page.tsx:276-286 | any sequence of next/previous clicks keeps the step within 1..4 |
| OnboardingPage.PassingAStepRequiresItValid | src/app/onboarding/page.tsx:276-280 | the wizard gets past a step only when that step is valid |
| OnboardingPage.UploadFromSpec | src/app/onboarding/page.tsx:224-243 | the uploads succeed iff no pending upload fails; only pending keys change, each taking the returned id |
| OnboardingPage.UploadFromKeepsStoredPrefix | src/app/onboarding/page.tsx:224-243 | after a failed upload, the pending keys uploaded before it keep their new ids, and the failing key and those after it are unchanged |
| OnboardingPage.FinalPayload | src/app/onboarding/page.tsx:311-316 | the payload is the form with the computed count, `isCompleted` true and `updatedAt`, overriding the form's values |
| OnboardingPage.MissingUidSendsNothing | src/app/onboarding/page.tsx:291-295 | without a `uid` only "User ID is missing" is shown: no upload, no request |
| OnboardingPage.SubmitSendsOnlyValidatedPayload | src/app/onboarding/page.tsx:300-334 | a request is sent only after all pending uploads succeeded and the schema accepted the payload, and it carries the count and `isCompleted` true |
| OnboardingPage.SubmitSendsWhenValidated | src/app/onboarding/page.tsx:300-334 | conversely, with a user id, every pending upload stored and the schema accepting the final payload, that payload is sent, and an ok answer moves the page on |
| OnboardingPage.NavigatesIffEverythingSucceeds | src/app/onboarding/page.tsx:300-334 | from a page that has not moved on, the final submit moves it on exactly when there is a user id, every pending upload is stored, the schema accepts the payload and the answer is ok |
| OnboardingPage.EmptyGenderStopsSubmit | src/app/onboarding/page.tsx:317-319 | a form whose gender is the select's empty option "" fails the schema's enum, so the final submit never moves the page on |
| OnboardingPage.SubmitNavigatesOnlyOnSuccess | src/app/onboarding/page.tsx:291-352 | the page navigates only after an ok answer; step and form are untouched; every error text is non-empty |
| OnboardingPage.AfterUploadsNavigatesOnlyOnSuccess | src/app/onboarding/page.tsx:300-348 | the same for the part after the uploads |
| OnboardingPage.SendNavigatesOnlyOnSuccess | src/app/onboarding/page.tsx:318-348 | the same for the request part alone |
| OnboardingPage.SendSubmitsValidated | src/app/onboarding/page.tsx:312-336 | the request part sends something only when the schema accepts the final payload, and then sends that payload |
| OnboardingPage.RespondNavigatesOnlyOnOk | src/app/onboarding/page.tsx:338-348 | only an ok answer navigates; any other answer or a thrown fetch leaves a non-empty message |
| OnboardingPage.RespondKeepsRequest | src/app/onboarding/page.tsx:338-348 | reacting to the answer changes neither what was sent, nor the step, nor the form |
| OnboardingPage.ClearError | src/app/onboarding/page.tsx:247-249 | a recorded message for the edited field is blanked; other entries are kept |
| OnboardingPage.Wizard.constructor | src/app/onboarding/page.tsx:43-80 | the wizard starts at step 1 with the initial form and no errors |
| OnboardingPage.Wizard.HandleInputChange | src/app/onboarding/page.tsx:245-250 | the form and errors become `SetField` and `ClearError` of the old ones |
| OnboardingPage.Wizard.NameErrors | src/app/onboarding/page.tsx:257 | the trimmed check records the name error exactly when the name is all white space |
| OnboardingPage.Wizard.EmailErrors | src/app/onboarding/page.tsx:258-259 | the trimmed check and the pattern test record the email error exactly when the email is blank or has no `x@y.z` shape |
| OnboardingPage.Wizard.PersonalInfoErrors | src/app/onboarding/page.tsx:256-260 | step 1's checks record the name entry beside the email entry |
| OnboardingPage.Wizard.ValidateCurrentStep | src/app/onboarding/page.tsx:252-274 | records `StepErrors` and returns true iff the step is valid |
| OnboardingPage.Wizard.NextStep | src/app/onboarding/page.tsx:276-280 | the new step is `NextStepOf` the old one |
| OnboardingPage.Wizard.PrevStep | src/app/onboarding/page.tsx:282-286 | the new step is `PrevStepOf` the old one |
| OnboardingPage.Wizard.UploadAllAcademicFiles | src/app/onboarding/page.tsx:224-243 | the loop's files and result are those of `UploadFrom` |
| OnboardingPage.Wizard.HandleFinalSubmit | src/app/onboarding/page.tsx:291-352 | the new page state is `Submit` of the old one |
| OnboardingPage.Wizard.HandleReply | src/app/onboarding/page.tsx:338-348 | the new page state is `Respond` of the old one |
| OnboardingPage.Wizard.SendFinalData | src/app/onboarding/page.tsx:307-348 | the new page state is `Send` of the old one |
| Membership.Accept | src/app/home/page.tsx:211-225 | without an active invite nothing changes; otherwise the user joins the invite's organization with only `memberSince` replaced, and no invite remains |
| Membership.Decline | src/app/home/page.tsx:233-240 | the user is outside any organization and has no invite |
| Membership.AcceptIdempotent | src/app/home/page.tsx:211-225 | accepting twice is accepting once |
| Membership.AcceptAfterDeclineDoesNothing | src/app/home/page.tsx:211-240 | after a decline an accept changes nothing |
| Membership.HandlersKeepCoherent | src/app/home/page.tsx:211-240 | both handlers keep the invite flag backed by an invite |
| AdminDashboard.AuthorName | src/app/home/page.tsx:264 | the author is the user's name, or "Admin" when there is none |
| AdminDashboard.CheckMissingFields | src/app/home/page.tsx:249 | the trimmed check reports missing fields exactly when the title or the content is all white space |
| AdminDashboard.AddPost | src/app/home/page.tsx:248-270 | a blank title or content leaves the list unchanged; otherwise the new post is prepended with the form's fields, role "Admin", "Just now" and id `post-<millis>` |
| AdminDashboard.PostIdsDistinct | src/app/home/page.tsx:258 | posts created at different times get different ids |
| AdminDashboard.NewestFirst | src/app/home/page.tsx:270 | two creations leave the newer post first and the older list intact behind them |
| AdminDashboard.Dashboard.HandleCreatePost | src/app/home/page.tsx:248-283 | a rejected form raises the alert and changes nothing else; an accepted one prepends the post, resets the form to empty/announcement and closes the modal |
| AdminDashboard.Dashboard.HandleAcceptInvite | src/app/home/page.tsx:211-231 | the status becomes `Accept` of the old one and `isProcessingInvite` ends false |
| AdminDashboard.Dashboard.HandleDeclineInvite | src/app/home/page.tsx:233-246 | the status becomes `Decline` of the old one and `isProcessingInvite` ends false |
| StudentDashboard.Fetch | src/app/home/student/page.tsx:136-150 | success clears the error and takes `documents`, or `[]` when missing; a failure sets the message and empties the posts |
| StudentDashboard.FetchOutcomeShown | src/app/home/student/page.tsx:547-559 | "No Posts Available" is shown iff the fetch returned no posts or failed with an empty message; an error box never stands beside posts |
| StudentDashboard.SectionsExclusive | src/app/home/student/page.tsx:419-420 | the invite card, the posts section (lines 516-517) and the empty state (lines 758-759) exclude each other, and exactly one shows when the invite flag is backed |
| StudentDashboard.InviteHandlersSwitchSection | src/app/home/student/page.tsx:174-212 | accepting a shown invite shows the posts; declining shows the empty state |
| StudentDashboard.TypeLabel | src/app/home/student/page.tsx:601-613 | the label is "Post" iff the type is not one of the six known strings |
| StudentDashboard.LabelsDistinct | src/app/home/student/page.tsx:601-613 | the six known types have six different labels |
| StudentDashboard.Badge | src/app/home/student/page.tsx:214-231 | the badge classes of a colour are three times as long as the colour name plus 35 characters and carry its first letter at position 3, so different first letters or lengths give different classes |
| StudentDashboard.TypeColor | src/app/home/student/page.tsx:214-231 | the grey default is used iff the type is not one of the six known strings |
| StudentDashboard.Dashboard.FetchPosts | src/app/home/student/page.tsx:136-150 | the posts and error become those of `Fetch` |
| StudentDashboard.Dashboard.HandleAcceptInvite | src/app/home/student/page.tsx:174-197 | the status becomes `Accept` of the old one |
| StudentDashboard.Dashboard.HandleDeclineInvite | src/app/home/student/page.tsx:199-212 | the status becomes `Decline` of the old one |
| ClassNames.Filter | src/lib/utils.ts:3 | keeps only non-empty strings, in order; the result is empty iff no argument is kept |
| ClassNames.FilterAppend | src/lib/utils.ts:3 | filtering distributes over concatenation |
| ClassNames.CnDegenerate | src/lib/utils.ts:3 | no kept argument gives ""; one kept argument comes back unchanged |
| ClassNames.JoinLength | src/lib/utils.ts:3 | for k ≥ 1 parts the length is the sum of their lengths plus k − 1 |
| ClassNames.CnEmptyIffNothingKept | src/lib/utils.ts:3 | the result is empty iff no argument is kept |
| ClassNames.CnSplitsBack | src/lib/utils.ts:3 | splitting the result at spaces gives back exactly the kept arguments, in order, when none holds a space |

## Left out

- The Appwrite SDK is modelled by `Store`: documents are maps, listing follows creation order and a query is a conjunction of field equalities. Permissions, attribute schemas and the SDK's error texts are not modelled; an error carries an optional message.
- The clock (`Date.now`, `toISOString`, `toLocaleDateString`), `uuidv4`, `ID.unique`, the `uid` search parameter and `NEXT_PUBLIC_BASE_URL` are parameters.
- Js.Spread: spreading a string or an array copies its index keys in JavaScript; the model spreads only objects and treats every other value as contributing nothing.
- OnboardingPage.TextField: reading a non-string name or email would throw in `trim()`; the model reads it as "". The inputs only ever store strings there.
- OnboardingPage.SchemaAccepts: the model checks `name` (a string of length ≥ 2), `email` and the `gender` enum (absent, or one of MALE, FEMALE, OTHER) from the zod schema. Zod's e-mail check is a parameter. The remaining fields are assumed to have their schema types, as the page's inputs store strings in the text fields and numbers or nothing in the score fields. Zod's `min(2)` counts UTF-16 code units, while the model counts characters, so a one-character name outside the Basic Multilingual Plane passes zod but fails the model. Zod's defaults and its stripping of unknown keys are not applied, because the form already holds every schema key and no other.
- InviteRoute.InviteList: a truthy `invite` value that is not a list of strings is read as `[]`; JavaScript would spread it.
- `uploadFileToBucket`'s `uploadingFiles` flags, the `successMessages` map, the resume upload and GPA extraction from files (an outbound HTTP call and floating-point range checks) are not modelled.
- The onboarding page sends multipart form data, while the onboarding route parses JSON. Only the route's JSON behaviour is modelled.
- The simulated delays of the dashboard handlers and the async ordering of React state updates are not modelled; each handler is one atomic transition.
- `isLoading` and the mock data set by `loadData` in both dashboards are not modelled. The student sections are described as they render once loading is over.
- `formatTimestamp`, `getStatusColor`, the admin `getPostTypeColor` and all rendering are not modelled.
- `GET /api/organization`, the upload, post, user and role routes and the organizations and posts collection helpers are not part of this model.
- Cross-request races in the invite duplicate check are not modelled; each request runs alone.
- Users.GetByEmail: the helper passes the old-style filter string `email=<address>` as its only query, which current Appwrite query APIs do not accept (the call would then rethrow). The model reads it as the equality query on `email` it is evidently meant to be.
- InviteRoute.OrgExists and OnboardingRoute.Complete: a truthy `orgId` or `userId` that is not a string is treated as a missing organization (404) or as a failed update (500). JavaScript would instead turn the value into text in the document path; that conversion is not modelled.

## Findings

| source | as written | input that shows it | evidently intended | confidence | as-written member | corrected member |
|---|---|---|---|---|---|---|
| src/collections/users.ts:169-185 | `active_backlog` counts zeros only among the semesters passed in, but the update merges over the stored document, so stored semesters that are not resent keep their values | stored `{ sem1: 0, active_backlog: 1 }`, then `updateAcademicResults(id, { sem2: 8 })`: the document ends with `sem1: 0` and `active_backlog: 0` | the stored `active_backlog` equals the number of stored semesters that are exactly 0 | medium, not executed | Users.PartialResultsBreakConsistency | Users.CorrectedUpdateKeepsConsistent |
