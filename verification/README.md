# Customizable Mathematics Learning Website — a Dafny model of its core

This project models the decision logic of a Django course-authoring site and
proves properties of it. The site has content managers, who write courses, and
normal users, who take them. The model covers both halves of the site.

**Server side**
- the custom user model and its manager;
- the role guards, and the admin-restricting middlewares;
- the admin's read-only field rule;
- the signup form's e-mail cleaning;
- the Google sign-in adapter and signal;
- the account views' redirect, login and resend ladders;
- the course entities with their cascading deletes;
- the `create_course` view's sequence of saves;
- the scheduled-notification sweep;
- the `time_format` template filter.

**Browser side**
- the formset bookkeeping of the course editor: cloning from `__prefix__` templates, `TOTAL_FORMS` counters, order renumbering, soft deletion, rendering of saved rows, and publish validation;
- the section/content/quiz renumbering of the older creation page;
- the course page's section accordion and scheduling minimum;
- the resend-button gate of the two "check your inbox" pages;
- the `getCSRFToken` cookie parser.

**How the model is built**
- Everything is immutable datatypes and pure functions over sequences, maps and strings.
- The database is a map from primary keys to rows, or a sequence whose row `i` has key `i`.
- A page is the list of its forms, and a form is the list of its fields.
- Effects are values: a reply, the mails sent, whether the session was flushed.
- The effects themselves are not performed.
- Dafny's `/` and `%` agree with Python's floor division and modulo for the positive divisors used here.

**Modules**

| module | file | models |
|---|---|---|
| `Wrappers` | wrappers.dfy | `Option` and `Result` |
| `Text` | text.dfy | `strip`/`trim` with each language's whitespace, ASCII lower-casing, `split`, `replace` (global and first digit run), decimal rendering |
| `UserModels` | user_models.dfy | apps/users/models.py |
| `Permissions` | permissions.dfy | apps/users/permissions.py and apps/dashboard/views.py |
| `Middleware` | middleware.dfy | apps/users/middleware.py and apps/dashboard/middleware.py |
| `UserAdmin` | user_admin.dfy | apps/users/admin.py |
| `Signup` | signup.dfy | apps/users/forms.py and the signup view |
| `Social` | social.dfy | apps/users/adapters.py and apps/users/signals.py |
| `UserViews` | user_views.dfy | apps/users/views.py |
| `CourseModels` | course_models.dfy | apps/courses/models.py |
| `CourseViews` | course_views.dfy | `create_course` in apps/courses/views.py |
| `Notifications` | notifications.dfy | apps/courses/tasks.py |
| `TimeFilters` | time_filters.dfy | apps/courses/templatetags/time_filters.py |
| `Formsets` | formsets.dfy | `updateFormset` in static/js/create_or_edit_course.js |
| `Ordering` | ordering.dfy | the renumbering shared by both authoring scripts |
| `Authoring` | authoring.dfy | static/js/create_or_edit_course.js |
| `CreationPage` | creation_page.dfy | static/js/create_course.js |
| `CoursePage` | course_page.dfy | static/js/course.js |
| `ResendGate` | resend_gate.dfy | the resend button of static/js/verify_email.js and static/js/verify_password_reset.js |
| `Cookies` | cookies.dfy | `getCSRFToken` in static/js/verify_email.js, static/js/verify_password_reset.js and static/js/logout.js |

## Model

| member | source | states |
|---|---|---|
| UserModels.RoleChoices | apps/users/models.py:33-46 | the three role values and the roles correspond one to one, and each value fits the 20-character column |
| UserModels.RolePredicatesPartition | apps/users/models.py:57-64 | for a stored role among the choices exactly one of `is_normal_user`, `is_content_manager`, `is_superuser_role` holds; for any other string none does |
| UserModels.FindByEmail | apps/users/forms.py:19 | the lookup finds a row iff some row holds the address, and then it is the first such row |
| UserModels.Save | apps/users/models.py:66-73 | a stored user keeps its stored role; an empty username becomes the local part of the e-mail; a new user is appended under the next key; an unknown key or an e-mail held by another row is an error, and nothing else changes |
| UserModels.SaveKeepsEmailsUnique | apps/users/models.py:43 | a successful save never gives two rows the same e-mail |
| UserModels.CreateUser | apps/users/models.py:11-22 | an empty e-mail is refused; the user is created iff the address is non-empty and its normalised form is not taken, and a taken address is refused as a duplicate; the address is normalised, the username defaults to its local part, unspecified fields (including `is_active`, default true) take the model defaults, and the password is usable iff one was given |
| UserModels.CreateSuperuser | apps/users/models.py:24-29 | staff, superuser and role "superuser" are defaults that a caller's explicit fields override; the rest is `create_user`: it succeeds iff the address is non-empty and its normalised form is free, a taken address is a duplicate, and the new user is appended under the next key |
| UserModels.CreateSuperuserDefaults | apps/users/models.py:24-29 | a superuser created without extra fields is stored as an active, unverified staff superuser with role "superuser" |
| UserModels.CreateUserDefaults | apps/users/models.py:11-22 | a user created without extra fields is a normal, unverified, non-staff account whose username has no '@' |
| UserModels.RoleNeverChanges | apps/users/models.py:66-69 | after any sequence of saves, every user already stored keeps its role |
| Permissions.NormalUserRequired | apps/users/permissions.py:4-5 | granted iff the visitor is authenticated with role "normal" |
| Permissions.ContentManagerRequired | apps/users/permissions.py:8-9 | granted iff the visitor is authenticated with role "content_manager" |
| Permissions.DashboardNormalUserRequired | apps/dashboard/views.py:10-11 | the dashboard copy of the guard agrees with the users copy on every visitor |
| Permissions.DashboardContentManagerRequired | apps/dashboard/views.py:14-15 | the dashboard copy of the guard agrees with the users copy on every visitor |
| Permissions.PermissionsExclusive | apps/users/permissions.py:4-9 | no visitor passes both guards; anonymous visitors and superuser-role accounts pass neither |
| Middleware.IsInternal | apps/users/middleware.py:18-21 | a missing address is never internal; an internal address is at least as long as "192.168." |
| Middleware.InternalAddresses | apps/users/middleware.py:18-21 | an address is internal iff it is "127.0.0.1" or "192.168." followed by anything, for every address, path and user |
| Middleware.ExternalAddresses | apps/users/middleware.py:6-21 | "", "127.0.0.2", the IPv6 loopback "::1" and "10.0.0.1" are not internal |
| Middleware.RestrictAdmin | apps/users/middleware.py:13-16 | an `/admin/` request from a non-internal address is redirected to "/", and every other request gets the downstream effect |
| Middleware.AdminLogoutOnExit | apps/users/middleware.py:28-35 | the response and the final user are the downstream ones, and the session is flushed exactly when the user the handler leaves on the request is a superuser and the path is outside `/admin/` |
| Middleware.AdminRestriction | apps/users/middleware.py:42-49 | anonymous requests pass; an authenticated non-superuser asking for `/admin/` is redirected to "/" before the view |
| Middleware.DashboardAdminRestriction | apps/dashboard/middleware.py:10-17 | the dashboard copy behaves exactly like the users copy |
| Middleware.ChainAdminAccess | customizable_learning_platform/settings.py:70-82 | through the whole stack, non-admin paths always reach the view; an admin path reaches it only when internal and allowed; the session is flushed iff the view leaves a superuser signed in off `/admin/` |
| Middleware.FlushFollowsViewUser | apps/users/middleware.py:29-33 | a superuser whom the view signs out, or signs in as another user, keeps the new session; a superuser who stays signed in off the admin site is flushed |
| Middleware.BareAdminUnrestricted | apps/users/middleware.py:14 | "/admin" without the trailing slash is never restricted, because the prefix test includes the slash |
| UserAdmin.GetReadonlyFields | apps/users/admin.py:31-39 | the add form has no read-only fields; a change form has exactly the six listed fields, followed by `is_active` for a superuser and by nothing for anyone else |
| UserAdmin.ReadonlyFieldSelection | apps/users/admin.py:18-39 | on a change form every field but `is_active` is read-only, and `is_active` is editable only for a non-superuser; a field name is read-only iff it is one of the six listed or it is `is_active` on a superuser |
| Signup.CleanEmail | apps/users/forms.py:16-27 | accepted iff no account holds the stripped, lower-cased address, which is then returned; otherwise the Google message iff the holder has no usable password, else the duplicate message |
| Signup.CleanEmailRejectsVariants | apps/users/forms.py:18-27 | a taken address stays refused under any change of case or surrounding whitespace |
| Signup.CleanEmailIdempotent | apps/users/forms.py:18 | a cleaned address passes the e-mail cleaning again unchanged |
| Signup.SignupSave | apps/users/forms.py:29-37 | the stored address is lower-cased and the user is created unverified; the save fails iff that address is taken |
| Signup.CleanThenSave | apps/users/views.py:99-105 | a cleaned address always saves, and the table's e-mails stay unique |
| Social.PreSocialLogin | apps/users/adapters.py:15-31 | a Google sign-in is stopped, with a redirect to the login page, iff the first account holding the lower-cased address has a usable password |
| Social.GateAgreesWithSignup | apps/users/adapters.py:15-31 | the sign-in guard refuses exactly the addresses that signup reports as held by a password account |
| Social.PictureNameRoundTrip | apps/users/adapters.py:42-52 | the stored picture name `profile_pictures/<id>_profile.jpg` reads back to its user's id |
| Social.SaveUser | apps/users/adapters.py:33-55 | the returned Google user is marked verified, and gets a picture name iff the profile carries a picture URL; the stored row is verified only when it already was or a picture was fetched, since the only `user.save()` is in the picture branch; nothing else changes |
| Social.SaveUserSaved | apps/users/adapters.py:33-55 | the corrected adapter: the stored row is the returned user, so every Google user is stored verified |
| Social.SaveUserLosesVerified | apps/users/adapters.py:36-53 | an unverified Google user without a picture is returned verified but stored unverified |
| Social.SetVerifiedForGoogle | apps/users/signals.py:7-12 | the handler saves and marks the user verified iff the provider is Google, and changes nothing else |
| Social.SetVerifiedIdempotent | apps/users/signals.py:7-12 | running the handler twice leaves the user as running it once |
| Social.SaveUserAgreesWithSignal | apps/users/signals.py:7-12 | the adapter and the signal leave the same user object, but their stored rows differ exactly when there is no picture and the user was not yet verified |
| Social.SaveUserSavedAgreesWithSignal | apps/users/signals.py:7-12 | the corrected adapter stores exactly the row the signal handler stores, verified |
| UserViews.SendEmail | apps/users/views.py:408-434 | the purpose is accepted iff it is "verification" or "password_reset", and the link routes to `verify_email` or `verify_password_reset` accordingly |
| UserViews.SendEmailDistinguishesPurposes | apps/users/views.py:413-427 | the two purposes give mails with different subjects and links |
| UserViews.RedirectUserDashboard | apps/users/views.py:397-405 | normal users go to the dashboard, content managers to theirs, any other role is refused |
| UserViews.DashboardAdmitsUser | apps/users/views.py:397-405 | the dashboard a user is sent to is one whose guard admits them |
| UserViews.RedirectAuthenticatedUser | apps/users/views.py:377-394 | anonymous visitors and superusers stay; an unverified user gets a verification mail and goes to the verify page; a verified user goes to their dashboard |
| UserViews.UserLogin | apps/users/views.py:45-90 | an account holding exactly the normalised address without a usable password gets the Google message; otherwise login happens iff the configured backends authenticate the address (exactly, then ignoring case) and the account is not a superuser; the outcomes are the generic message, the form's own message, the verify page with a mail, or the dashboard |
| UserViews.Authenticate | customizable_learning_platform/settings.py:160-172 | nothing authenticates an empty address; otherwise some account does iff one whose address matches ignoring case is active and opened by the password, and an exact match the password opens is preferred |
| UserViews.MixedCaseAddressLogsIn | apps/users/views.py:52-75 | an account stored as "Alice@x.com" logs in with the right password although the exact lookup of "alice@x.com" finds nothing |
| UserViews.LoginRefusesSuperusers | apps/users/views.py:69-72 | whoever the page logs in is an account the password opens and never a superuser |
| UserViews.LoginIgnoresCaseAndPadding | apps/users/views.py:52 | the submitted address matters only up to case and surrounding whitespace |
| UserViews.ResendPasswordReset | apps/users/views.py:299-320 | the replies are 400 for a wrong method, for a missing address and for an inactive account, 404 for an unknown address, and 200 with exactly one reset mail otherwise |
| CourseModels.DifficultyChoices | apps/courses/models.py:8-19 | difficulty values and levels correspond one to one within 15 characters; the stored top level is "advance", so "advanced" is rejected |
| CourseModels.ContentTypeChoices | apps/courses/models.py:33-44 | content-type values and types correspond one to one within the 5-character column |
| CourseModels.EmptyStore | apps/courses/models.py:7-60 | an empty course store satisfies the integrity invariant |
| CourseModels.SaveCourse | apps/courses/models.py:18 | a duplicate title is refused; otherwise the course is added under a fresh key and integrity is kept |
| CourseModels.SaveSection | apps/courses/models.py:25-26 | a section saves iff its course exists |
| CourseModels.SaveContent | apps/courses/models.py:32-45 | a content row saves iff its section exists |
| CourseModels.SaveQuiz | apps/courses/models.py:51-54 | a quiz saves iff its section exists |
| CourseModels.SaveAnswer | apps/courses/models.py:57-60 | an answer saves iff its user and quiz exist |
| CourseModels.KeepAnswersOf | apps/courses/models.py:59 | exactly the answers whose quiz remains are kept, unchanged |
| CourseModels.DeleteQuiz | apps/courses/models.py:59 | the quiz's answers go with it and all other tables are untouched |
| CourseModels.DeleteSection | apps/courses/models.py:43-59 | the section's contents and quizzes and those quizzes' answers go with it; rows under other sections are unchanged |
| CourseModels.DeleteCourse | apps/courses/models.py:26-59 | the course's sections cascade to contents, quizzes and answers; rows of other courses are unchanged |
| CourseModels.DeleteUser | apps/courses/models.py:58 | the user's answers go with them; courses stay |
| CourseModels.DeleteQuizValid | apps/courses/models.py:57-60 | after deleting a quiz no answer refers to a missing quiz, so integrity is kept |
| CourseModels.DeleteSectionValid | apps/courses/models.py:43-59 | after deleting a section no content, quiz or answer dangles |
| CourseModels.DeleteCourseValid | apps/courses/models.py:26-59 | after deleting a course no section, content, quiz or answer dangles |
| CourseModels.DeleteUserValid | apps/courses/models.py:57-60 | after deleting a user no answer refers to them |
| CourseModels.DeleteCourseRemovesExactlyOwned | apps/courses/models.py:26-59 | deleting a course removes exactly the rows it transitively owns |
| CourseModels.DeleteSectionIdempotent | apps/courses/models.py:43-52 | deleting a section twice is deleting it once |
| CourseViews.CreateCourse | apps/courses/views.py:18-90 | non-managers are redirected and GET shows the form; on POST an invalid course form changes nothing and errors at render; a valid one saves the course first and keeps it even when the section formset is invalid |
| CourseViews.CreateCourseSavesCourse | apps/courses/views.py:25-27 | the new course is the form's title and difficulty under a fresh key, and it is the only course added; the `created_by` the view assigns is not a column of the course table, so nothing records the creator |
| CourseViews.CreateCourseSavesSection | apps/courses/views.py:30-35 | each section of a valid formset is saved under the new course |
| CourseViews.CreateCourseSavesTexts | apps/courses/views.py:37-43 | each text form is saved once under every saved section, because the child formsets are rebuilt from the same POST |
| CourseViews.CreateCourseSavesImages | apps/courses/views.py:45-51 | each image form is saved under every saved section, after its texts |
| CourseViews.CreateCourseSavesVideos | apps/courses/views.py:53-59 | each video form is saved under every saved section, after its images |
| CourseViews.CreateCourseSavesQuizzes | apps/courses/views.py:61-67 | each quiz form is saved under every saved section, after its videos |
| CourseViews.CreateCourseKeepsRows | apps/courses/views.py:24-67 | a request whose course form is valid changes no row that existed before it, and the key counter moves past one course plus one block of rows per saved section |
| CourseViews.CreateCourseOnlyUnder | apps/courses/views.py:24-67 | every row the request adds belongs to the new course |
| CourseViews.CreateCourseValid | apps/courses/views.py:18-90 | whatever the request, a store with integrity keeps it |
| CourseViews.CreateThenDeleteCourse | apps/courses/views.py:24-67 | deleting the created course gives back the original store, apart from the key counter |
| Notifications.NotificationTime | apps/courses/tests/test_models.py:67-77 | the notification instant is the scheduled instant less the lead time in minutes |
| Notifications.Sweep | apps/courses/tasks.py:7-27 | exactly the unsent, due rows are attempted, in order; a row's flag is set iff it was already set or its mail went out; nothing else changes |
| Notifications.SweepQuiet | apps/courses/tasks.py:9-14 | a pass with no pending row changes nothing and mails nobody |
| Notifications.SweepTwiceIsOnce | apps/courses/tasks.py:9-25 | once every mail is delivered, a second pass at the same instant changes nothing and mails nobody |
| Notifications.SweepNeverResends | apps/courses/tasks.py:9 | an already-notified row is never mailed again |
| Notifications.PastScheduleIsDue | apps/courses/tasks.py:12-14 | an unsent session at or past its start is always due |
| TimeFilters.Decompose | apps/courses/templatetags/time_filters.py:10-12 | hours, minutes and seconds recombine to the input for every sign, with minutes and seconds in [0, 60) |
| TimeFilters.TimeFormat | apps/courses/templatetags/time_filters.py:6-18 | the result always ends in ":SS" with two digits; an unconvertible value gives "0:00" |
| TimeFilters.LongFormGroups | apps/courses/templatetags/time_filters.py:14-15 | at least an hour renders as `H:MM:SS` |
| TimeFilters.ShortFormGroups | apps/courses/templatetags/time_filters.py:14-16 | under an hour renders as `M:SS` |
| TimeFilters.TimeFormatRoundTrip | apps/courses/templatetags/time_filters.py:6-16 | reading the rendering of a non-negative duration gives the duration back |
| TimeFilters.NegativeShortForm | apps/courses/templatetags/time_filters.py:10-16 | a negative duration renders in the short form and reads back off by a whole number of hours |
| TimeFilters.UnconvertibleIsZero | apps/courses/templatetags/time_filters.py:17-18 | an unconvertible value renders as zero seconds does |
| Text.Strip | apps/users/forms.py:18 | the result sits inside the input with only whitespace cut at both ends, and has none left at either end; whitespace is Python's `str.isspace()` set (including U+001C to U+001F and U+0085) for `strip()` and ECMAScript's WhiteSpace and LineTerminator set (including U+FEFF) for `trim()` |
| Text.StripIdempotent | apps/users/forms.py:18 | stripping twice is stripping once |
| Text.StripEmptyIffAllSpace | static/js/create_or_edit_course.js:417 | a value is blank after trimming iff it is all whitespace |
| Text.NormalizeIdempotent | apps/users/forms.py:18 | normalising a normalised address changes nothing |
| Text.NormalizeIgnoresCaseAndPadding | apps/users/views.py:52 | addresses differing only in case or surrounding whitespace normalise alike |
| Text.NatToStringRoundTrip | static/js/create_or_edit_course.js:92 | the decimal rendering of an index reads back to the index |
| Text.NatToStringInjective | static/js/create_or_edit_course.js:92 | different indexes render differently |
| Text.ReplaceAllRemovesPattern | static/js/create_or_edit_course.js:92 | a global replacement by a text foreign to the pattern leaves no occurrence |
| Text.ReplaceAllSingle | static/js/create_or_edit_course.js:92 | a text with one occurrence gets the replacement in its place |
| Text.ReplaceFirstDigitRunShape | static/js/create_course.js:42 | in a name `<no digits><digits><rest not starting with a digit>` only the digit run is replaced by the new number; the text before and after it is kept |
| Text.ReplaceFirstDigitRunNoDigit | static/js/create_course.js:42 | a name without digits is left unchanged |
| Text.ReplaceFirstDigitRunIdempotent | static/js/create_course.js:42 | replacing the first digit run again with the same number changes nothing |
| Formsets.Stamp | static/js/create_or_edit_course.js:89-92 | after stamping no placeholder is left, and a text without one is unchanged |
| Formsets.StampField | static/js/create_or_edit_course.js:84-95 | `id` is always stamped, `name` only on form controls and `for` only on labels; tag, value and visibility are untouched |
| Formsets.UpdateFormset | static/js/create_or_edit_course.js:77-100 | a missing counter means no change; otherwise every field is stamped with the counter, which goes up by one |
| Formsets.SuccessiveClonesDiffer | static/js/create_or_edit_course.js:77-100 | two form controls cloned in a row from the same template get different names |
| Ordering.Renumber | static/js/create_or_edit_course.js:204-230 | live items are stamped with their live rank, and every other item is kept in place |
| Ordering.RenumberIdempotent | static/js/create_or_edit_course.js:204-230 | renumbering twice is renumbering once |
| Ordering.LiveCountZero | static/js/create_or_edit_course.js:387-392 | the live count is zero iff no item is live |
| Authoring.UpdateSectionOrder | static/js/create_or_edit_course.js:232-235 | live sections get order 0, 1, … and heading "Section n+1" in document order; deleted sections are untouched |
| Authoring.UpdateRowOrder | static/js/create_or_edit_course.js:204-230 | live rows get their live rank as order; deleted rows keep their old order; nothing else changes |
| Authoring.UpdateRowOrderNumbers | static/js/create_or_edit_course.js:204-230 | after renumbering, the live orders are exactly 0 … k-1, increasing in document order |
| Authoring.UpdateRowOrderIdempotent | static/js/create_or_edit_course.js:237-245 | renumbering a container twice is renumbering it once |
| Authoring.UpdateSectionOrderIdempotent | static/js/create_or_edit_course.js:232-235 | renumbering the sections twice is renumbering them once |
| Authoring.NextOrder | static/js/create_or_edit_course.js:151-164 | the new order exceeds every numeric order in the container, deleted rows included, and is 0 or one past an existing order |
| Authoring.AddContentOrQuiz | static/js/create_or_edit_course.js:103-167 | with no current section nothing changes; otherwise a stamped clone is appended to the container, with the next order and the section's order, and nothing else changes |
| Authoring.AddKeepsOrdersDistinct | static/js/create_or_edit_course.js:151-164 | a new row never takes an order a live row of its container already has |
| Authoring.RemoveCurrentSection | static/js/create_or_edit_course.js:169-194 | the current section and all its rows are marked deleted, no section is current, the live count drops by one, and the live sections are renumbered |
| Authoring.DeleteRow | static/js/create_or_edit_course.js:462-508 | the click first makes the row's section the one being edited unless it is deleted; then the row is marked deleted and the same container of the section being edited is renumbered: for a live section exactly that section changes, to the renumbered container with the row marked; every other section is untouched |
| Authoring.DeleteRowFlags | static/js/create_or_edit_course.js:196-202 | only that row's `DELETE` box is ticked: every other box keeps its state and only the row containers of that kind change |
| Authoring.Click | static/js/create_or_edit_course.js:461-473 | a click inside a live section makes it current; a deleted one changes nothing |
| Authoring.AddSection | static/js/create_or_edit_course.js:56-75 | the new section becomes current, with order equal to the live count and the matching heading, holding one text row and one quiz row of order 0 tied to it |
| Authoring.RenderOne | static/js/create_or_edit_course.js:248-337 | a saved row whose section order matches no section is skipped; otherwise it is stamped and appended to the first matching section |
| Authoring.Render | static/js/create_or_edit_course.js:247-339 | rendering only appends rows of the given kind, tied to their section's order |
| Authoring.RenderSkipsOrphans | static/js/create_or_edit_course.js:249-259 | saved rows that match no section leave the page as it was |
| Authoring.SectionProblem | static/js/create_or_edit_course.js:359-381 | no problem is reported iff the section has live, filled content and live, filled quizzes |
| Authoring.RowFilled | static/js/create_or_edit_course.js:414-421 | true iff every input the publish validation looks at holds more than whitespace |
| Authoring.AnyLive | static/js/create_or_edit_course.js:399-406 | true iff some row is not deleted |
| Authoring.AllLiveFilled | static/js/create_or_edit_course.js:408-450 | true iff every live row is filled; deleted rows are skipped |
| Authoring.CheckSection | static/js/create_or_edit_course.js:359-381 | the four checks run in order and report the first failure |
| Authoring.ValidateCourseBeforeSave | static/js/create_or_edit_course.js:352-459 | passes iff there is a live section and every live section is ready; "no section" iff all are deleted; otherwise reports the first failing live section, numbered among the live ones |
| Authoring.Submit | static/js/create_or_edit_course.js:595-612 | submission is prevented iff a publish fails validation; the leave-page guard is removed iff there is a submitter and nothing was prevented; drafts always go ahead |
| Authoring.RenumberKeepsReadiness | static/js/create_or_edit_course.js:193 | renumbering the sections never changes whether the page can be published |
| CreationPage.UpdateSectionNumbers | static/js/create_course.js:15-28 | section i gets order i and heading "Section i+1"; its rows and form index are untouched |
| CreationPage.RenameShape | static/js/create_course.js:41-43 | renaming a row puts the new index in place of the first digit run of each name and keeps the rest |
| CreationPage.RenumberKind | static/js/create_course.js:30-64 | within a section, rows of the other kind are untouched and rows of this kind get their rank as order and name index |
| CreationPage.UpdateNumbersIdempotent | static/js/create_course.js:30-64 | renumbering twice is renumbering once |
| CreationPage.AddContent | static/js/create_course.js:72-112 | with no current section nothing is added; otherwise the row is appended to it and content rows are renumbered in every section |
| CreationPage.RemoveRow | static/js/create_course.js:145-186 | the click first makes the row's section current (the `#sections` listener), then the row leaves the page and rows of its kind are renumbered |
| CreationPage.AddContentNumbered | static/js/create_course.js:72-112 | after an add every content row on the page carries its rank, a new content row is ranked after its section's other content rows, and quiz rows are untouched |
| CreationPage.RemoveRowNumbered | static/js/create_course.js:169-186 | after a removal every row of the removed kind carries its rank, and the section holds one row of that kind fewer and as many of the other |
| CreationPage.Select | static/js/create_course.js:145-154 | a click inside a section makes it current and changes nothing else |
| CreationPage.AddSection | static/js/create_course.js:115-128 | as written: the clone's index is the number of `.section-form` elements, templates included, and `TOTAL_FORMS` becomes one more |
| CreationPage.RemoveSection | static/js/create_course.js:131-142 | as written: `TOTAL_FORMS` becomes the remaining count, no section is current, and the survivors keep their stamped indexes |
| CreationPage.RemoveThenAddCollides | static/js/create_course.js:116-137 | on an empty page, add, add, remove the first, add leaves two sections with form index 1 |
| CreationPage.AddSectionCounted | static/js/create_course.js:116-126 | corrected: the clone takes `TOTAL_FORMS` as its index, and the counter goes up by one |
| CreationPage.RemoveSectionCounted | static/js/create_course.js:131-141 | corrected: removing a section keeps `TOTAL_FORMS` |
| CreationPage.CountedKeepIndexesSound | static/js/create_course.js:115-142 | with the corrected operations, form indexes stay distinct and below `TOTAL_FORMS` |
| CoursePage.Init | static/js/course.js:1-13 | a page without sections gets no accordion; otherwise section 0 is active and only its body, if any, is shown |
| CoursePage.Click | static/js/course.js:15-40 | a section without title or body ignores clicks; clicking the active one hides it and leaves none active; clicking another hides the active body and shows and activates this one; the invariant is kept |
| CoursePage.AtMostOneShown | static/js/course.js:5-40 | under the invariant, at most one body is shown |
| CoursePage.ClicksKeepInv | static/js/course.js:5-40 | any run of clicks keeps the invariant that a shown body belongs to the active section |
| CoursePage.InitEstablishesInv | static/js/course.js:5-13 | the page-load state satisfies the invariant |
| CoursePage.ClickTwiceRestoresShown | static/js/course.js:23-39 | with no active section, clicking a title twice restores the page |
| CoursePage.MinMinuteLead | static/js/course.js:51-58 | the minimum begins more than 29 and at most 30 minutes after now |
| CoursePage.SetMin | static/js/course.js:51-63 | the input's minimum and value are both the computed minimum, with no message |
| CoursePage.Type | static/js/course.js:65-71 | a value before the minimum gets the message; any other value clears it |
| CoursePage.AcceptedIsAtLeastLead | static/js/course.js:65-71 | an accepted value begins more than 29 minutes after the minimum was set |
| CoursePage.RejectedIsBeforeLead | static/js/course.js:65-71 | a rejected value begins less than 30 minutes after the minimum was set |
| CoursePage.Show | static/js/course.js:75-94 | opening the modal sets a fresh minimum, hides the reschedule form and confirm button, and resets the action to "view", for the elements present |
| CoursePage.Reschedule | static/js/course.js:98-110 | only with form, button and action present: shows them, sets the action to "reschedule", and refreshes the inner date input |
| CoursePage.ShowUndoesReschedule | static/js/course.js:75-110 | reopening the modal after a reschedule click goes back to viewing |
| ResendGate.Step | static/js/verify_password_reset.js:16-53 | a request is sent iff a click finds the flag up, and the send lowers it; a reply starts the cooldown; a failure, or the end of the cooldown, raises it again; consistency is kept |
| ResendGate.RunEvents | static/js/verify_email.js:15-46 | any run of events keeps the flag consistent with the pending request and timer |
| ResendGate.NoResendDuringCooldown | static/js/verify_email.js:30-46 | until the cooldown timer fires, no click sends anything |
| ResendGate.NoResendWhileInFlight | static/js/verify_email.js:17-24 | while a request is pending, clicks send nothing and change nothing |
| ResendGate.FailureReenables | static/js/verify_password_reset.js:42-45 | after a failed request the next click sends again |
| Cookies.FirstOccurrence | static/js/logout.js:20 | the position returned is the first occurrence of the separator, or the length when there is none |
| Cookies.FindPrefixed | static/js/logout.js:21 | the first entry starting with the prefix, or none when no entry does |
| Cookies.CsrfToken | static/js/logout.js:18-23 | "" when no entry starts with "csrftoken="; otherwise the text after the first '=' of the first such entry, up to the next '=' |
| Cookies.CsrfTokenFirstEntry | static/js/verify_email.js:48-53 | a cookie starting `csrftoken=v`, followed by nothing or by "; " and more, yields v |
| Cookies.SingleEntry | static/js/verify_password_reset.js:55-57 | a cookie without ';' is a single entry |
| Cookies.ContainedNameIgnored | static/js/verify_password_reset.js:58 | an entry that only contains "csrftoken=" later on, such as `my_csrftoken=v`, is never taken for the token |

## Left out

- Rendering, templates, messages, mail transport, token signing and its 300-second expiry, sessions, and file storage are not modelled. The Google picture download and the profile-picture upload are also left out. A mail is recorded by its purpose.
- `normalize_email` is passed in as an opaque function. Password checking is an input: which stored accounts the submitted password belongs to. `has_usable_password()` is a stored flag.
- UserViews.UserLogin: among several accounts whose addresses differ only in case, allauth's backend is modelled as trying them in key order; allauth also consults its own e-mail address table and prefers verified addresses, which are not part of this model.
- Lower-casing is ASCII-only: Python's `lower()` and JavaScript's `toLowerCase()` also map non-ASCII letters, which the model leaves unchanged. Whitespace is not simplified: `strip()` and `trim()` each use their own language's full set.
- The `ScheduledCourse` model is not part of this model. Its fields and `get_notification_time` come from the course tests. `send_email`, which the sweep imports, is not part of this model either; whether each mail goes out is an input.
- Time is modelled as whole seconds, or as milliseconds and minutes on the course page. Time zones appear only as the browser's offset.
- `time_format`'s `int(float(x))` conversion is not modelled: the input is already an integer number of seconds, or a value whose conversion raises `ValueError` or `TypeError`. An infinite float makes `int()` raise `OverflowError`, which the filter does not catch, so the filter itself raises; that case is left out.
- Only the `create_course` view is modelled among the course views. `course` filters on a `status` field that the shown models lack, and `edit_course` and the unseen `create_or_edit_course` are left out.
- Django's form and formset validation is an input: a formset comes with its validity and its unsaved rows.
- CourseViews.CreateCourse: the model assumes forms whose fields are the stored columns. The forms as written name columns the models lack: `CourseForm` lists `description` and `estimated_completion_time` (apps/courses/forms.py:10), and the three content forms list `text_content`, `image`, `alt_text`, `video` and `video_transcription` (forms.py:22, 37, 52) where `Content` has only `content_type` and `content_data`. Django refuses such a form class when it is defined, so the view module would not load against these models.
- CourseViews.CreateCourse: the three content formsets are modelled as independent inputs. As written, apps/courses/views.py:38, 46 and 54 build them without a `prefix`, so all three read the same default prefix from the one POST.
- The dirty tracking, `MutationObserver` and `beforeunload` prompt of the course editor are left out. So are the CSS classes and the active-section highlighting.
- The course editor's initial page setup is left out. The create page's first `addSection` and activating the order-0 section on the edit page are sequences of the modelled operations. The edit page's loading of existing sections (static/js/create_or_edit_course.js:516-545) is not: it copies each section's id, title and order from the server data without renumbering, and it is left out with the edit view that supplies that data.
- Every row and section is assumed to carry an order input and a DELETE box. The editor's `if (deleteInput)` and `if (orderInput)` guards are therefore always taken.
- The verification-status polling of the two inbox pages, the fetch calls and the 30-second timer are left out. The timer firing is an event of the gate.
- The transcription panel toggles of the course page are left out.
- CoursePage dates are local minute counts. The page compares ISO `YYYY-MM-DDTHH:MM` strings, which order the same way. Each `setMinDateTime` call adds one more `input` listener. The model keeps only the latest minimum, because the listener added last runs last and decides the message.
- CreationPage: a section's markup is reduced to its form index, and a row's markup to the names of its inputs.
- Cookies.CsrfTokenFirstEntry: requires the value to contain no ';' at all. That is stronger than "contains no '; '", and keeps the proof short.
- Authoring.ValidateCourseBeforeSave: the sections are the ones under `#sections`. The editor's `querySelectorAll(".section-form")` also reaches the hidden `#empty-section-form` template if that markup is a plain hidden element rather than an inert `<template>`; the page markup is not part of this model. If it is reached, that blank section counts as live, has no rows, and publishing is always refused.
- Authoring.RenderOne: the same assumption about the section template. A template section whose order input parsed to a saved row's section order would receive that row.
- Middleware.ChainAdminAccess: the middleware order is the one the settings file lists. Django's own middlewares in the same list are left out.

## Findings

| source | as written | input that shows it | evidently intended | confidence | as-written member | corrected member |
|---|---|---|---|---|---|---|
| static/js/create_course.js:116-137 | a new section's form index is the count of sections on the page, and removing a section sets `TOTAL_FORMS` to the remaining count | on an empty page: add, add, remove the first, add; the two sections left both carry form index 1 | every section keeps a distinct form index below `TOTAL_FORMS`, as Django's management form expects | medium, not executed | CreationPage.RemoveThenAddCollides | CreationPage.CountedKeepIndexesSound |
| apps/users/adapters.py:36-53 | `save_user` sets `is_verified = True` on a Google user but calls `user.save()` only inside `if profile_picture_url:` | a Google sign-up whose profile has no "picture" entry: the row the base adapter stored keeps `is_verified = False` | every Google user is stored verified, as the signal handler does for connected accounts | medium, not executed | Social.SaveUserLosesVerified | Social.SaveUserSavedAgreesWithSignal |
