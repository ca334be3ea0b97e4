# Backpack course catalogue: a Dafny model of its logic

Backpack is a Next.js application where learners browse, save and submit
online courses (mostly YouTube videos) and administrators review the
submissions. This project models the logic inside its route handlers and
page components in Dafny and proves what that logic promises. Covered:

- the in-memory account table of the auth route (signup and login);
- password-reset tokens:
  - issuing them on the forgot-password page;
  - checking and redeeming them on the reset-password page;
- the course-list operations of the home page, the public catalogue, the
  dashboard and the admin review page;
- the string recognisers of the course-creation page:
  - the YouTube URL test;
  - thumbnail extraction;
  - channel-name cleanup and description truncation;
  - submit validation;
- the code sanitiser of the email-verification page;
- the video-id regular expression and response ladder of the YouTube route;
- the two course-creation API routes;
- the middleware's public-route test.

There is one module per source file:

| Module | Source |
|---|---|
| `AuthRoute` | src/app/api/auth/route.ts |
| `ForgotPassword` | src/app/auth/forgot-password/page.tsx |
| `ResetPassword` | src/app/auth/reset-password/page.tsx |
| `HomePage` | src/app/page.tsx |
| `CoursesPage` | src/app/courses/page.tsx |
| `Dashboard` | src/app/dashboard/page.tsx |
| `AdminPage` | src/app/admin/page.tsx |
| `CreateCourse` | src/app/courses/create/page.tsx |
| `VerifyEmail` | src/app/auth/verify-email/page.tsx |
| `YouTubeRoute` | src/app/api/youtube/route.ts |
| `CoursesAdd` | src/app/api/courses/add.ts |
| `CoursesRoute` | src/app/api/courses/route.ts |
| `Middleware` | src/middleware.ts |

Four shared modules support them:

- `Values`: `Option`, `Result`, JSON values and JavaScript's notion of a falsy value.
- `Strings`: ASCII case folding, substring search, `trim`, and the decimal form of a number.
- `Seqs`: an order-preserving `Filter` and its algebra.
- `Catalog`: the course record shapes of src/lib/types.ts and src/lib/courses.ts.

Which parts are state and which are values:

- **The account table.** The auth route keeps a module-level array that signup grows in place. It is the class `AuthRoute.AccountTable`. Its invariant `Valid()` says:
  - no two emails are strictly equal (`===`);
  - the record at index i has id i + 1;
  - every record is verified and not an administrator.
- **The catalogue back-fill.** The catalogue page's load hook parses the stored list and, while it filters, writes ids into the objects of that parsed copy. The copy is never written back to storage. It is a method over an `array<Course>` that holds the copy.
- **Everything else** builds new values. It is modelled by functions, and by lemmas about those functions.

Storage contents, the clock, random tokens, sessions, database outcomes and
YouTube API replies are parameters.

The model keeps these behaviours of the code as they are:

- **Reset expiry.** The reset page checks the token's expiry only when it loads. The submit handler redeems the token without checking the expiry again (`ResetPassword.ResetSubmit`).
- **Link validation order.** The course-creation page validates the URL before trimming it, then sends the trimmed link. So "youtu.be/ " passes the check, and the stored link is "youtu.be/", which the check alone would refuse (`CreateCourse.LinkCheckedBeforeTrim`).
- **Path priority in the video-id expression.** The YouTube route's expression tries its `segment/…/` alternative before `v/`, `embed/` and `?v=`. So an id followed by a later '/' is not necessarily the one captured. For example, "youtube.com/watch?v=AAAAAAAAAAA/x/BBBBBBBBBBB" yields the second id. The lemmas about the `watch`, `embed` and `v` forms are stated for URLs without a '/' after the id.
- **Middleware.** Every branch of the middleware lets the request through (`Middleware.Decide`). Because "/" is a public route, every rooted path is public (`Middleware.PublicIffRooted`).

## Model

| member | source | states |
|---|---|---|
| AuthRoute.SignupResult | src/app/api/auth/route.ts:14-56 | A falsy or missing email, password or name gives 400 "Missing required fields", checked before the duplicate test. The fields may be any JSON value. An email strictly equal to a stored one gives 400 "Email already registered". Both leave the table unchanged. The table grows exactly when neither holds. It gets one record at the end with id = old length + 1, verified and not an administrator, and earlier records are untouched. The record is pushed before signing. So the answer is 200 with the new record's session when signing and the cookie succeed, and otherwise 500 "Something went wrong" with the record kept. |
| AuthRoute.FirstWithCredentialsFrom | src/app/api/auth/route.ts:62 | The scan returns the first index at or after `from` whose record holds both the email and the password. It returns none when no later record does. |
| AuthRoute.FirstWithCredentials | src/app/api/auth/route.ts:62 | `find` by email and password yields the first matching record. It yields nothing exactly when no record holds both credentials. |
| AuthRoute.LoginResult | src/app/api/auth/route.ts:59-84 | Without a record holding both credentials, login gives 401 "Invalid credentials". With one, it gives 200 and that record's session if signing succeeds, and 500 if signing or the cookie throws. |
| AuthRoute.PostResult | src/app/api/auth/route.ts:9-90 | A body that does not parse gives 500 "Something went wrong". An action other than signup or login gives 400 "Invalid action". Login never changes the table, and it succeeds exactly when some record holds both credentials and signing succeeds. Only a signup can change the table, by one record. A 400 or 401 never changes it. A failing request that did change it is a 500 from a throw while signing or setting the cookie. |
| AuthRoute.SignupKeepsValid | src/app/api/auth/route.ts:17-35 | Signup preserves the table invariant: no two emails become strictly equal, stored fields stay truthy, and the record at index i keeps id i + 1. This holds whether or not signing throws. |
| AuthRoute.PostKeepsValid | src/app/api/auth/route.ts:9-90 | Every request preserves the table invariant, whatever its action and whether or not signing throws. |
| AuthRoute.LoginNamesTheAccount | src/app/api/auth/route.ts:59-84 | In a valid table, logging in with a stored email and its password succeeds when signing does, provided neither is an object or array. The session names exactly that record: id i + 1, its email, not an administrator. |
| AuthRoute.SignupPushesBeforeSigning | src/app/api/auth/route.ts:14-55 | A signup with non-empty string fields and a fresh email appends exactly its record. It answers 200 exactly when signing and the cookie succeed. |
| AuthRoute.AccountTable.constructor | src/app/api/auth/route.ts:6 | The table starts empty, which satisfies the invariant. |
| AuthRoute.AccountTable.FindByEmail | src/app/api/auth/route.ts:22 | The loop returns the first index whose email is strictly equal to the given one. When it returns none, no record's email is. |
| AuthRoute.AccountTable.FindByCredentials | src/app/api/auth/route.ts:62 | The loop returns the same index as `FirstWithCredentials`. |
| AuthRoute.AccountTable.Signup | src/app/api/auth/route.ts:14-56 | The in-place signup keeps `Valid()`. Its response and new table are those `SignupResult` computes from the old table. |
| AuthRoute.AccountTable.Login | src/app/api/auth/route.ts:59-84 | Login reads the table without changing it, and answers as `LoginResult`. It returns 200 exactly when some record holds both credentials and signing succeeds. With no such record it returns 401 "Invalid credentials". |
| AuthRoute.AccountTable.Post | src/app/api/auth/route.ts:9-90 | The handler keeps `Valid()`, and its response and new table are those of `PostResult`. Only a signup can change the table. A 400 or 401 never does, and a failing request that does change it comes from a throw while signing. Login succeeds exactly when the credentials are held and signing succeeds. |
| ForgotPassword.IssueResetToken | src/app/auth/forgot-password/page.tsx:15-54 | The error "No account found with this email address" comes exactly when no user has the email, and nothing is written. Otherwise the written list keeps its length and order. Every user with that email gets the token and an expiry of now + 3600000, with other fields kept. Every other user is unchanged. |
| ForgotPassword.ReissueOverwrites | src/app/auth/forgot-password/page.tsx:34-43 | Issuing twice for the same email equals issuing once with the second token and time. The later request overwrites the earlier token and expiry. |
| ResetPassword.FirstHolderFrom | src/app/auth/reset-password/page.tsx:27 | The scan returns the first index at or after `from` whose user holds the token. It returns none when no later user does. |
| ResetPassword.FirstHolder | src/app/auth/reset-password/page.tsx:27 | `find` by reset token yields the first holder. It yields nothing exactly when no user holds the token. |
| ResetPassword.CheckToken | src/app/auth/reset-password/page.tsx:18-35 | A missing or empty token is exactly the "Invalid reset link" case. A token is valid exactly when its first holder has a non-zero expiry and now has not passed it. |
| ResetPassword.ResetSubmit | src/app/auth/reset-password/page.tsx:37-76 | Mismatched passwords are refused before the length rule. A password shorter than 6 characters is refused. Success comes exactly when both rules pass. Every holder of the token then gets the new password, with token and expiry cleared. Everyone else is unchanged, and the length is kept. |
| ResetPassword.RedeemIsSingleUse | src/app/auth/reset-password/page.tsx:27-64 | After a successful reset no user holds the token, so the same link never passes the check again, at any time. |
| ResetPassword.IssueThenReset | src/app/auth/reset-password/page.tsx:29-64 | Round trip with the forgot-password page (its lines 31-43). Take a fresh token issued at `now` for a known email. The link opened by `now + 3600000` passes the check. A matching password of 6 or more characters then replaces the password of every account with that email and clears its token. Every other account stays as it was. |
| HomePage.Distinct | src/app/page.tsx:30 | The de-duplicated list holds each value of the input and nothing else, each exactly once. |
| HomePage.DistinctInFirstAppearanceOrder | src/app/page.tsx:30 | The values appear in the order of their first occurrence in the input, as iterating a `Set` yields them. |
| HomePage.PlatformsListed | src/app/page.tsx:29-31 | Every course's platform is offered, only platforms of some course are offered, and none is offered twice. |
| HomePage.NoFilterKeepsAll | src/app/page.tsx:34-41 | An empty search, an empty platform and a null rating pass every course. |
| HomePage.Insert | src/app/page.tsx:42-53 | Inserting one course gives the old elements plus that course, as a multiset. |
| HomePage.InsertSorted | src/app/page.tsx:42-53 | Inserting into a list sorted by non-increasing key keeps it sorted. |
| HomePage.SortDesc | src/app/page.tsx:42-53 | The sort orders by non-increasing key: learners, rating or id, with an absent value counted as 0. The result is a permutation of its input. |
| HomePage.InsertKeepsTies | src/app/page.tsx:42-53 | An inserted course lands after every course with an equal key. |
| HomePage.SortDescStable | src/app/page.tsx:42-53 | The sort is stable: courses sharing a key value keep their input order. |
| HomePage.FilteredCourses | src/app/page.tsx:33-54 | The displayed list is sorted by the chosen key. It is a permutation of exactly the courses that pass the search, platform and rating tests. |
| HomePage.FilteredCoursesMembers | src/app/page.tsx:33-41 | A course is displayed exactly when it is stored and passes all three tests. |
| CoursesPage.Backfilled | src/app/courses/page.tsx:20-23 | A course without an id gets the decimal form of its position in the whole stored list, plus one. Courses with an id are untouched, and the length is kept. |
| CoursesPage.BackfilledHasIds | src/app/courses/page.tsx:20-23 | After the back-fill every course has an id, and only an id-less course's id changed. |
| CoursesPage.LoadPublicCourses | src/app/courses/page.tsx:18-28 | The in-place load leaves the stored array back-filled. It returns exactly the public, approved courses of the back-filled array, in stored order. |
| CoursesPage.ListedAfterLoad | src/app/courses/page.tsx:20-26 | Everything listed after loading is public, approved and has an id. Every public, approved stored course is listed. |
| CoursesPage.FilteredCourses | src/app/courses/page.tsx:32-44 | A course is displayed exactly when it is in the list and passes the search, level and price tests. Search covers title, description or instructor, ignoring case. "free" keeps a price of 0 and "paid" a price above 0. |
| CoursesPage.UnpricedOnlyUnderAll | src/app/courses/page.tsx:39-41 | A course without a price is displayed only when the price filter is "all". |
| CoursesPage.FilteredKeepsOrder | src/app/courses/page.tsx:32-44 | The filter distributes over concatenation, so the displayed list keeps the stored order. |
| CoursesPage.NoFilterShowsAll | src/app/courses/page.tsx:32-44 | An empty search with level and price at "all" shows the whole list. |
| Dashboard.GetSavedCourses | src/app/dashboard/page.tsx:9-13 | The result is empty on the server or when nothing is stored. Otherwise it is the stored list. |
| Dashboard.RemoveCourse | src/app/dashboard/page.tsx:23-27 | No remaining course's id, as a string, equals the removed id. Every other course is kept. The list written to storage is the new state list. |
| Dashboard.RemoveKeepsOrder | src/app/dashboard/page.tsx:24 | Removal distributes over concatenation, so survivors keep their relative order. |
| Dashboard.RemoveAbsent | src/app/dashboard/page.tsx:24 | Removing an id no course has leaves the list unchanged. |
| Dashboard.RemoveTwice | src/app/dashboard/page.tsx:24 | Removing twice equals removing once. |
| Dashboard.FilteredCourses | src/app/dashboard/page.tsx:29-33 | A course is displayed exactly when it is saved and its title, author or platform contains the query, ignoring case. |
| Dashboard.EmptyQueryShowsAll | src/app/dashboard/page.tsx:29-33 | An empty query shows every saved course, in order. |
| AdminPage.LoadCourses | src/app/admin/page.tsx:16-25 | A non-administrator is redirected to "/", and exactly then. An administrator gets the stored list. |
| AdminPage.HandleStatusChange | src/app/admin/page.tsx:27-41 | Courses with the id get the new status whatever their current one. Their feedback is replaced only by a non-empty new feedback; otherwise the old one is kept. Every other course is identical. Length and order are kept, and storage receives the state list. |
| AdminPage.StatusChangeIdempotent | src/app/admin/page.tsx:28-37 | Applying the same status change twice equals applying it once. |
| AdminPage.TabView | src/app/admin/page.tsx:43 | The tab shows exactly the listed courses whose status is the tab's status. |
| AdminPage.TabCount | src/app/admin/page.tsx:88 | A tab's count is the number of positions in the list whose course has the tab's status. |
| AdminPage.TabCountsSum | src/app/admin/page.tsx:74-88 | The pending, approved and rejected counts add up to the length of the list. Every course is on exactly one of the three tabs. |
| AdminPage.ChangedCourseOnItsTab | src/app/admin/page.tsx:27-43 | After a change to a status, every course with that id appears on that status's tab. |
| AdminPage.OnApprove | src/app/admin/page.tsx:146-152 | Approval is offered exactly on the pending tab. It passes the prompt's answer on as feedback only when the answer is non-empty. |
| AdminPage.OnReject | src/app/admin/page.tsx:159-165 | A rejection is applied exactly on the pending tab when the prompt gives a non-empty reason. |
| AdminPage.ApprovalKeepsFeedbackWhenBlank | src/app/admin/page.tsx:149-151 | An approval on the pending tab always applies. A blank or cancelled prompt keeps the earlier feedback. |
| AdminPage.RejectionRecordsReason | src/app/admin/page.tsx:160-164 | A rejection that applies leaves the course rejected, with its non-empty reason as feedback. |
| CreateCourse.GreedyPrefix | src/app/courses/create/page.tsx:11 | Consuming the optional scheme and "www." greedily lands exactly after the scheme and host of any match of the expression. |
| CreateCourse.GreedyFindsShape | src/app/courses/create/page.tsx:11 | Every string in the expression's language passes the greedy test. |
| CreateCourse.ShapeOfGreedy | src/app/courses/create/page.tsx:11 | Every string that passes the greedy test is in the expression's language. |
| CreateCourse.IsYouTubeUrlIff | src/app/courses/create/page.tsx:10-13 | `isYouTubeUrl` holds exactly for this shape: an optional "http://" or "https://", an optional "www.", one of the five path markers, then at least one character that is not a line terminator. |
| CreateCourse.AcceptsEveryForm | src/app/courses/create/page.tsx:11 | Every combination of scheme, host and path marker, followed by a non-line-terminator, is accepted. |
| CreateCourse.RejectsWithoutPath | src/app/courses/create/page.tsx:11 | Without a path marker right after the optional prefixes, nothing is accepted. |
| CreateCourse.SplitSecond | src/app/courses/create/page.tsx:21-27 | `split(sep)[1]` is undefined exactly when the separator does not occur. Otherwise it is the text that starts right after the first occurrence. It holds no occurrence of its own, and it ends at the end of the input or where the next occurrence starts. |
| CreateCourse.CutQuery | src/app/courses/create/page.tsx:21-27 | The result is the longest prefix free of '?' and '#'. It stops exactly at the first query mark. |
| CreateCourse.PathVideoId | src/app/courses/create/page.tsx:20-27 | A split that throws gives "". Otherwise the id is the longest prefix of the second piece without '?' or '#'. |
| CreateCourse.VideoId | src/app/courses/create/page.tsx:16-31 | The markers are checked in order, and the first one present decides the separator. "youtu.be/" splits on "youtu.be/". Else "youtube.com/shorts/" splits on "shorts/", then "youtube.com/embed/" on "embed/", then "youtube.com/v/" on "v/". A path branch yields an id free of query marks. With no path marker, the id is the watch URL's `v` parameter, or "". |
| CreateCourse.GetYouTubeThumbnail | src/app/courses/create/page.tsx:15-38 | The result is "" exactly when no id is found. Otherwise it is "https://img.youtube.com/vi/" + id + "/hqdefault.jpg". |
| CreateCourse.ShortLinkThumbnail | src/app/courses/create/page.tsx:20-33 | A short link to an id, under any scheme and host and followed by nothing or by a query or fragment, gives exactly that id's thumbnail. |
| CreateCourse.ShortsLinkThumbnail | src/app/courses/create/page.tsx:22-33 | A "youtube.com/shorts/" link to an id gives exactly that id's thumbnail. This holds under any scheme and host, with nothing after the id or a query or fragment without '/'. |
| CreateCourse.EmbedLinkThumbnail | src/app/courses/create/page.tsx:24-33 | The same for a "youtube.com/embed/" link. That link holds neither of the earlier markers. |
| CreateCourse.OldEmbedLinkThumbnail | src/app/courses/create/page.tsx:26-33 | The same for a "youtube.com/v/" link. That link holds none of the three earlier markers. |
| CreateCourse.ParseInstructor | src/app/courses/create/page.tsx:84-90 | The cleaned name has no surrounding white space. A name not ending with "Official", "Channel" or "Studio", in any case, is only trimmed. |
| CreateCourse.ParseInstructorStripsWord | src/app/courses/create/page.tsx:86-88 | A trailing "Official", "Channel" or "Studio" is removed. This holds in any letter case and with white space around the word, and leaves the trimmed name. |
| CreateCourse.TruncateDescription | src/app/courses/create/page.tsx:96-98 | A description over 200 characters becomes its first 200 characters followed by "...", so it has at most 203. A shorter one is unchanged. |
| CreateCourse.FillFromVideo | src/app/courses/create/page.tsx:92-101 | A successful fetch changes only the title, instructor, description and image of the form, and sets the preview. The description has at most 203 characters. |
| CreateCourse.FetchFailureMessage | src/app/courses/create/page.tsx:102-104 | A failed fetch always shows a non-empty message: the route's, when it gave one. |
| CreateCourse.OnUrlChange | src/app/courses/create/page.tsx:114-126 | The URL effect changes nothing but the image URL and the preview. It changes them only for a YouTube link, and only to that video's thumbnail. |
| CreateCourse.SubmitCourse | src/app/courses/create/page.tsx:154-189 | The first failing check sets the single error, in order: trimmed title, description, instructor, non-empty URL, then the YouTube test on the untrimmed URL. A record is sent exactly when all pass. It has the trimmed title, description, author and link, and platform "YouTube". Its image is the image URL, else the preview, else the placeholder. |
| CreateCourse.SubmittedRecordIsClean | src/app/courses/create/page.tsx:181-187 | A sent record has non-empty title and author without surrounding white space, a non-empty link and an image. |
| CreateCourse.LinkCheckedBeforeTrim | src/app/courses/create/page.tsx:171-186 | The URL is checked before trimming. So "youtu.be/ " is accepted and the sent link is "youtu.be/", which the check alone refuses. |
| VerifyEmail.OnLoad | src/app/auth/verify-email/page.tsx:14-18 | The page goes to /auth/signup exactly when the code id is missing or empty. |
| VerifyEmail.Sanitize | src/app/auth/verify-email/page.tsx:72-76 | The field holds only digits, at most six. It is exactly the first min(6, k) digits of the input, in order, where k counts the input's digits. |
| VerifyEmail.ShortCodeUnchanged | src/app/auth/verify-email/page.tsx:74 | A code of at most six digits is kept as it is. |
| VerifyEmail.SanitizeIdempotent | src/app/auth/verify-email/page.tsx:74 | Sanitising twice equals sanitising once. |
| VerifyEmail.NonDigitIgnored | src/app/auth/verify-email/page.tsx:74 | Typing a non-digit changes nothing. |
| VerifyEmail.DigitTyped | src/app/auth/verify-email/page.tsx:74 | A typed digit is appended while fewer than six digits are present, and ignored after that. |
| VerifyEmail.SubmitCode | src/app/auth/verify-email/page.tsx:27-48 | A trimmed code whose length is not 6 is refused with "Verification code must be 6 digits", and no request is sent. Otherwise the verify request carries the trimmed six-character code. |
| VerifyEmail.EnabledButtonSendsCode | src/app/auth/verify-email/page.tsx:120 | Whenever the submit button is enabled for a code typed into the field, pressing it sends exactly that code. |
| YouTubeRoute.IdAt | src/app/api/youtube/route.ts:10 | The capture group reads exactly 11 characters from [A-Za-z0-9_-] at the given position. |
| YouTubeRoute.MatchFrom | src/app/api/youtube/route.ts:10 | The leftmost match from a position yields an 11-character id that occurs in the URL. |
| YouTubeRoute.ExtractVideoId | src/app/api/youtube/route.ts:10-20 | Any extracted video id is exactly 11 characters from [A-Za-z0-9_-], and it occurs in the URL. |
| YouTubeRoute.ShortLinkId | src/app/api/youtube/route.ts:10 | "youtu.be/" followed by an 11-character id yields that id, under any scheme and host and whatever follows. |
| YouTubeRoute.PathFormId | src/app/api/youtube/route.ts:10 | "youtube.com/embed/" or "youtube.com/v/" followed by an id yields that id when no '/' follows it. |
| YouTubeRoute.WatchFormId | src/app/api/youtube/route.ts:10 | "youtube.com/watch?v=" followed by an id yields that id when no '/' follows it. |
| YouTubeRoute.WatchQuery | src/app/api/youtube/route.ts:10 | The lazy query scan stops first right after "watch?v=". |
| YouTubeRoute.Post | src/app/api/youtube/route.ts:3-80 | A missing URL gives 500. No match gives 400 "Invalid YouTube URL", before the key check. A missing key gives 500. In both of these cases nothing is fetched. The API is asked exactly about the extracted id. Once the API is asked, `fetch` rejecting or its body failing to read or parse gives 500 "An unexpected error occurred". A reply that is not ok gives 500 "Failed to fetch video details". Missing or empty items give 404 "Video not found". A first item without a snippet gives 500 "An unexpected error occurred". Success returns only the first item's title, description, channel title, thumbnails and channel id. |
| CoursesAdd.NewCourseData | src/app/api/courses/add.ts:18-29 | Title, author and link are copied. Every other field keeps a non-falsy client value or takes its default: platform "YouTube", description "", the placeholder image, duration "", level "Beginner", topics "" and price "". |
| CoursesAdd.Post | src/app/api/courses/add.ts:4-52 | A missing or falsy title, author or link gives 400, exactly then, before any record is built. A successful write returns 200 with the defaulted record. A failing write gives 500, with the error's message or "Failed to create course". |
| CoursesAdd.ExtraFieldIgnored | src/app/api/courses/add.ts:18-29 | A field outside the ten record fields changes nothing, so extra input fields are dropped. |
| CoursesAdd.ZeroPriceStoredEmpty | src/app/api/courses/add.ts:28 | A price of 0, being falsy, is stored as "". |
| CoursesAdd.ResubmitSameRecord | src/app/api/courses/add.ts:18-29 | Posting a saved record again saves the same record: the defaults are a fixed point of the defaulting. |
| CoursesRoute.CourseFields | src/app/api/courses/route.ts:29-40 | The created record keeps every client field except `createdBy`. It always has status "approved" and visibility "public". Its description is the client's when non-falsy, else "". |
| CoursesRoute.Post | src/app/api/courses/route.ts:6-71 | No session gives 401, exactly then. Otherwise a missing title, platform, image or link gives 400. Otherwise the record is created linked to the session user's id. The response's creator carries only id and name. A failing write gives 500. |
| CoursesRoute.SignedOutIgnoresBody | src/app/api/courses/route.ts:9-16 | Without a session the answer is 401 whatever the body and the database would do. |
| CoursesRoute.ForcedFieldsIgnored | src/app/api/courses/route.ts:31-39 | The record created does not depend on the status, visibility or creator the client sends. |
| CoursesRoute.ClientOverridesIgnored | src/app/api/courses/route.ts:29-40 | The whole response does not depend on the status, visibility or creator the client sends. |
| CoursesRoute.CreatorIsSessionUser | src/app/api/courses/route.ts:35-59 | When the database links the requested user, the response names the session's user as the creator, without the email. |
| Middleware.SomePrefix | src/middleware.ts:11 | `some(startsWith)` holds exactly when the path starts with one of the routes. |
| Middleware.PublicIffRooted | src/middleware.ts:8-11 | Since "/" is a public route, a path is public exactly when it begins with "/". |
| Middleware.Decide | src/middleware.ts:10-28 | Every path is passed on: public, no token, a token that verifies, or one that does not. So the outcome does not depend on the token. |

## Left out

- JWT signing and cookies (src/app/api/auth/route.ts:38-53, 67-81) are not built, and the auth `GET` handler is not modelled. A response names the claims its token would carry. Whether signing and setting the cookie complete or throw is the parameter `signs`. The middleware's `jwtVerify` is a boolean parameter.
- AuthRoute.StrictEquals: `===` on two objects or arrays is taken to be false, because a stored value and one from a later request body are never the same object. NaN is not modelled.
- The middleware's `config.matcher` expression is not modelled; it is Next.js routing configuration.
- Prisma, bcrypt, zod and nodemailer are not modelled (src/app/api/auth/register/route.ts, src/app/api/courses/delete.ts, src/lib/email.ts).
  - What a database write does is a parameter.
  - Fields the database adds, such as ids and timestamps, are not modelled.
- A request body that is not valid JSON makes both course routes answer 500. This is not modelled: their bodies are parsed maps.
- Calls to the YouTube Data API, and the page's `fetch` of the YouTube route, are not modelled. Their results are parameters. For the route this includes the throws: a rejected `fetch` and a body that fails to read or parse are the `Threw` reply.
- The exception path of `fetchYouTubeDetails` (src/app/courses/create/page.tsx:105-107) is not modelled.
- CreateCourse.VideoId: the `watch` branch uses the browser's URL parser (src/app/courses/create/page.tsx:29-30). The model takes its `v` parameter as an input, so nothing is proved about that branch beyond its place in the marker order.
- CreateCourse.ShortsLinkThumbnail: stated only when nothing after the id holds a '/'. A later "youtu.be/" or another marker in the query can otherwise take priority. The same holds for `CreateCourse.EmbedLinkThumbnail` and `CreateCourse.OldEmbedLinkThumbnail`.
- ResetPassword.ResetSubmit: the 6-character minimum counts characters, where JavaScript's `length` counts UTF-16 code units. A password with characters outside the Basic Multilingual Plane, such as three emoji, can be accepted by the page and refused by the model.
- CreateCourse.TruncateDescription: lengths and the cut at 200 count characters, not UTF-16 code units. The page can split a surrogate pair, which a Dafny string cannot represent.
- CoursesPage.Backfilled: the page assigns the number index + 1 as the id. The model's course id is a string, so it stores the decimal form of that number.
- YouTubeRoute.PathFormId: stated only when no '/' follows the id. The expression's segment alternative takes priority otherwise, and may capture a later id.
- YouTubeRoute.WatchFormId: stated only when no '/' follows the id, for the same reason.
- `localStorage` is not modelled; stored lists are parameters. Neither are `JSON.parse` failures: a corrupt entry would throw. Nor the "Something went wrong" catch paths of the two password pages.
- `Date.now` and `Math.random` are parameters (the current time and the token).
- Floating point is not modelled:
  - `parseFloat` of the submitted price: the model sends the raw price text;
  - JavaScript numbers: prices and ratings are reals, and NaN is not modelled;
  - `toLocaleString`.
- Case-insensitive matching folds ASCII letters only; Unicode `toLowerCase` is not modelled.
- `null` and `undefined` are not distinguished: both are an absent value.
- The email-verification challenge is not modelled, because the auth route does not implement it: its "verify" action falls through to "Invalid action". So neither is the page's handling of the server's answer.
- What the course-creation page does with `addCourse`'s result is not modelled (src/app/courses/create/page.tsx:191-215). That function lives in src/lib/courses.ts, which is not part of this model beyond its record shape.
- The UI, routing, theming and animation are not modelled, nor the login, register, signup, profile and add pages and `AuthContext`.
