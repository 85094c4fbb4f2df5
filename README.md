# Halldekho hall-booking backend in Dafny

This project models the core of the Halldekho backend, an Express and
Mongoose service for discovering and booking marriage halls, and proves
properties of that model.

- **Booking lifecycle.** Four operations over a bookings table and a halls table:
  - create: the availability guard over the requested calendar day, then a `shortlisted` record
  - decide: the owner rejects the booking, or confirms it and records the day on the hall calendar
  - receipt: the gate before a receipt is produced
  - owner listing: the bookings on the caller's halls
- **Password reset.** A hashed token with a fifteen-minute expiry is issued, and can be redeemed once.
- **Issue response.** The owner's response to an issue: a conditional field update with a derived `resolved` flag.
- **Hall update.** A key-filtered in-place update of a hall document.
- **Page arithmetic** of the two hall listings.
- **Promotional e-mail.** Batching, plus the one-shot completion flag.
- **Chatbot routing.** Shortcuts, intent and prompt choice, and newline unescaping.
- **Access control.** The four middleware functions.
- **Records.** The review, user, booking and visit-request records and their validators, and the review guard chain.
- **Profile.** The profile projection and the profile update.

How the model is built:

- Each handler that changes state is a pure function of the old tables and the request, returning the new tables and the answer.
- A class or a store-modifying method performs the same steps on fields. It is proved to end in the state that function describes.
- Lemmas about the functions state what the system promises.
- Hashing (SHA-256), bcrypt, JWT verification, the language-model calls, the clock, random tokens and mail delivery are parameters:
  - an uninterpreted function for each primitive
  - a boolean for "the mail went out"
  - an index for "the batch the transport rejects"

One file per component:

| file | contents |
|---|---|
| Common.dfy | Option, Result, truthiness, ObjectId syntax, first-match lookup, ceiling division |
| BookingRecord.dfy | the booking record and its validation |
| BookingLifecycle.dfy | create, decide, receipt, listing; `BookingService` |
| Users.dfy | the user record, lookups, `createUser` |
| PasswordReset.dfy | forgot-password and reset-password |
| UserProfile.dfy | profile GET projection and PUT update |
| IssueResponse.dfy | the owner's response to an issue |
| HallUpdate.dfy | the hall update |
| Pagination.dfy | the two paginated listings |
| PromoEmail.dfy | batching, the completion flag, the cron tick, the manual route |
| Chatbot.dfy | the chatbot route |
| Middleware.dfy | token extraction and the four middleware functions |
| ReviewRecord.dfy, Reviews.dfy | the review record and the add-review route |
| VisitRequest.dfy | the visit-request record |

Where the code and its comments or messages disagree, the model follows the code:

- **Create answers 200.** A successful create answers with `res.json`, so 200, not 201.
- **A missing hall in decide answers 500.** The hall is resolved through `populate`. When the hall is gone, `booking.hallId` is null and reading `_id` from it throws, so the answer is 500 (`HallUnresolved`). The 404 of routes/booking.js:91 cannot be reached.
- **No hall has a calendar under the shipped schema.** models/Hall.js declares no `bookedDates`. Under Mongoose's strict mode a loaded hall has no accessor for that path, so `hall.bookedDates` is always undefined. Every first confirmation then makes the `some` scan throw after the confirmed status was saved, and answers 500. The model keeps the calendar optional: `None` is the shipped schema, and the `Some` branch of `RecordDay` models a schema that declares the path.
- **A rejected booking can be re-confirmed.** Confirming a rejected booking checks no availability. `ReconfirmingRejectedDoubleBooks` shows two active bookings for one hall and day.
- **The cron window never closes.** The guard compares the current date with the current date moved two months on by `setMonth`, and that date is always later, overflow included (`MonthShiftMovesForward`, `CronWindowNeverCloses`).
- **An absent e-mail matches the first user.** A `findOne` filter with an absent e-mail matches the first user, in `forgot-password` and in `createUser`.
- **The reset token expires after 15 minutes.** The comment next to the expiry says one hour; the code sets 15 minutes, and the model uses 15 minutes.
- **`verifySuperAdmin` answers 400 on a bad token.** It answers 400, not 401, when the token does not verify.

## Model

| member | source | states |
|---|---|---|
| BookingRecord.StatusName | models/Booking.js:18-22 | every status has a stored name that parses back to it |
| BookingRecord.ParseStatus | models/Booking.js:18-22 | the enum accepts exactly "shortlisted", "confirmed" and "rejected" |
| BookingRecord.InvalidFields | models/Booking.js:3-22 | a path fails exactly when userId, hallId or date is absent or the status is outside the enum |
| BookingRecord.NewBooking | models/Booking.js:3-27 | creation succeeds iff the required paths are present and the status is valid; it keeps the given fields and defaults the status to shortlisted and paymentDone to false |
| BookingLifecycle.SetHours | routes/booking.js:38-39 | `setHours` keeps the calendar day and sets the time of day |
| BookingLifecycle.DayWindowIsCalendarDay | routes/booking.js:35-42 | a date lies in the day's [00:00:00.000, 23:59:59.999] window iff it is on that calendar day |
| BookingLifecycle.RejectedNeverBlocks | routes/booking.js:41 | removing a rejected booking never changes whether a hall and day are taken |
| BookingLifecycle.StoredDate | routes/booking.js:29-51 | the stored date is on the requested day, at its last millisecond |
| BookingLifecycle.Book | routes/booking.js:25-75 | the outcomes in order: 404 for an unknown hall (nothing written), 500 for an invalid date, 400 when an active booking holds the day (nothing written); otherwise one shortlisted record is added, which stays even when the owner mail fails (500); at most one active booking per hall and day is kept |
| BookingLifecycle.CountDayPositive | routes/booking.js:127-129 | the calendar has an entry on a day iff it counts one |
| BookingLifecycle.RecordDay | routes/booking.js:127-133 | with no calendar the scan fails; otherwise the day ends up listed exactly once if it was absent, and nothing else changes |
| BookingLifecycle.Decide | routes/booking.js:81-158 | the checks in order (404 for the booking, 500 for an unresolved hall, 403 for another owner, 400 for a non-boolean flag), each leaving both tables unchanged; false rejects from any status without touching the calendar; true confirms and sets paymentDone; an already confirmed booking leaves the halls unchanged and answers 200 iff the consumer mail went out; a hall with no calendar answers 500 with the confirmation saved and the halls unchanged; otherwise the day is recorded (RecordDay) and the answer is 200 iff the mail went out; no other booking or hall changes |
| BookingLifecycle.ConfirmIsIdempotent | routes/booking.js:122-134 | confirming twice leaves the tables as one confirmation left them |
| BookingLifecycle.ConfirmRecordsDayOnce | routes/booking.js:122-133 | a confirmation lists the booking's day exactly once if it was absent and never adds a second entry |
| BookingLifecycle.DecidePreservesNoDoubleBooking | routes/booking.js:101-134 | deciding keeps at most one active booking per hall and day, except when a rejected booking is confirmed |
| BookingLifecycle.ReconfirmingRejectedDoubleBooks | routes/booking.js:122-125 | a concrete case: re-confirming a rejected booking whose day was re-booked leaves two active bookings on one day |
| BookingLifecycle.ConfirmedDayRefusesNewBooking | routes/booking.js:35-46 | after a confirmation, a new request for that hall and day answers 400 |
| BookingLifecycle.RejectionReopensDay | routes/booking.js:101-103 | after a rejection, the day can be booked again |
| BookingLifecycle.ReceiptGate | routes/booking.js:161-170 | 404 iff the booking is unknown, 400 iff it is not confirmed, otherwise the confirmed booking; no caller and no write |
| BookingLifecycle.OwnerBookings | routes/booking.js:315-340 | 403 iff the role is not owner; otherwise exactly the bookings, of any status, on halls the caller owns |
| BookingLifecycle.HasDay | routes/booking.js:127-129 | the scan finds an entry iff one is on the day |
| BookingLifecycle.BookingService.FindActiveInWindow | routes/booking.js:35-42 | the query returns an active booking of the hall inside the window, or none exists |
| BookingLifecycle.BookingService.BookHall | routes/booking.js:25-75 | the new tables and the answer are those `Book` describes, and identifiers stay fresh |
| BookingLifecycle.BookingService.ConfirmBooking | routes/booking.js:81-158 | the new tables and the answer are those `Decide` describes |
| Users.FindUserByEmail | models/User.js:24-26 | the first user the filter matches (no earlier user matches), or none matches; an absent e-mail matches everyone |
| Users.AbsentEmailMatchesFirstUser | models/User.js:24-26 | a lookup with no e-mail returns the first stored user whenever the collection is not empty, and nothing only when it is empty |
| Users.FindUserById | middleware/auth.js:19 | the user with that identifier, or none has it |
| Users.FindUserByEmailFindsOwner | models/User.js:8 | with unique e-mails a stored e-mail finds its own user |
| Users.UserStore.CreateUser | models/User.js:29-43 | an invalid role is refused before the lookup, then a taken e-mail; otherwise exactly one user with the bcrypt hash as password is appended and e-mails stay unique |
| PasswordReset.IssuedTokenRedeemableUntilExpiry | routes/resetPwdRoute.js:21-30 | an issued token is redeemable at time t iff its hash matches and t is strictly before now plus 15 minutes |
| PasswordReset.IssueTokenKeepsAccount | routes/resetPwdRoute.js:24-33 | issuing stores only the digest and the expiry and changes nothing else |
| PasswordReset.RedeemedTokenIsSpent | routes/resetPwdRoute.js:96-104 | after redemption no token is redeemable and the password is the new hash |
| PasswordReset.FindByResetToken | routes/resetPwdRoute.js:86-89 | the first user whose digest matches and has not expired, or none |
| PasswordReset.Forgot | routes/resetPwdRoute.js:10-74 | 404 iff no user matches, with no change; otherwise the first matching user gets the digest and expiry and the raw token is answered, or 500 when the mail fails |
| PasswordReset.Reset | routes/resetPwdRoute.js:77-111 | 400 iff no user holds a live matching digest; only a success changes the users, replacing the password with its hash and clearing the token |
| PasswordReset.ForgotAndResetKeepUnique | routes/resetPwdRoute.js:24-104 | both handlers keep e-mails and identifiers unique |
| PasswordReset.ResetRedeemsIssuedToken | routes/resetPwdRoute.js:10-111 | a token issued by forgot-password is accepted by reset-password before it expires |
| PasswordReset.TokenRedeemedOnce | routes/resetPwdRoute.js:96-104 | after a successful reset the same token is refused |
| PasswordReset.ReissueRevokesOldToken | routes/resetPwdRoute.js:24-33 | a second request overwrites the digest, so the first token stops working |
| PasswordReset.ForgotPassword | routes/resetPwdRoute.js:10-74 | the new users and answer are those `Forgot` describes |
| PasswordReset.ResetPassword | routes/resetPwdRoute.js:77-111 | the new users and answer are those `Reset` describes |
| UserProfile.Projection | routes/userProfile.js:22-30 | each profile field is the stored value or '' when absent or empty |
| UserProfile.CompleteIffNoBlankField | routes/userProfile.js:18-19 | profileComplete iff none of the five projected fields is blank |
| UserProfile.OwnBookings | routes/userProfile.js:14 | exactly the caller's bookings, with their multiplicities |
| UserProfile.InsertKeepsNewestFirst | routes/userProfile.js:14-16 | inserting keeps newest-first order |
| UserProfile.SortNewestFirst | routes/userProfile.js:14-16 | the result is newest first and a permutation of the input |
| UserProfile.View | routes/userProfile.js:32-40 | hall name and address are 'N/A' iff the hall or the value is missing or empty, and otherwise the stored value; the date is the booking's local calendar day without the time of day, and the status is copied |
| UserProfile.Profile | routes/userProfile.js:10-46 | the answer holds the projection, the completeness flag, and exactly the caller's bookings newest first |
| UserProfile.PatchTouchesOnlyProfileFields | routes/userProfile.js:51-57 | PUT writes only the five profile fields; e-mail, role, password and token stay |
| UserProfile.PatchIsIdempotent | routes/userProfile.js:53-57 | the same PUT twice equals once |
| UserProfile.FullPatchDecidesCompleteness | routes/userProfile.js:18-19 | after a full PUT the profile is complete iff all five values are non-empty |
| UserProfile.UpdateProfile | routes/userProfile.js:49-75 | an unknown user answers 500 with no change; otherwise only that user is patched and the answer lists the new fields |
| IssueResponse.ResponseFields | routes/responseByOwner.js:125-133 | response and status always written, resolutionDate and notes only when truthy, resolved iff status is "resolved", other fields kept |
| IssueResponse.LatestStatusDecidesResolved | routes/responseByOwner.js:133 | a later response decides `resolved` alone |
| IssueResponse.ResponseIsIdempotent | routes/responseByOwner.js:125-133 | the same response twice equals once |
| IssueResponse.Respond | routes/responseByOwner.js:95-216 | the checks in order (400, 404, 500 for an unresolved hall, 404 for another owner, 400 for missing fields), each writing nothing; otherwise the update is saved before the reporter check and the mail |
| IssueResponse.MissingReporterStillSaves | routes/responseByOwner.js:136-149 | a missing reporter answers 404 after the update persisted |
| IssueResponse.OnlyHallOwnerWrites | routes/responseByOwner.js:106-115 | only the owner of the issue's hall changes anything |
| IssueResponse.IssueDesk.RespondToIssue | routes/responseByOwner.js:95-216 | the new issues and the answer are those `Respond` describes |
| HallUpdate.ApplyUpdatesMeaning | backend/routes/updateHall.js:35-40 | the hall keeps its properties; unnamed properties keep their values and named ones take their last value in the body |
| HallUpdate.KnownOnly | backend/routes/updateHall.js:36 | the filtered body holds only keys the hall has |
| HallUpdate.UnknownKeysAreIgnored | backend/routes/updateHall.js:35-40 | dropping unknown keys from the body changes nothing |
| HallUpdate.HallStore.UpdateHall | backend/routes/updateHall.js:8-53 | 400 for a malformed id and 404 unless id and owner match, with no change; otherwise, when the updated document passes the required validators, exactly that hall becomes the updated document, and when it does not, 500 with nothing written |
| HallUpdate.UpdateInvalidIffBlankRequired | models/Hall.js:5-63 | from a valid stored hall, saving fails exactly when the body's last value for name, description, cateringPolicy, decorPolicy or phone is the empty string |
| Pagination.PageNumber | routes/listAllHalls.js:10 | a missing, non-numeric or zero page is 1; any other number is kept |
| Pagination.Paginate | routes/listAllHalls.js:14-35 | 500 iff the page is negative; a found page holds 1 to limit consecutive items starting at (page-1)*limit, with the total and ceil(total/limit) pages |
| Pagination.PageFoundIffInRange | routes/listAllHalls.js:25-27 | a page is found iff 1 <= page <= ceil(total/limit), and 404 iff it lies past the end |
| Pagination.PagesCoverCollection | routes/listAllHalls.js:14-19 | pages 1 to ceil(total/limit) list every item once, in order |
| Pagination.AllHalls | routes/listAllHalls.js:7-40 | nine halls a page and ceil(total/9) pages |
| Pagination.OwnedBy | backend/routes/allHalls.js:18-23 | exactly the caller's halls, with their multiplicities |
| Pagination.MyHalls | backend/routes/allHalls.js:6-41 | equals Paginate over the caller's halls with limit 3: the slice at (page-1)*3, 404 for an empty page, 500 for a negative page; at most three halls a page, all the caller's, and the caller's count and pages |
| PromoEmail.BatchesPartitionUsers | routes/promotionalEmail.js:13-23 | the batches laid end to end are the users, in order |
| PromoEmail.BatchShapes | routes/promotionalEmail.js:13-14 | there are ceil(n/size) batches, none empty or larger than size, all but the last full |
| PromoEmail.FailurePoint | routes/promotionalEmail.js:26 | the run stops at the rejected batch, if it exists |
| PromoEmail.CompletedRunMailsEveryoneOnce | routes/promotionalEmail.js:13-37 | a completed run mails every user once, in order, with ceil(n/size)-1 waits |
| PromoEmail.FailedRunMailsPrefix | routes/promotionalEmail.js:13-34 | a failed run mails a prefix of the users and waits once per batch before the failing one |
| PromoEmail.AddMonths | routes/promotionalEmail.js:45-47 | `setMonth(getMonth() + k)` yields a valid date with the same time of day |
| PromoEmail.MonthShiftMovesForward | routes/promotionalEmail.js:45-47 | moving a date one or more months on, with year carry and day overflow, gives a strictly later date |
| PromoEmail.DecemberThirtyFirstPlusTwoMonths | routes/promotionalEmail.js:47 | two months after 31 December 2025 is 3 March 2026 |
| PromoEmail.CronWindowNeverCloses | routes/promotionalEmail.js:45-49 | `currentDate <= endDate` holds for every valid current date |
| PromoEmail.PromoMailer.SendEmailsInBatches | routes/promotionalEmail.js:12-39 | the loop hands over exactly the attempted batches, waits as counted, and raises the flag iff every batch went out |
| PromoEmail.PromoMailer.CronTick | routes/promotionalEmail.js:42-84 | the closed-window branch is never taken; with the flag raised nothing is sent; with no users nothing is sent; otherwise a batched run of ten that raises the flag only on success |
| PromoEmail.PromoMailer.SendPromotionalEmail | routes/promotionalEmail.js:87-115 | 404 without users; otherwise batches of ten whatever the flag, 200 iff the run completes, else 500 |
| Chatbot.ToLower | routes/chatbot.js:11 | each ASCII capital becomes its small letter and nothing else changes |
| Chatbot.ToLowerIdempotent | routes/chatbot.js:11 | lower-casing twice equals once |
| Chatbot.HalldekhoReply | routes/chatbot.js:10-27 | no reply iff no shortcut's phrase occurs in the lower-cased message; otherwise the reply of the first matching shortcut |
| Chatbot.ShortcutIgnoresCase | routes/chatbot.js:11-24 | a message and its lower-cased form get the same reply |
| Chatbot.Intent | routes/chatbot.js:44-47 | a classifier error becomes "irrelevant"; a label passes through |
| Chatbot.PromptKindFor | routes/chatbot.js:75-78 | the casual prompt iff the intent is small_talk |
| Chatbot.NoEscapedNewlineRemains | routes/chatbot.js:94 | no backslash-n pair survives the replacement |
| Chatbot.UnescapeKeepsPlainText | routes/chatbot.js:94 | a text without backslash-n pairs is unchanged |
| Chatbot.Chat | routes/chatbot.js:51-102 | 400 iff the message is missing, not a string or empty; then the shortcut, then the refusal for "irrelevant", then the model's reply |
| Chatbot.ShortcutNeedsNoModel | routes/chatbot.js:59-62 | a shortcut answer does not depend on the classifier or the generator |
| Chatbot.ClassifierErrorRefuses | routes/chatbot.js:68-72 | a classifier failure ends in the refusal without a generation |
| Chatbot.GeneratedReplyHasNoEscapes | routes/chatbot.js:81-101 | 500 iff generation fails; a reply has no backslash-n pair; an empty reply becomes the fallback sentence |
| Middleware.Split | middleware/auth.js:7 | `split(' ')` gives at least one piece and no piece holds a space |
| Middleware.JoinSplit | middleware/auth.js:7 | joining the pieces again gives back the header |
| Middleware.SplitJoin | middleware/auth.js:7 | splitting joined space-free pieces gives them back |
| Middleware.BearerToken | middleware/auth.js:7-12 | the token is the non-empty second piece of the header, or there is none |
| Middleware.BearerTokenOfHeader | middleware/auth.js:7 | "scheme token" yields the token |
| Middleware.AuthDecision | middleware/auth.js:6-30 | passes iff a token verifies to an id naming a stored user, which is attached; 404 iff the user is missing or the id absent; every other failure 401 |
| Middleware.TokenDecision | backend/middleware/auth.js:5-22 | passes iff a token verifies, attaching the payload itself; otherwise 401 |
| Middleware.RoleDecision | middleware/auth.js:33-45 | continues iff there is a user whose role equals the required role, else 403 |
| Middleware.StoredRoleDecides | backend/middleware/auth.js:25-35 | behind authentication, the role gate passes iff the attached user has that role |
| Middleware.SuperAdminDecision | middleware/isSuperAdmin.js:45-65 | another e-mail passes untouched; a matching e-mail with the password attaches the super-admin, and without it answers 401 |
| Middleware.SuperAdminNeedsPassword | middleware/isSuperAdmin.js:50-59 | a super-admin is attached iff e-mail and password both match (two absent values match) |
| Middleware.VerifySuperAdminDecision | middleware/verifySuperAdmin.js:60-86 | 401 without a token, 400 when it does not verify, 403 unless the role is superadmin, else the payload is attached |
| Middleware.SuperAdminPassesRoleGate | middleware/verifySuperAdmin.js:71-79 | what `verifySuperAdmin` lets through passes the superadmin role gate |
| Middleware.Authenticate | middleware/auth.js:6-30 | the outcome and `req.user` follow `AuthDecision`; a refusal leaves `req.user` as it was |
| Middleware.AuthenticateToken | backend/middleware/auth.js:5-22 | the outcome and `req.user` follow `TokenDecision` |
| Middleware.CheckSuperAdmin | middleware/isSuperAdmin.js:45-65 | the outcome and `req.user` follow `SuperAdminDecision` |
| Middleware.VerifySuperAdmin | middleware/verifySuperAdmin.js:60-86 | the outcome and `req.user` follow `VerifySuperAdminDecision` |
| ReviewRecord.InvalidFields | models/Reviews.js:3-27 | a path fails iff hallId or userId is absent, the rating is absent or outside [1,5], or the comment is absent or its length in UTF-16 code units is outside 10 to 500 |
| ReviewRecord.Utf16Length | models/Reviews.js:24-25 | JavaScript's `length`: between one and two code units per character |
| ReviewRecord.Utf16LengthAppend | models/Reviews.js:24-25 | the length of a concatenation is the sum of the lengths |
| ReviewRecord.Utf16LengthCountsAstral | models/Reviews.js:24-25 | the length equals the number of characters iff no character lies outside the Basic Multilingual Plane |
| ReviewRecord.FiveEmojiMeetMinimum | models/Reviews.js:24 | a five-emoji comment is ten code units long and meets the bounds |
| ReviewRecord.NewReview | models/Reviews.js:3-30 | saving succeeds iff no path fails, keeps the fields and stamps both timestamps |
| ReviewRecord.SavedReviewsAreWellFormed | models/Reviews.js:15-26 | every saved review is well formed, and every well-formed review validates |
| Reviews.AddReview | routes/reviews.js:9-47 | the checks in order (403 for a non-consumer, 400 for a malformed id, 404 for an unknown hall, 400 for a rating outside [1,5]), each storing nothing; otherwise exactly one review is appended, or 500 when validation fails |
| Reviews.AddReviewKeepsReviewsWellFormed | routes/reviews.js:33-42 | the stored reviews stay well formed |
| Reviews.ServerErrorOnlyForMissingRatingOrBadComment | routes/reviews.js:29-45 | a 500 comes exactly from an absent rating or a bad comment |
| Reviews.OnlyConsumersAddReviews | routes/reviews.js:11-42 | only a consumer adds a review, for a stored hall, and exactly one |
| VisitRequest.ParseVisitStatus | models/VisitRequest.js:46-50 | the enum accepts exactly pending, approved and rejected |
| VisitRequest.InvalidFields | models/VisitRequest.js:5-45 | a path fails iff a required path is absent, the month is outside [1,12], the year is before the load year, or the status is outside the enum |
| VisitRequest.NewVisit | models/VisitRequest.js:3-53 | creation succeeds iff no path fails, keeps the fields and defaults the status to pending |
| VisitRequest.ValidationRoundTrip | models/VisitRequest.js:31-50 | a created request is well formed, and a well-formed one validates back to itself |

## Left out

- E-mail delivery (nodemailer): a boolean or a failing-batch index says whether the mail went out; content and addresses are not modelled.
- The receipt document (pdfkit layout, logo, watermark): only the gate in front of it is modelled.
- Concurrency: the check-then-create race between two bookings, `Promise.all` inside a batch, `setTimeout` and the cron schedule.
- Time zones and daylight saving: a local day is modelled as a uniform 86 400 000 milliseconds.
- BookingLifecycle.Book, BookingLifecycle.Decide, BookingLifecycle.ReceiptGate: a hallId or bookingId that is not an ObjectId makes `findById` throw a CastError, which the source answers with 500; the model treats every identifier as a table key and answers 404 (HallNotFound, BookingNotFound, ReceiptNotFound).
- ObjectId: only the 24-hex-digit string form of `isValid` is modelled, not the 12-byte form.
- Chatbot.ToLower: only ASCII letters are lower-cased, not the rest of Unicode.
- The language-model calls (`classifyIntent`, the answer request) are function parameters; their prompts' text is not reasoned about.
- IssueResponse.Respond: models/IssueReq.js declares no `status`, `resolutionDate` or `notes`. Mongoose's strict mode would not persist them. The model follows the handler's in-memory document.
- UserProfile.View: models/Hall.js has no `location` path, so in the source the address always reads 'N/A'. The model keeps the address as an optional value.
- UserProfile.View: the source renders the day as a string with `toLocaleDateString('en-IN')`; the model answers the day number, not its text.
- HallUpdate.HallStore.UpdateHall: `key in hall` also accepts inherited document members (such as `save`), and the store casts values on save; a value that does not cast (a non-numeric string for `accommodation`) also ends in 500. The model accepts only stored properties, keeps values as given and checks only the `required` validators of the string paths.
- BookingLifecycle.RecordDay, BookingLifecycle.ConfirmRecordsDayOnce: models/Hall.js declares no `bookedDates`, so under strict mode no loaded hall exposes a calendar and the `Some` branch is unreachable in the source as shipped. The model covers a schema that declares the path.
- JSON `null`, fractional numbers and strings where numbers are expected in request bodies are not modelled. Body fields are absent or of the expected type.
- UserProfile.SortNewestFirst: the order among bookings with equal `createdAt` is not specified by the store, and the model picks one.
- PromoEmail.PromoMailer.SendEmailsInBatches requires a positive batch size; both callers pass 10.
- The GET `/reviews/:hallId` route is not modelled: it names an undefined `Review`, so it always answers 500.
- Signup, login, the other listing and lookup routes, blog and upload routes, and rating averages are not part of this model.
