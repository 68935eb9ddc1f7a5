# Authentication and email-verification core, in Dafny

This project models the account and verification core of a healthcare
clinic backend built on Django. It covers:

- **Users**: the user manager's `create_user` and `create_superuser`, the
  role filters, `full_name`, `mark_email_verified` and
  `update_online_status`.
- **The verification-token table**: issuing a token (invalidate, then
  create), expiry, validity, redemption and the resend throttle.
- **The services**: `AuthenticationService` (register, authenticate,
  presence update) and `EmailVerificationService` (send, verify, resend).
  Register, authenticate and verify return a `(result, error)` pair, resend
  a `(success, message)` pair, send a boolean, and the presence update
  nothing.
- **Profile provisioning**: the `post_save` receiver that gives a new
  patient or consultant their profile.
- **Profile rules**: the consultant and patient profiles, the review table
  with its recomputed rating, the availability table, the phone-number
  pattern and the patient's age.

The database is one object, `Store.Repository`, whose fields are the tables.
Its methods are the model-level writes. Each one states the complete new
state and keeps `Valid()`, which holds the schema's constraints:

- unique emails;
- unique token values, and at most one unused token per user;
- one profile of each kind per user;
- unique licence numbers;
- one review per (consultant, patient);
- one slot per (consultant, day, start);
- every foreign key resolving.

The pure rules are functions and lemmas in their own modules:

| module | file | contents |
|---|---|---|
| `Common` | common.dfy | options, results, ids, the clock, exceptions |
| `Phone` | phone.dfy | the `^\+?91?\d{9,15}$` validator |
| `Users` | users.dfy | the pure part of the authentication models |
| `Ledger` | ledger.dfy | the token table as a sequence |
| `Consultants` | consultants.dfy | consultant profiles, reviews, availability |
| `Patients` | patients.dfy | patient profiles and age |
| `Store` | store.dfy | the repository class |
| `Services` | services.dfy | the two services |

These are inputs to the model rather than parts of it:

- **The clock** (`timezone.now()`) is an integer `now`, in seconds; dates are `Date` values.
- **Password hashing** is a function parameter `hasher`.
- **Django's `authenticate`** is represented by what it found (`found`). `Services.ModelBackend` describes the default backend's answer.
- **Everything send_verification_email does after creating the token** is a boolean `mailOk`: the settings lookups, rendering the template and `send_mail`. If any of them raises, for example a missing template, the answer is False.
- **Token values** (UUIDs) and primary keys are fresh naturals handed out by the repository.

Two behaviours of the code are worth stating up front:

- **A deactivated account never sees the "deactivated" answer.** With the default backend, `authenticate` never returns an inactive user, so the deactivation branch of `authenticate_user` is unreachable and a deactivated user gets "Invalid Credentials" (`Services.DeactivatedBranchUnreachable`).
- **`age` raises `TypeError`.** `today.year - dob.year - (today.month, today.day)` subtracts a tuple from an int, which raises before any comparison is made (`Patients.AgeAsWrittenRaises`).

## Model

| member | source | states |
|---|---|---|
| Phone.BodyShape | consultants/models.py:59-62 | the pattern accepts exactly: an optional '+', a '9', then only digits, 10 to 16 characters after the '+' (17 when the second is the optional '1') |
| Phone.AdvertisedFormRefused | consultants/models.py:59-62 | the "+91-" form the validator's own message advertises does not match the pattern |
| Phone.FirstDigitNotNineRefused | patients/models.py:43-46 | every text whose first character after the optional '+' is not a 9 is refused, with or without a trailing newline |
| Phone.InternationalFormAccepted | patients/models.py:43-46 | "+919876543210" matches, and so does that text with one trailing newline (Python's `$`) |
| Phone.MatchLength | consultants/models.py:59-62 | accepted texts have 10 to 18 characters, and 19 when the last is the newline Python's `$` lets through |
| Phone.LongestMatchTooLong | consultants/models.py:59-66 | the 18-character texts '+91' and fifteen digits match the pattern, but max_length 17 refuses them |
| Users.SuperuserFields | authentication/models.py:23-27 | is_staff, is_superuser and role default to True, True and admin; values given by the caller are kept |
| Users.CredentialFor | authentication/models.py:19 | no password gives an unusable credential, and exactly then; a password is stored as the hasher's digest of that password |
| Users.NewUser | authentication/models.py:18-20 | the saved row has the given email and credential, the given first and last names ("" when absent), the given role and staff flags over the model defaults (patient, active, not staff, offline, unverified), and created/updated/last_seen stamped with now |
| Users.Strip | authentication/models.py:67 | `str.strip()`: the result is a slice of the input that neither starts nor ends with whitespace, and everything cut off is whitespace |
| Users.FullNameCases | authentication/models.py:65-67 | for names without surrounding whitespace: full_name joins two names with one space; with one name empty it is the other name; with both empty it is "" |
| Users.NormalizeEmail | authentication/models.py:17 | without '@' the address is kept as given; with '@' the stripped address is split at its last '@', the name kept and the domain lowered |
| Users.NormalizeIdempotent | authentication/models.py:17 | normalizing a normalized address changes nothing |
| Users.RawAndNormalizedDiffer | authentication/services.py:22-25 | an address with an upper-case letter in its domain is stored lowered, so register_user's raw-address check does not find it |
| Users.NewTokenLifetime | authentication/models.py:106-115 | a new token is valid up to and including 24 hours after creation and expired after; saving it again keeps its expiry |
| Users.ActiveWithRole | authentication/models.py:29-33 | the filter returns exactly the active users with the role |
| Users.FiltersDisjoint | authentication/models.py:29-33 | get_patient and get_consultants never share a user and never return a deactivated one |
| Ledger.Invalidate | authentication/services.py:83-85 | every token of the user is used afterwards; all other rows are unchanged |
| Ledger.AtMostOneValid | authentication/models.py:111-115 | with at most one unused token per user, no user holds two valid tokens at any moment |
| Ledger.IssueKeepsInvariant | authentication/services.py:83-87 | issuing keeps at most one unused token per user, appends the user's token expiring 24 hours later, marks the user's older tokens used, and leaves other users' rows unchanged |
| Ledger.IssueKeepsIdsFresh | authentication/models.py:94 | token values stay unique when the new one is fresh |
| Ledger.Find | authentication/services.py:125 | the lookup returns the first row holding the value, or nothing when no row holds it |
| Ledger.Classify | authentication/services.py:125-131 | a found token is redeemable iff valid; otherwise it is expired if past expiry, whether used or not; otherwise it is already used |
| Ledger.Redeem | authentication/services.py:133-134 | the token's row becomes the same row marked used (its expiry kept by save), and every other row is unchanged |
| Ledger.RedeemKeepsInvariant | authentication/services.py:133-134 | redemption keeps the table invariants and touches no other row |
| Ledger.SecondRedemptionFails | authentication/services.py:126-131 | after one redemption, the same value is refused: as already used, or as expired once 24 hours have passed |
| Ledger.RecentCountIsCardinality | authentication/services.py:153-155 | the throttle count is the number of the user's tokens created at or after the window start |
| Ledger.RecentCountInvalidate | authentication/services.py:153-155 | the count includes used tokens: invalidation does not change it |
| Ledger.IssueCount | authentication/services.py:83-87 | issuing adds one to the user's count for any window containing now, and changes no other user's count |
| Ledger.RecentCountAntitone | authentication/services.py:153-155 | a later window start counts no more tokens |
| Ledger.RecentCountZero | authentication/services.py:153-155 | when all the user's tokens predate the window, the count is zero |
| Consultants.SavesKeepFieldsValid | consultants/models.py:84-122 | a profile that passes its field validators still passes them after update_rating (reviews rated 1 to 5) and after verify_consultant |
| Consultants.Clean | consultants/models.py:124-128 | clean refuses exactly the non-consultant roles, with "User must have a consultant role" |
| Consultants.RatingLabelsNeverPlural | consultants/models.py:146 | as written no rating label is plural: 5 reads "5 Star" |
| Consultants.RatingLabelsPlural | consultants/models.py:146 | corrected labels: "1 Star", then "k Stars"; the choice values are exactly 1 to 5 |
| Consultants.PatientChoiceSpelling | consultants/models.py:152-154 | as written the patient choice matches no user; spelled "patient" it matches exactly the patients |
| Consultants.RatingsFor | consultants/models.py:120 | `consultant.reviews` ratings: no longer than the table, empty iff the consultant has no review, each in 1..5 when the reviews are |
| Consultants.RatingsForAppend | consultants/models.py:120 | appending a review adds its rating at the end of the consultant's list when it is theirs, nothing otherwise, so the list is exactly their ratings in table order |
| Consultants.Average | consultants/models.py:120 | Avg gives nothing over no rows, otherwise the value whose product with the count is the sum |
| Consultants.AverageInRange | consultants/models.py:146-155 | the average of ratings chosen from 1..5 lies in [1, 5] |
| Consultants.AverageLookup | consultants/models.py:120 | as written the lookup under "rating_avg" raises KeyError; under "rating__avg" it yields the average |
| Consultants.RatingStaysInBounds | consultants/models.py:87-92 | update_rating keeps the rating in its validator bounds [0, 5]: unchanged with no reviews, the average otherwise |
| Consultants.ReviewIndex | consultants/models.py:166-167 | the row with the review's id, if any |
| Consultants.SavedReviews | consultants/models.py:166-167 | an existing id is overwritten in place and a new id is appended: the table grows by one exactly when no row has the id, every row with another id stays at its position, and the review is in the table |
| Consultants.SaveKeepsReviewsUnique | consultants/models.py:172 | a save whose (consultant, patient) pair is free keeps one review per pair |
| Consultants.DayChoice | consultants/models.py:199-201 | `DAY_CHOICES[d]`: days 0..6 give their pair, -7..-1 wrap from the end, anything else raises IndexError |
| Consultants.DayOkRange | consultants/models.py:183-189 | the day choices are exactly 0 to 6 |
| Consultants.DayDisplayNames | consultants/models.py:199-201 | as written the display is the (day, name) pair; corrected it is the name |
| Patients.BlankFailsOnBloodType | patients/models.py:58 | the profile the receiver creates fails full_clean only on its blank blood type |
| Patients.Clean | patients/models.py:98-102 | clean refuses exactly the non-patient roles, with "User must have a patient role" |
| Patients.Age | patients/models.py:87-96 | no birth date gives None; otherwise the number of birthdays reached by today (the r-th on or before today, the next after it) |
| Patients.AgeUnique | patients/models.py:90-94 | only one count of birthdays has that property |
| Patients.AgeAsWrittenRaises | patients/models.py:89-94 | as written every profile with a birth date raises TypeError; without one both give None |
| Store.ConsultantInsertFailure | consultants/models.py:40-54 | the insert is refused without a speciality (NOT NULL first), for a user with a profile, or for a held licence number, and only then |
| Store.Repository.CreateUser | authentication/models.py:13-21 | an empty email raises ValueError; a duplicate normalized email raises IntegrityError; either way nothing changes; otherwise the row is stored with the normalized email and post_save provisions the profile by role |
| Store.Repository.InsertUser | authentication/models.py:20 | the new row takes the next key and keeps the emails unique |
| Store.Repository.CreateSuperuser | authentication/models.py:23-27 | create_user with the superuser defaults, the caller's values winning: the same refusals and success condition, the row with those flags, and a profile by the resulting role |
| Store.Repository.CreateUserProfile | authentication/signals.py:11-25 | on creation only: a patient gets one blank profile, a consultant one attempt that fails on the missing speciality and is swallowed, any other role nothing |
| Store.Repository.MarkEmailVerified | authentication/models.py:69-73 | only is_verified (true) and email_verified_at (now) change |
| Store.Repository.UpdateOnlineStatus | authentication/models.py:75-79 | only is_online and last_seen change |
| Store.Repository.IssueToken | authentication/services.py:83-87 | the table becomes the invalidate-then-create result, and the user's only unused token is the new one |
| Store.Repository.MarkTokenUsed | authentication/services.py:133-134 | the row is marked used, with its expiry kept |
| Store.Repository.CreatePatientProfile | patients/models.py:32-37 | a second profile for a user is refused by the one-to-one link; otherwise a blank profile is stored |
| Store.Repository.CreateConsultantProfile | consultants/models.py:40-54 | the row is stored exactly when ConsultantInsertFailure finds nothing |
| Store.Repository.VerifyConsultant | consultants/models.py:110-114 | only is_verified (true) and verification_date (today) change |
| Store.Repository.UpdateRating | consultants/models.py:116-122 | with the lookup corrected to "rating__avg": only the rating changes, to the truthy average, and it stays in [0, 5] |
| Store.Repository.SaveRating | consultants/models.py:122 | only the rating column is written |
| Store.Repository.SaveReview | consultants/models.py:166-172 | refused iff another row holds the pair; otherwise the row is written and then the rating recomputed with the corrected lookup |
| Store.Repository.AddSlot | consultants/models.py:205 | refused iff the (consultant, day, start) key is held; otherwise appended |
| Services.RegistrationFields | authentication/services.py:25-29 | register_user passes names and role, and leaves staff flags at their defaults |
| Services.RegisterUser | authentication/services.py:20-39 | corrected (without the second consultant create at lines 31-32): succeeds exactly for a non-empty address whose raw and normalized forms are both free; otherwise the raw duplicate message or create_user's error as text, changing nothing; on success the next user id, the row with a hashed password, and a patient profile for patients |
| Services.RegisterUserAsWritten | authentication/services.py:31-32 | as written a fresh consultant registration answers (None, the NOT NULL error) while the user row stays stored |
| Services.ModelBackend | authentication/services.py:43 | the default backend returns only an active user whose address and password match |
| Services.Authenticate | authentication/services.py:42-57 | nobody found gives "Invalid Credentials", an inactive user the deactivation message, an active one a session with its tokens and last_seen stamped in memory |
| Services.DeactivatedBranchUnreachable | authentication/services.py:43-45 | with the default backend the deactivation message is never returned |
| Services.UpdateUserStatus | authentication/services.py:60-64 | only is_online and last_seen change |
| Services.SendVerificationEmail | authentication/services.py:81-120 | the token table is issued whatever the mail does; the answer is the mail's fate |
| Services.VerifyReplyFor | authentication/services.py:123-146 | corrected (the not-found handler returns its message): a user only for a redeemable token; expired takes precedence over used; unknown gives "Invalid verification token" |
| Services.UnknownTokenRaises | authentication/services.py:141-143 | as written an unknown token raises UnboundLocalError; on every other path the two answers agree |
| Services.VerifyEmailToken | authentication/services.py:123-140 | a valid token is marked used and its user verified; any refusal changes nothing |
| Services.Resend | authentication/services.py:149-166 | verified users and users with three or more recent tokens are refused with no token; otherwise a token is issued and the answer follows the mail |
| Services.ResendVerificationEmail | authentication/services.py:149-166 | the method's answer and table are those of Resend |
| Services.ThreeIssuesCount | authentication/services.py:153-157 | three issues within five minutes give the throttle counts 1, 2 and 3 |
| Services.FourthResendThrottled | authentication/services.py:153-161 | three resends within five minutes succeed as their mail does; the fourth is refused and the table holds three new tokens, not four |
| Services.WindowElapsedAllowsResend | authentication/services.py:153-166 | once all the user's tokens are older than five minutes, a resend issues a token |

## Left out

- The cache entry of update_user_status and logging: they have no effect on the tables or the answers. The mail's contents (subject, link, template) are not modelled; whether the steps after the token create succeed is the input `mailOk`.
- JWT issuance is an opaque pair naming the user; signing, expiry and blacklisting are not modelled.
- Password hashing is a parameter. That the stored digest differs from the raw password is a property of the hasher, not of this code.
- `authenticate` is an input (`found`). Only the default backend's behaviour is described (`Services.ModelBackend`).
- Store.Repository.UpdateRating: uses the corrected "rating__avg" lookup. As written (consultants/models.py:120) the lookup raises KeyError, so the rating never changes (see Findings).
- Store.Repository.SaveReview: recomputes the rating with the corrected lookup. As written the review row is written and then update_rating raises KeyError, so the save fails after the insert (see Findings).
- Store.Repository.UpdateRating: stores the exact average, not `round(avg, 2)`, and does not model the Decimal column's max_digits.
- Services.VerifyEmailToken: token values are opaque naturals, so a malformed UUID and the generic `except Exception` handler (authentication/services.py:144-146) are not modelled.
- Services.UpdateUserStatus: the model requires the user to exist, so no exception can arise for the handler to swallow.
- Services.RegisterUser: is the corrected half of the Findings row for authentication/services.py:31-32. As written a fresh consultant registration answers (None, the NOT NULL error) with the user row stored; that is Services.RegisterUserAsWritten.
- Services.VerifyReplyFor: is the corrected half of the Findings row for authentication/services.py:141-143, and Services.VerifyEmailToken answers with it. As written an unknown token raises UnboundLocalError; that is Services.VerifyReplyAsWritten.
- IntegrityError texts are SQLite's wording (`Store.DUPLICATE_EMAIL` and the other constants in store.dfy). Where RegisterUser and CreateUser return `str(ex)`, another database backend words the message differently, for example PostgreSQL's "duplicate key value violates unique constraint …".
- The model assumes authentication/services.py compiles. Line 90 nests `"FRONTEND_URL"` in double quotes inside a double-quoted f-string, which Python accepts only from version 3.12; on earlier versions the module fails to compile and no service exists (not executed).
- The model assumes consultants/models.py loads. As written, line 25 puts `verbose_plural_name` in Speciality's Meta; Django accepts only `verbose_name_plural` and raises TypeError when the class is created, so importing the module fails (not executed).
- Services.RegisterUser: the serializer's password checks (confirmation, minimum length) belong to the view layer and are not required here.
- Concurrency and transactions: the invalidate and create of send_verification_email are two separate writes. The model runs them in sequence.
- The Speciality table: the speciality is an optional id, and its foreign-key existence check is not modelled.
- Profile columns no rule reads (avatar, bio, clinic fields, JSON lists, timestamps other than the user's) are not modelled. Neither are deletions or cascades.
- The role is a closed enumeration (patient, consultant, admin). create_user stores any role text, since nothing calls full_clean, and the post_save receiver gives an unknown role nothing; the model covers that "any other role" case by admin only.
- `\d`, `str.strip()` and `str.lower()` are modelled on ASCII only.
- `full_clean` is never called on these paths. The field rules are stated as predicates (`Consultants.FieldsValid`, `Patients.FieldsValid`) and are not enforced on insert.
- Views, URLs, serializers, admin, and PatientMedicalHistory are not part of this model.

## Findings

| source | as written | input that shows it | evidently intended | confidence | as-written member | corrected member |
|---|---|---|---|---|---|---|
| authentication/services.py:31-32 | a consultant's profile is created a second time, without the required speciality; the insert fails and register_user answers (None, error) although the user row is stored | register_user with a fresh email and role "consultant" | return the user and leave provisioning to the post_save receiver | not executed | Services.RegisterUserAsWritten | Services.RegisterUser |
| authentication/services.py:141-143 | the DoesNotExist handler logs `user.email`, but `user` is unbound there, so UnboundLocalError escapes | verify_email_token with a value no token holds | return (None, "Invalid verification token") | not executed | Services.VerifyReplyAsWritten | Services.VerifyReplyFor |
| consultants/models.py:120 | the aggregate is read under "rating_avg"; Django names it "rating__avg", so the lookup raises KeyError after every review save | saving any review | read "rating__avg" | not executed | Consultants.ReadAverageAsWritten | Consultants.ReadAverage |
| patients/models.py:91-94 | `today.year - dob.year - (today.month, today.day)` subtracts a tuple from an int and raises TypeError | any profile with a date of birth | year difference, less one before this year's birthday | not executed | Patients.AgeAsWritten | Patients.Age |
| consultants/models.py:146 | the plural 's' is added when `i < 1`, which no rating is | rating 5, labelled "5 Star" | plural for ratings above 1 ("5 Stars") | not executed | Consultants.RatingChoicesAsWritten | Consultants.RatingChoices |
| consultants/models.py:199-201 | the display returns the whole (index, name) pair | day_of_week 0 gives (0, "Monday") | the name, "Monday" | not executed | Consultants.DayDisplayAsWritten | Consultants.DayDisplay |
| consultants/models.py:153 | `limit_choices_to={"role": "patients"}` names a role no user has | any patient user is rejected as a review's patient | "patient" | not executed | Consultants.PatientSelectableAsWritten | Consultants.PatientSelectable |
