# Dialoom booking and settlement engine, in Dafny

Dialoom is a marketplace where customers book paid video sessions with
hosts. This project models the services behind it and proves properties of
the model:

- **Hosts' availability and bookings.**
  - A host's availability windows are one-off, or daily/weekly templates
    repeated on chosen weekdays. They are expanded over a date range.
  - A slot is free when one expanded window covers it and no CONFIRMED
    reservation of the host touches it.
  - Reservations move through PENDING, CONFIRMED, CANCELLED and COMPLETED
    by `create`, `cancel`, `reschedule`, `complete` and the unguarded
    `updateStatus`.
- **The escrow ledger.**
  - A payment is split into platform commission, VAT on that commission
    and the host's net share.
  - The payment gateway's webhook marks it COMPLETED.
  - A release batch flags completed payments older than the retention
    period as released to the host.
  - A refund turns a completed payment into REFUNDED.
- **Users and host profiles.**
  - Emails are unique, compared as the database compares them (ignoring
    letter case), and points accumulate.
  - A password is stored as its hash; two-factor sign-in is switched on
    and off through the secret and flag columns.
  - Creating a host profile makes its user a HOST; deleting it makes the
    user a USER again.
  - A host's rating is a running average.
- **Video-call admission.** Who may join a session, and when. The call is
  bound to a channel name and a numeric uid derived from the id.
- **Translations.**
  - Locale tables are looked up by dotted keys, falling back to the
    default locale `es`.
  - `{name}` placeholders are filled from parameters.
  - The line-based YAML reader of locale files is modelled.
- **Achievements.** Awarding is idempotent. A first award pays points and
  posts an in-app notification. The session and rating checks award every
  matching achievement; the model lists what they newly award, and states
  the points paid and the notices posted for it.
- **Site administration.**
  - The current theme is the newest row; it is created with defaults when
    there is none. A theme update writes only the supplied columns.
  - Editorial content is shown within its publication window, pinned items
    first.
- **Notifications.** A per-user store with read flags, plus the records
  written when e-mails are sent.

## How the model is built

- One Dafny module per source file:
  - `availability_entity.dfy`, `reservation_entity.dfy` and
    `transaction_entity.dfy` hold the records;
  - `reservations.dfy`, `payments.dfy`, `users.dfy`, `hosts.dfy`,
    `calls.dfy`, `i18n.dfy`, `gamification.dfy`, `admin.dfy` and
    `notifications.dfy` hold the services.
- `common.dfy` holds the shared parts: `Option`, `Result`, the exceptions,
  JavaScript truthiness of optional strings, and fresh ids.
- `sorting.dfy` is the database's `order:` clause: it turns a set of rows
  into a sorted sequence with no duplicates.
- **Tables and services.**
  - Each database table is a `map` from id to record.
  - The table is a field of a class, one class per service.
  - A service that calls another holds a reference to it.
  - Operations that change a table are methods with `modifies` clauses.
    Their `ensures` give the whole new table, and state the error cases.
  - The decision each operation makes is a function about one row, such as
    `CancelOutcome`, `RefundOutcome`, `Release` or `MarkAll`. The lemmas
    are stated about those functions.
- **Times** are whole minutes since the epoch.
  - A day is 1440 minutes. Local time is UTC.
  - The weekday is `(t / 1440 + 4) % 7`, with 0 for Sunday, because the
    epoch fell on a Thursday.
- **Money** is an exact `real`.
- **Inputs from outside** are parameters:
  - the current time `now`;
  - a new uuid, as any id not yet in the table;
  - the gateway's customer id, intent id and charge list;
  - the bcrypt hash of a password (bcrypt salts at random);
  - the configuration values;
  - the locale files, given as name, content and parsed JSON.

## Model

| member | source | states |
|---|---|---|
| Common.Fold | dialoom_Claude_v0.3/src/modules/users/users.service.ts:26-27 | the collation key of a text: the same length, each ASCII capital read as its small letter and every other character kept |
| Common.FoldCharAlike | dialoom_Claude_v0.3/src/modules/users/entities/user.entity.ts:29-30 | two characters compare alike exactly when they are equal or one is the capital of the other |
| Common.SameTextPointwise | dialoom_Claude_v0.3/src/modules/users/entities/user.entity.ts:29-30 | two texts compare alike exactly when they have the same length and compare alike character by character |
| Common.SameTextEquivalence | dialoom_Claude_v0.3/src/modules/users/entities/user.entity.ts:29-30 | comparing alike is reflexive, symmetric and transitive, and a folded text compares alike with the original |
| Common.CaseVariantsAlike | dialoom_Claude_v0.3/src/modules/users/users.service.ts:26-33 | "Ana@x.com" and "ana@x.com" are different texts that the database compares as equal |
| AvailabilityEntity.ParseRecurrence | dialoom_Claude_v0.3/src/modules/reservations/entities/availability.entity.ts:12-16 | the recurrence kinds are exactly ONCE, DAILY and WEEKLY: each stored name reads back as its kind, and no other text names a kind |
| AvailabilityEntity.NewAvailability | dialoom_Claude_v0.3/src/modules/reservations/entities/availability.entity.ts:36-44 | a new window defaults to ONCE, active, with no weekday list |
| ReservationEntity.ParseStatus | dialoom_Claude_v0.3/src/modules/reservations/entities/reservation.entity.ts:12-18 | the statuses are exactly PENDING, CONFIRMED, CANCELLED, COMPLETED and NO_SHOW, and each name reads back as its status |
| ReservationEntity.NewReservation | dialoom_Claude_v0.3/src/modules/reservations/entities/reservation.entity.ts:45-64 | a new reservation is PENDING and not rescheduled; its payment, reason, notes and original id are absent |
| TransactionEntity.ParseStatus | dialoom_Claude_v0.3/src/modules/payments/entities/transaction.entity.ts:12-17 | the transaction statuses are exactly PENDING, COMPLETED, FAILED and REFUNDED |
| TransactionEntity.ParseType | dialoom_Claude_v0.3/src/modules/payments/entities/transaction.entity.ts:19-23 | the transaction kinds are exactly PAYMENT, PAYOUT and REFUND |
| TransactionEntity.NewTransaction | dialoom_Claude_v0.3/src/modules/payments/entities/transaction.entity.ts:40-84 | a new transaction is PENDING, not released, in EUR, and every nullable column is absent |
| Users.NewUser | dialoom_Claude_v0.3/src/modules/users/entities/user.entity.ts:23-72 | every one of the fifteen writable columns the draft supplies is stored as given (OAuth sign-up passes `isVerified: true`); the others take their defaults: role USER, not verified, not banned, no two-factor, language "es", 0 points, level 1, and null password, secret, image, phone and customer id |
| Users.ApplyUserPatch | dialoom_Claude_v0.3/src/modules/users/users.service.ts:44-53 | each of the fifteen writable columns takes the patch value when supplied, including null for the nullable ones, and keeps the old one otherwise; the id is kept |
| Users.PlainUserDefaults | dialoom_Claude_v0.3/src/modules/users/entities/user.entity.ts:32-72 | a sign-up that gives only names and email yields role USER, not verified, not banned, no two-factor, language "es", 0 points, level 1, and every nullable column null |
| Users.HashedDraft | dialoom_Claude_v0.3/src/modules/users/users.service.ts:36-38 | a non-empty password in a new user is replaced by its hash; an absent or empty one is kept; no other column changes |
| Users.HashedPatch | dialoom_Claude_v0.3/src/modules/users/users.service.ts:47-49 | a non-empty password in an update is replaced by its hash; null, an empty one or none is kept; no other column changes |
| Users.StoredPasswordIsHash | dialoom_Claude_v0.3/src/modules/users/users.service.ts:36-41 | a password given at registration is stored as the hash, unless it is empty |
| Users.RegisteredUser | dialoom_Claude_v0.3/src/modules/auth/auth.service.ts:57-67 | `registerUser` creates an unverified USER without two-factor whose password is stored as its hash |
| Users.OAuthUserVerified | dialoom_Claude_v0.3/src/modules/auth/auth.service.ts:84-90 | an account created from an OAuth profile is a verified USER with no password |
| Users.TwoFactorPatches | dialoom_Claude_v0.3/src/modules/auth/auth.service.ts:124-136 | enabling two-factor sets the flag and stores the secret, disabling clears both, and neither touches another column; disabling after enabling is disabling alone |
| Users.CaseVariantTaken | dialoom_Claude_v0.3/src/modules/users/users.service.ts:26-33 | an email differing from a stored one only in letter case counts as in use |
| Users.CustomerIdPatchOnly | dialoom_Claude_v0.3/src/modules/payments/payments.service.ts:61-67 | storing the gateway customer id changes that column and nothing else |
| Users.UserPatchIdempotent | dialoom_Claude_v0.3/src/modules/users/users.service.ts:44-53 | the same update applied twice is the same as once |
| Users.Credited | dialoom_Claude_v0.3/src/modules/users/users.service.ts:84-88 | adding to one user's points changes that column of that user only |
| Users.UsersService.FindById | dialoom_Claude_v0.3/src/modules/users/users.service.ts:18-24 | the stored user when the id exists, NotFound otherwise |
| Users.UsersService.Create | dialoom_Claude_v0.3/src/modules/users/users.service.ts:30-42 | Conflict exactly when a stored email equals the new one ignoring letter case, with nothing stored; otherwise NewUser of the draft with its password hashed, under a fresh id; emails stay unique ignoring case |
| Users.UsersService.Update | dialoom_Claude_v0.3/src/modules/users/users.service.ts:44-53 | NotFound for an unknown id, the unique-index error for an email another user holds ignoring letter case, both leaving the table as it was; otherwise that row becomes ApplyUserPatch of it, with the password hashed, and is returned |
| Users.UsersService.Delete | dialoom_Claude_v0.3/src/modules/users/users.service.ts:55-58 | removes exactly that row, NotFound otherwise |
| Users.UsersService.UpdateRole | dialoom_Claude_v0.3/src/modules/users/users.service.ts:60-64 | sets the role of an existing user and nothing else |
| Users.UsersService.VerifyUser | dialoom_Claude_v0.3/src/modules/users/users.service.ts:66-70 | sets isVerified and nothing else |
| Users.UsersService.BanUser | dialoom_Claude_v0.3/src/modules/users/users.service.ts:72-76 | sets isBanned and nothing else |
| Users.UsersService.UnbanUser | dialoom_Claude_v0.3/src/modules/users/users.service.ts:78-82 | clears isBanned and nothing else |
| Users.UsersService.UpdatePoints | dialoom_Claude_v0.3/src/modules/users/users.service.ts:84-88 | points become points + delta and no other column changes; NotFound for an unknown id |
| Hosts.NewHost | dialoom_Claude_v0.3/src/modules/hosts/entities/host.entity.ts:22-53 | the profile keeps the user id; each of the eleven columns the draft supplies is stored as given; the others default to no bio, account or images, rate 0, not verified or featured, no specialties or languages, 0 sessions, rating 0 |
| Hosts.ApplyHostPatch | dialoom_Claude_v0.3/src/modules/hosts/hosts.service.ts:65-70 | each of the eleven writable columns takes the patch value when supplied, including null for the nullable ones, and keeps the old one otherwise; the user id is kept |
| Hosts.ProfileDefaults | dialoom_Claude_v0.3/src/modules/hosts/entities/host.entity.ts:22-53 | a profile created with a bio and an account only has rate 0, no images, 0 sessions, rating 0, and is neither verified nor featured |
| Hosts.HostPatchIdempotent | dialoom_Claude_v0.3/src/modules/hosts/hosts.service.ts:65-70 | the same update applied twice is the same as once |
| Hosts.ClearImages | dialoom_Claude_v0.3/src/modules/hosts/entities/host.entity.ts:37-41 | writing null to the two image columns clears them and changes nothing else |
| Hosts.ReplayIsMean | dialoom_Claude_v0.3/src/modules/hosts/hosts.service.ts:84-97 | rating sessions one by one leaves the session count equal to their number and the average equal to their mean |
| Hosts.NextAverageInRange | dialoom_Claude_v0.3/src/modules/hosts/hosts.service.ts:89-94 | ratings within [0, 5] keep the average within [0, 5] |
| Hosts.HostsService.FindAll | dialoom_Claude_v0.3/src/modules/hosts/hosts.service.ts:16-26 | exactly the profiles whose user exists and is not banned, filtered by the featured flag when one is given |
| Hosts.HostsService.FindById | dialoom_Claude_v0.3/src/modules/hosts/hosts.service.ts:28-39 | the profile under that user id, NotFound otherwise |
| Hosts.HostsService.Create | dialoom_Claude_v0.3/src/modules/hosts/hosts.service.ts:41-63 | NotFound for an unknown user, Conflict for an existing profile, both changing nothing; otherwise the user's role becomes HOST and NewHost of the draft is inserted |
| Hosts.HostsService.Update | dialoom_Claude_v0.3/src/modules/hosts/hosts.service.ts:65-70 | NotFound for an unknown profile, changing nothing; otherwise the profile becomes ApplyHostPatch of it and is returned |
| Hosts.HostsService.Verify | dialoom_Claude_v0.3/src/modules/hosts/hosts.service.ts:72-76 | sets isVerified and nothing else |
| Hosts.HostsService.SetFeatured | dialoom_Claude_v0.3/src/modules/hosts/hosts.service.ts:78-82 | sets isFeatured to the argument and nothing else |
| Hosts.HostsService.UpdateRating | dialoom_Claude_v0.3/src/modules/hosts/hosts.service.ts:84-97 | one more session, and the average becomes (avg * n + rating) / (n + 1) |
| Hosts.HostsService.Delete | dialoom_Claude_v0.3/src/modules/hosts/hosts.service.ts:99-107 | the user's role goes back to USER and the profile is removed; nothing changes when the profile or its user is missing |
| Reservations.Midnight | dialoom_Claude_v0.3/src/modules/reservations/reservations.service.ts:336-337 | the day boundary at or before t, less than a day before it |
| Reservations.TimeOfDay | dialoom_Claude_v0.3/src/modules/reservations/reservations.service.ts:304-313 | the hour and minute of t, which added to its midnight give t back |
| Reservations.Weekday | dialoom_Claude_v0.3/src/modules/reservations/reservations.service.ts:299 | a weekday number in 0..6 |
| Reservations.WeekdayString | dialoom_Claude_v0.3/src/modules/reservations/reservations.service.ts:299 | the weekday as the one-digit text compared with daysOfWeek |
| Reservations.OccurrencesExactly | dialoom_Claude_v0.3/src/modules/reservations/reservations.service.ts:296-325 | a recurring window (DAILY and WEEKLY alike) yields an instance for exactly those days of the range whose weekday it lists |
| Reservations.InstanceOnItsDay | dialoom_Claude_v0.3/src/modules/reservations/reservations.service.ts:303-318 | an instance lies on its own day at the template's hour and minute, whatever the template's date |
| Reservations.OccurrencesOnListedDays | dialoom_Claude_v0.3/src/modules/reservations/reservations.service.ts:299-320 | every instance starts on a listed weekday at the template's time of day |
| Reservations.ExpandAllMembers | dialoom_Claude_v0.3/src/modules/reservations/reservations.service.ts:284-327 | the expanded list holds exactly what some selected row expands to |
| Reservations.ExpandedCoversIffOffered | dialoom_Claude_v0.3/src/modules/reservations/reservations.service.ts:334-345 | the expansion of exactly the host's active rows over the slot's days covers the slot exactly when the slot is offered |
| Reservations.BlockedIffOverlapping | dialoom_Claude_v0.3/src/modules/reservations/reservations.service.ts:352-361 | the overlap query finds a row exactly when a CONFIRMED reservation of the host touches the slot |
| Reservations.OnlyConfirmedBlocks | dialoom_Claude_v0.3/src/modules/reservations/reservations.service.ts:352-359 | a reservation that is not CONFIRMED never blocks a slot: adding or removing one changes no slot |
| Reservations.BackToBackCollides | dialoom_Claude_v0.3/src/modules/reservations/reservations.service.ts:356-357 | a slot starting the minute a CONFIRMED booking ends is taken, because the overlap test is inclusive |
| Reservations.CancelOutcome | dialoom_Claude_v0.3/src/modules/reservations/reservations.service.ts:141-169 | succeeds exactly for a participant, a PENDING or CONFIRMED row and now no later than 24 hours before the start; the row becomes CANCELLED with the reason |
| Reservations.CompleteOutcome | dialoom_Claude_v0.3/src/modules/reservations/reservations.service.ts:222-237 | succeeds exactly from CONFIRMED with now at or after the end; the row becomes COMPLETED |
| Reservations.WithStatus | dialoom_Claude_v0.3/src/modules/reservations/reservations.service.ts:121-139 | any status is set; a non-empty reason goes to cancellationReason for CANCELLED and to notes otherwise; nothing else changes |
| Reservations.RescheduledCopy | dialoom_Claude_v0.3/src/modules/reservations/reservations.service.ts:201-212 | the new booking is CONFIRMED at the new times, with the same customer, host, amount and payment, marked as a reschedule of the original |
| Reservations.FinishedIsFinal | dialoom_Claude_v0.3/src/modules/reservations/reservations.service.ts:150-153 | a CANCELLED or COMPLETED reservation can be neither cancelled nor completed |
| Reservations.RescheduleCannotOverlapOriginal | dialoom_Claude_v0.3/src/modules/reservations/reservations.service.ts:185-198 | a new slot touching the original's own time is always refused, since the original is still CONFIRMED when the slot is checked |
| Reservations.ReservationsService.FindById | dialoom_Claude_v0.3/src/modules/reservations/reservations.service.ts:33-44 | the row, NotFound otherwise |
| Reservations.ReservationsService.FindByUser | dialoom_Claude_v0.3/src/modules/reservations/reservations.service.ts:46-52 | exactly the customer's reservations, each once, latest start first |
| Reservations.ReservationsService.FindByHost | dialoom_Claude_v0.3/src/modules/reservations/reservations.service.ts:54-60 | exactly the host's reservations, each once, latest start first |
| Reservations.ReservationsService.FindUpcoming | dialoom_Claude_v0.3/src/modules/reservations/reservations.service.ts:62-74 | exactly the CONFIRMED reservations of that customer (or host) starting at now or later, earliest first |
| Reservations.ReservationsService.ExpandRecurring | dialoom_Claude_v0.3/src/modules/reservations/reservations.service.ts:296-325 | the day-by-day loop produces exactly the window's occurrences over the range |
| Reservations.ReservationsService.GetHostAvailability | dialoom_Claude_v0.3/src/modules/reservations/reservations.service.ts:272-330 | the concatenated expansion of exactly the host's active rows; a one-off row is kept only when it lies inside the range |
| Reservations.ReservationsService.CheckHostAvailability | dialoom_Claude_v0.3/src/modules/reservations/reservations.service.ts:332-362 | true exactly when a window expanded over the slot's days covers it and no CONFIRMED reservation of the host touches it |
| Reservations.ReservationsService.Create | dialoom_Claude_v0.3/src/modules/reservations/reservations.service.ts:76-119 | BadRequest for a past start, an end not after the start or a taken slot; NotFound for an unknown customer or host; otherwise exactly one new PENDING reservation |
| Reservations.ReservationsService.UpdateStatus | dialoom_Claude_v0.3/src/modules/reservations/reservations.service.ts:121-139 | the row becomes WithStatus of itself, with no transition check |
| Reservations.ReservationsService.Cancel | dialoom_Claude_v0.3/src/modules/reservations/reservations.service.ts:141-169 | NotFound for an unknown id, otherwise CancelOutcome decides; the table changes only on success |
| Reservations.ReservationsService.Complete | dialoom_Claude_v0.3/src/modules/reservations/reservations.service.ts:222-237 | NotFound for an unknown id, otherwise CompleteOutcome decides |
| Reservations.ReservationsService.Reschedule | dialoom_Claude_v0.3/src/modules/reservations/reservations.service.ts:171-220 | succeeds exactly for a participant, a CONFIRMED original and a free slot; the original becomes CANCELLED with reason "Rescheduled" and the linked copy is added; the new times are not checked |
| Reservations.ReservationsService.CreateAvailability | dialoom_Claude_v0.3/src/modules/reservations/reservations.service.ts:240-270 | BadRequest for an end not after the start or a recurring window without weekdays; NotFound for an unknown host; otherwise one new active window |
| Payments.SplitAmount | dialoom_Claude_v0.3/src/modules/payments/payments.service.ts:75-81 | commission = amount * rate, VAT = commission * VAT rate, and net + commission + VAT = amount exactly |
| Payments.DefaultSplitOfHundred | dialoom_Claude_v0.3/src/modules/payments/payments.service.ts:75-81 | with the default rates, 100 splits into 10, 2.1 and 87.9 |
| Payments.NetWithinAmount | dialoom_Claude_v0.3/src/modules/payments/payments.service.ts:78-81 | with rates whose fee does not exceed the amount, the host's share lies between 0 and the amount |
| Payments.Release | dialoom_Claude_v0.3/src/modules/payments/payments.service.ts:140-164 | the batch keeps every row and changes only eligible ones |
| Payments.ReleaseIdempotent | dialoom_Claude_v0.3/src/modules/payments/payments.service.ts:140-164 | after a batch no row it released is eligible for any later batch, whatever its cutoff, and later batches leave those rows as they are; a later batch with the same or an earlier cutoff changes nothing at all |
| Payments.RetentionBoundary | dialoom_Claude_v0.3/src/modules/payments/payments.service.ts:141-148 | for a captured, unreleased payment, the batch run at `now` with the retention period releases it exactly when `now` is at least its creation time plus that period |
| Payments.RefundOutcome | dialoom_Claude_v0.3/src/modules/payments/payments.service.ts:166-183 | succeeds exactly for a COMPLETED row with an intent id; the row becomes REFUNDED with the reason as its note |
| Payments.PaymentsService.FindById | dialoom_Claude_v0.3/src/modules/payments/payments.service.ts:28-39 | the row, NotFound otherwise |
| Payments.PaymentsService.FindByUser | dialoom_Claude_v0.3/src/modules/payments/payments.service.ts:41-49 | exactly the rows the user paid or received as host |
| Payments.PaymentsService.CreatePaymentIntent | dialoom_Claude_v0.3/src/modules/payments/payments.service.ts:51-113 | NotFound for an unknown customer or host; BadRequest, with no transaction stored, when the host has no connected account; the customer id is stored first; otherwise one PENDING PAYMENT row with the split and the intent id |
| Payments.PaymentsService.HandlePaymentIntentSucceeded | dialoom_Claude_v0.3/src/modules/payments/payments.service.ts:115-138 | NotFound when no row has the intent id; otherwise that row becomes COMPLETED whatever its status, taking the first charge id when there is one |
| Payments.PaymentsService.ProcessReleasePendingPayments | dialoom_Claude_v0.3/src/modules/payments/payments.service.ts:140-164 | the table becomes Release of the old one at now, and the returned list is exactly the released rows, each once |
| Payments.PaymentsService.RefundTransaction | dialoom_Claude_v0.3/src/modules/payments/payments.service.ts:166-183 | NotFound for an unknown id, otherwise RefundOutcome decides |
| Calls.DigitsOf | dialoom_Claude_v0.3/src/modules/calls/calls.service.ts:53-55 | the result is digits only, no longer than the id, and holds each digit exactly as often as the id does; DigitsOfChar and DigitsOfConcat fix the order |
| Calls.DigitsOfChar | dialoom_Claude_v0.3/src/modules/calls/calls.service.ts:53-55 | one character is kept exactly when it is a digit |
| Calls.DigitsOfConcat | dialoom_Claude_v0.3/src/modules/calls/calls.service.ts:53-55 | the digits of two texts joined are the digits of each, joined |
| Calls.Uid | dialoom_Claude_v0.3/src/modules/calls/calls.service.ts:53-55 | the uid is below 100000 |
| Calls.UidDefinedIffDigit | dialoom_Claude_v0.3/src/modules/calls/calls.service.ts:53-55 | an id yields a number exactly when it contains a digit |
| Calls.UidIsLastFiveDigits | dialoom_Claude_v0.3/src/modules/calls/calls.service.ts:53-55 | taking the last six digits modulo 100000 is taking the last five digits |
| Calls.ValueModPow | dialoom_Claude_v0.3/src/modules/calls/calls.service.ts:53-55 | a decimal number modulo 10^k is the number its last k digits form |
| Calls.GenerateToken | dialoom_Claude_v0.3/src/modules/calls/calls.service.ts:13-86 | granted exactly when the reservation exists, the caller takes part, a non-host is at most 10 minutes early, the end has not passed and both credentials are set; channel "dialoom-session-" + id, uid from the host's or the customer's id, publisher only for the host role, expiry now + 7200 seconds |
| I18n.Split | dialoom_Claude_v0.3/src/modules/i18n/i18n.service.ts:88 | at least one piece, and no piece contains the separator |
| I18n.JoinSplit | dialoom_Claude_v0.3/src/modules/i18n/i18n.service.ts:88 | joining the pieces gives the text back |
| I18n.SplitJoin | dialoom_Claude_v0.3/src/modules/i18n/i18n.service.ts:88 | separator-free pieces joined and split again are the same pieces |
| I18n.LocaleOf | dialoom_Claude_v0.3/src/modules/i18n/i18n.service.ts:27 | the locale is the prefix of the file name up to its first '.', or the whole name when there is none |
| I18n.WalkConcat | dialoom_Claude_v0.3/src/modules/i18n/i18n.service.ts:92-96 | walking two key paths in turn is walking the first, then the second from where it ended |
| I18n.WalkStopsAtMissing | dialoom_Claude_v0.3/src/modules/i18n/i18n.service.ts:93-95 | once a key segment is missing, the whole key finds nothing |
| I18n.Table | dialoom_Claude_v0.3/src/modules/i18n/i18n.service.ts:89 | the locale's table when present and truthy, else the default locale's, else an empty object |
| I18n.HasLineTerminator | dialoom_Claude_v0.3/src/modules/i18n/i18n.service.ts:46 | true exactly when the text holds a line break |
| I18n.TrimStart | dialoom_Claude_v0.3/src/modules/i18n/i18n.service.ts:68-72 | the suffix of the text left after removing all leading white space: what is removed is white space, and what is left does not start with it |
| I18n.TrimEnd | dialoom_Claude_v0.3/src/modules/i18n/i18n.service.ts:42 | the prefix of the text left after removing all trailing white space: what is removed is white space, and what is left does not end with it |
| I18n.WordPrefixLength | dialoom_Claude_v0.3/src/modules/i18n/i18n.service.ts:107 | the length of the longest run of word characters at the start |
| I18n.PlaceholderName | dialoom_Claude_v0.3/src/modules/i18n/i18n.service.ts:107 | a positive result marks a `{name}` placeholder at the start, with name made of word characters |
| I18n.InterpolateNoParams | dialoom_Claude_v0.3/src/modules/i18n/i18n.service.ts:87-109 | with the default empty parameters the text comes back unchanged, provided no placeholder names a member the parameter object inherits |
| I18n.PlaceholderReplaced | dialoom_Claude_v0.3/src/modules/i18n/i18n.service.ts:107-109 | a placeholder with a parameter is replaced by its value, and the rest is filled the same way |
| I18n.PlaceholderKept | dialoom_Claude_v0.3/src/modules/i18n/i18n.service.ts:107-109 | a placeholder that has no parameter and names no inherited member stays as `{name}`, and the rest is filled the same way |
| I18n.PlaceholderInherited | dialoom_Claude_v0.3/src/modules/i18n/i18n.service.ts:107-109 | a placeholder that has no parameter but names an inherited member, such as `toString`, is filled with the inherited value |
| I18n.ConstructorFilled | dialoom_Claude_v0.3/src/modules/i18n/i18n.service.ts:87-109 | even with the default empty parameters, `{constructor}` becomes the text of the `Object` function |
| I18n.NoBraceUnchanged | dialoom_Claude_v0.3/src/modules/i18n/i18n.service.ts:107-109 | text without '{' is returned unchanged whatever the parameters |
| I18n.Translate | dialoom_Claude_v0.3/src/modules/i18n/i18n.service.ts:87-110 | the locale's string filled in; failing that the default locale's; failing that the key |
| I18n.T | dialoom_Claude_v0.3/src/modules/i18n/i18n.service.ts:113-115 | `t` is `translate` for all arguments |
| I18n.FirstIndex | dialoom_Claude_v0.3/src/modules/i18n/i18n.service.ts:46 | the index of the first occurrence of the character (none before it), or none exactly when it does not occur |
| I18n.Unquote | dialoom_Claude_v0.3/src/modules/i18n/i18n.service.ts:72 | one quote (either kind) at each end of a value of length at least 2 is stripped; otherwise the value is unchanged |
| I18n.YamlEntry | dialoom_Claude_v0.3/src/modules/i18n/i18n.service.ts:42-49 | a stored entry comes from a non-blank, non-comment line with a ':'; its value is text or an empty object |
| I18n.EntryOfTrimmed | dialoom_Claude_v0.3/src/modules/i18n/i18n.service.ts:46-49 | a line matches `key: value` exactly when it is not blank, does not start with '#', its first ':' has at least one character before it, and the value after it is acceptable; the key is the trimmed text before that first ':' and the value is StoredValue of the rest |
| I18n.StoredValue | dialoom_Claude_v0.3/src/modules/i18n/i18n.service.ts:68-74 | the value is refused exactly when, after its leading blanks, it holds a line break character; otherwise it is an empty object exactly when it is blank, and otherwise its trimmed text without one pair of surrounding quotes |
| I18n.Entries | dialoom_Claude_v0.3/src/modules/i18n/i18n.service.ts:41 | one entry per line |
| I18n.EntriesAt | dialoom_Claude_v0.3/src/modules/i18n/i18n.service.ts:41-76 | the i-th entry is the i-th line's |
| I18n.CollectKeys | dialoom_Claude_v0.3/src/modules/i18n/i18n.service.ts:69-73 | a key is stored exactly when some line stores it, with the value of the last such line |
| I18n.YamlObjectStep | dialoom_Claude_v0.3/src/modules/i18n/i18n.service.ts:41-76 | reading one more line stores that line's entry on top of the earlier ones |
| I18n.YamlObjectKeys | dialoom_Claude_v0.3/src/modules/i18n/i18n.service.ts:37-78 | the YAML object's keys are exactly the keys of the considered lines |
| I18n.YamlObjectIsFlat | dialoom_Claude_v0.3/src/modules/i18n/i18n.service.ts:37-78 | every value is text or an empty object: indentation never nests a key, since the section written to is never changed |
| I18n.Indent | dialoom_Claude_v0.3/src/modules/i18n/i18n.service.ts:45 | the position of the first non-space character |
| I18n.I18nService.constructor | dialoom_Claude_v0.3/src/modules/i18n/i18n.service.ts:10-12 | the table is what loading the files into an empty table gives |
| I18n.I18nService.Reindent | dialoom_Claude_v0.3/src/modules/i18n/i18n.service.ts:52-65 | the indent stack stays strictly increasing from 0; a deeper line is pushed, a shallower one pops until the top is not deeper |
| I18n.I18nService.ReadLine | dialoom_Claude_v0.3/src/modules/i18n/i18n.service.ts:42-75 | the line's entry is YamlEntry of it and the indent stack stays well formed |
| I18n.I18nService.ReadYaml | dialoom_Claude_v0.3/src/modules/i18n/i18n.service.ts:35-78 | the per-line loop builds exactly YamlObject of the content's lines |
| I18n.I18nService.LoadTranslations | dialoom_Claude_v0.3/src/modules/i18n/i18n.service.ts:22-84 | the table becomes LoadAll of the files, where a JSON parse failure ends the load |
| I18n.I18nService.TranslateLoaded | dialoom_Claude_v0.3/src/modules/i18n/i18n.service.ts:87-110 | translate over the loaded table |
| I18n.I18nService.AvailableLocales | dialoom_Claude_v0.3/src/modules/i18n/i18n.service.ts:117-119 | exactly the loaded locales |
| Notifications.MarkAll | dialoom_Claude_v0.3/src/modules/notifications/notifications.service.ts:46-51 | marking keeps every row |
| Notifications.MarkAllClearsOnlyThatUser | dialoom_Claude_v0.3/src/modules/notifications/notifications.service.ts:46-51 | afterwards the user has nothing unread, and every other user's rows and unread set are as before |
| Notifications.MarkAllIdempotent | dialoom_Claude_v0.3/src/modules/notifications/notifications.service.ts:46-51 | marking twice is marking once |
| Notifications.EmailMessage | dialoom_Claude_v0.3/src/modules/notifications/notifications.service.ts:96 | the text content, or "Email notification" when it is absent or empty |
| Notifications.CreatedNotices | dialoom_Claude_v0.3/src/modules/notifications/notifications.service.ts:106-144 | two e-mails, host first with "New Reservation Request", then the customer with "Reservation Confirmation", both tied to the reservation |
| Notifications.ReminderNotices | dialoom_Claude_v0.3/src/modules/notifications/notifications.service.ts:146-184 | two "Upcoming Session Reminder" e-mails, host first, both tied to the reservation |
| Notifications.EmailRecord | dialoom_Claude_v0.3/src/modules/notifications/notifications.service.ts:94-103 | the record of a sent e-mail is an unread SYSTEM notification on the EMAIL channel for the recipient |
| Notifications.AddRowsFresh | dialoom_Claude_v0.3/src/modules/notifications/notifications.service.ts:53-73 | an id unused after inserting rows was unused before and differs from every inserted row's id |
| Notifications.NotificationsService.FindAll | dialoom_Claude_v0.3/src/modules/notifications/notifications.service.ts:21-25 | every row once, newest first |
| Notifications.NotificationsService.FindByUser | dialoom_Claude_v0.3/src/modules/notifications/notifications.service.ts:27-32 | exactly the user's rows, newest first |
| Notifications.NotificationsService.FindUnreadByUser | dialoom_Claude_v0.3/src/modules/notifications/notifications.service.ts:34-39 | exactly the user's unread rows, newest first |
| Notifications.NotificationsService.MarkAsRead | dialoom_Claude_v0.3/src/modules/notifications/notifications.service.ts:41-44 | the row becomes read; an unknown id changes nothing and raises no error |
| Notifications.NotificationsService.MarkAllAsRead | dialoom_Claude_v0.3/src/modules/notifications/notifications.service.ts:46-51 | the table becomes MarkAll of the old one |
| Notifications.NotificationsService.Create | dialoom_Claude_v0.3/src/modules/notifications/notifications.service.ts:53-73 | for an unknown user the database refuses the row (the userId foreign key) and nothing is stored; otherwise one new unread row carrying exactly the given user, type, title, message, channel, related id and metadata |
| Notifications.NotificationsService.SendEmailNotification | dialoom_Claude_v0.3/src/modules/notifications/notifications.service.ts:75-104 | NotFound for an unknown user; otherwise one SYSTEM e-mail record whose message is EmailMessage of the text |
| Notifications.NotificationsService.SendAll | dialoom_Claude_v0.3/src/modules/notifications/notifications.service.ts:106-184 | the notices are recorded in order, each as its e-mail record under a distinct fresh id, and the table is the old one plus those rows; the first unknown recipient stops the sending with NotFound, and the rows recorded before it stay |
| Notifications.NotificationsService.SendReservationCreatedNotifications | dialoom_Claude_v0.3/src/modules/notifications/notifications.service.ts:106-144 | the table gains the e-mail records of the host's "New Reservation Request" and then the customer's "Reservation Confirmation", with their titles, texts and reservation id; an unknown host stores nothing, and an unknown customer leaves the host's record only |
| Notifications.NotificationsService.SendReservationReminderNotifications | dialoom_Claude_v0.3/src/modules/notifications/notifications.service.ts:146-184 | the table gains the two "Upcoming Session Reminder" records, host first, with their texts and reservation id; an unknown host stores nothing, and an unknown customer leaves the host's record only |
| Gamification.NewAchievement | dialoom_Claude_v0.3/src/modules/gamification/entities/achievement.entity.ts:39-46 | a new achievement stores name, description, icon, emoji, trigger, threshold and role as supplied, has 0 points and is active unless told otherwise |
| Gamification.ApplyAchievementPatch | dialoom_Claude_v0.3/src/modules/gamification/gamification.service.ts:45-53 | an update writes the supplied columns and keeps the id |
| Gamification.ExistingAward | dialoom_Claude_v0.3/src/modules/gamification/gamification.service.ts:72-78 | an award row for that user and achievement exactly when the user holds it |
| Gamification.SessionSidesDisjoint | dialoom_Claude_v0.3/src/modules/gamification/gamification.service.ts:112-119 | no achievement matches both the host and the customer session check, even with the role compared ignoring case |
| Gamification.CapitalRoleMatches | dialoom_Claude_v0.3/src/modules/gamification/gamification.service.ts:112-119 | an achievement stored with role "HOST" is found by the host-side session and rating checks, as the database compares the role ignoring case |
| Gamification.SessionsEligible | dialoom_Claude_v0.3/src/modules/gamification/gamification.service.ts:112-119 | exactly the active session achievements of the caller's side whose threshold is the count |
| Gamification.RatingEligible | dialoom_Claude_v0.3/src/modules/gamification/gamification.service.ts:129-136 | exactly the active host rating achievements whose threshold equals the rating |
| Gamification.CreditAllPays | dialoom_Claude_v0.3/src/modules/gamification/gamification.service.ts:91-94 | paying out a run of awards adds the total of their positive points to that user and changes no other column and no other user |
| Gamification.PointsPaid | dialoom_Claude_v0.3/src/modules/gamification/gamification.service.ts:91-94 | the points a run pays are never negative |
| Gamification.HeldBeforeRun | dialoom_Claude_v0.3/src/modules/gamification/gamification.service.ts:121-124 | during the loop, an achievement not yet reached is held now exactly when it was held before the loop |
| Gamification.RunDone | dialoom_Claude_v0.3/src/modules/gamification/gamification.service.ts:121-124 | a finished loop leaves every eligible achievement held, and newly awarded exactly those not held before, once each |
| Gamification.RunStops | dialoom_Claude_v0.3/src/modules/gamification/gamification.service.ts:121-124 | a failed award ends the loop only for an unknown user, before anything was paid or posted |
| Gamification.OnlyWholeRatingsMatch | dialoom_Claude_v0.3/src/modules/gamification/gamification.service.ts:129-136 | only a whole-number rating can match a rating achievement |
| Gamification.FirstAwardStored | dialoom_Claude_v0.3/src/modules/gamification/gamification.service.ts:84-89 | saving a user's first award of an achievement keeps every user's awards unique and adds only that row |
| Gamification.GamificationService.FindAllAchievements | dialoom_Claude_v0.3/src/modules/gamification/gamification.service.ts:24-26 | exactly the active achievements |
| Gamification.GamificationService.FindAchievementById | dialoom_Claude_v0.3/src/modules/gamification/gamification.service.ts:28-38 | the achievement, NotFound otherwise |
| Gamification.GamificationService.GetUserAchievements | dialoom_Claude_v0.3/src/modules/gamification/gamification.service.ts:60-65 | exactly the user's award rows |
| Gamification.GamificationService.CreateAchievement | dialoom_Claude_v0.3/src/modules/gamification/gamification.service.ts:40-43 | one new achievement under a fresh id |
| Gamification.GamificationService.UpdateAchievement | dialoom_Claude_v0.3/src/modules/gamification/gamification.service.ts:45-53 | NotFound for an unknown id, otherwise the patched achievement, which is returned |
| Gamification.GamificationService.DeleteAchievement | dialoom_Claude_v0.3/src/modules/gamification/gamification.service.ts:55-58 | NotFound for an unknown id; the award rows' foreign key refuses the delete while some user holds the achievement; otherwise it is removed; award rows never change |
| Gamification.GamificationService.AwardAchievement | dialoom_Claude_v0.3/src/modules/gamification/gamification.service.ts:67-108 | through AwardOutcome: a held award comes back and nothing changes; otherwise NotFound for an unknown achievement; else one award row is saved, the points when positive are added, and one ACHIEVEMENT_UNLOCKED in-app notification (`notice`) is posted; an unknown user fails after the award row (NotFound from the points, or the notification's foreign key when there are no points) with the users table unchanged; no user holds an achievement twice |
| Gamification.GamificationService.AwardEach | dialoom_Claude_v0.3/src/modules/gamification/gamification.service.ts:121-124 | the loop both checks run: success exactly when the user exists or already held every eligible achievement; on success all are held; `awarded` lists, once each, exactly the eligible ones not held before, in the order they were awarded; the users table is CreditAll of them and the notifications table gains their unlock notices in that order; a failure means the user is unknown, with nothing paid or posted |
| Gamification.GamificationService.CheckSessionsAchievements | dialoom_Claude_v0.3/src/modules/gamification/gamification.service.ts:110-125 | success exactly when the user exists or already held every match; then the user holds every active session achievement of their side (role compared ignoring case) whose threshold is the count; `awarded` lists, once each, exactly the matches not held before; the user's points grow by theirs (CreditAll) and one unlock notice per award is added (AddRows); a failure means the user is unknown, with nothing paid or posted |
| Gamification.GamificationService.CheckRatingAchievements | dialoom_Claude_v0.3/src/modules/gamification/gamification.service.ts:127-142 | success exactly when the user exists or already held every match; then the user holds every active host rating achievement (role compared ignoring case) whose threshold equals the rating; `awarded` lists exactly the matches not held before; the user's points grow by theirs (CreditAll) and one unlock notice per award is added (AddRows); a failure means the user is unknown, with nothing paid or posted |
| Admin.DefaultTheme | dialoom_Claude_v0.3/src/modules/admin/entities/theme-settings.entity.ts:14-57 | the theme created when none exists has every column at its default: the eight colours, the two font families, base size 14px, radius 4px, and no custom CSS, logo or favicon |
| Admin.ApplyThemePatch | dialoom_Claude_v0.3/src/modules/admin/admin.service.ts:39 | each of the fifteen writable columns takes the supplied value and keeps the old one otherwise; a nullable column can be cleared; id and creation time are kept |
| Admin.EmptyThemePatchKeepsRow | dialoom_Claude_v0.3/src/modules/admin/admin.service.ts:39 | an update supplying nothing leaves the theme as it was |
| Admin.ThemePatchIdempotent | dialoom_Claude_v0.3/src/modules/admin/admin.service.ts:33-42 | the same update applied twice is the same as once |
| Admin.NewestExists | dialoom_Claude_v0.3/src/modules/admin/admin.service.ts:18-21 | a non-empty theme table always has a newest row |
| Admin.NewContent | dialoom_Claude_v0.3/src/modules/admin/entities/content.entity.ts:39-52 | new content stores the given type, title, body, image, link and window; it is active, unpinned and at display position 0 unless told otherwise |
| Admin.ApplyContentPatch | dialoom_Claude_v0.3/src/modules/admin/admin.service.ts:150 | each of the eleven writable columns takes the supplied value and keeps the old one otherwise; id and creation time are kept |
| Admin.ContentPatchIdempotent | dialoom_Claude_v0.3/src/modules/admin/admin.service.ts:144-152 | the same update applied twice is the same as once |
| Admin.ActiveQueryIsWindow | dialoom_Claude_v0.3/src/modules/admin/admin.service.ts:58-80 | the four query alternatives together say exactly: active, start absent or at most now, end absent or at least now |
| Admin.NullSkippedAdmitsAllActive | dialoom_Claude_v0.3/src/modules/admin/admin.service.ts:59-80 | read with null-valued keys dropped instead, the same four alternatives admit every active row, including one whose window has closed |
| Admin.EmptyWindowNeverVisible | dialoom_Claude_v0.3/src/modules/admin/admin.service.ts:58-80 | content whose window ends before it starts is never shown |
| Admin.ContentOrderMeaning | dialoom_Claude_v0.3/src/modules/admin/admin.service.ts:47-51 | the listing order is pinned first, then display position ascending, then newest first |
| Admin.PinnedFirst | dialoom_Claude_v0.3/src/modules/admin/admin.service.ts:81-85 | in a listing no unpinned item precedes a pinned one |
| Admin.AdminService.GetThemeSettings | dialoom_Claude_v0.3/src/modules/admin/admin.service.ts:17-31 | the newest theme, which stays; when there is none, a default theme is created and returned |
| Admin.AdminService.UpdateThemeSettings | dialoom_Claude_v0.3/src/modules/admin/admin.service.ts:33-42 | the newest theme (or a new default one) with the supplied columns written |
| Admin.AdminService.GetAllContent | dialoom_Claude_v0.3/src/modules/admin/admin.service.ts:45-53 | every item once, in listing order |
| Admin.AdminService.GetActiveContent | dialoom_Claude_v0.3/src/modules/admin/admin.service.ts:55-87 | exactly the visible items, in listing order |
| Admin.AdminService.GetContentByType | dialoom_Claude_v0.3/src/modules/admin/admin.service.ts:89-125 | exactly the visible items of that type, in listing order |
| Admin.AdminService.GetContentById | dialoom_Claude_v0.3/src/modules/admin/admin.service.ts:127-137 | the item, NotFound otherwise |
| Admin.AdminService.CreateContent | dialoom_Claude_v0.3/src/modules/admin/admin.service.ts:139-142 | one new item under a fresh id |
| Admin.AdminService.UpdateContent | dialoom_Claude_v0.3/src/modules/admin/admin.service.ts:144-152 | NotFound for an unknown id, otherwise the patched item, which is returned |
| Admin.AdminService.DeleteContent | dialoom_Claude_v0.3/src/modules/admin/admin.service.ts:154-157 | NotFound for an unknown id, otherwise it is removed |

## Left out

- **Foreign services** are not modelled:
  - Stripe: customer creation, intents, transfers, refunds at the gateway,
    webhook signatures. The ids the gateway returns are parameters.
  - SendGrid delivery and the HTML bodies of the e-mails. A failed send is
    not modelled; the record is written whatever the delivery does.
  - The Agora token signer; only its inputs are modelled.
  - bcrypt itself, JWT, TOTP and the OAuth strategies. The hash bcrypt
    returns is the parameter `hashed` of Users.UsersService.Create and
    Users.UsersService.Update.
- **JavaScript dates.** Time zones and daylight saving time are not
  modelled, and days are 1440 minutes.
- **Formatted dates.** `toLocaleString` is not modelled: the formatted
  start time is a parameter `when`.
- **Rounding.**
  - Amounts are exact reals. The decimal(10,2) rounding on save, floating
    point error in the fee split, and `toFixed(2)` of the rating are not
    modelled.
  - Hosts.HostsService.UpdateRating: the average is stated before its
    rounding to two decimals.
- **Concurrency.** Each operation is one atomic step.
  - The check-then-insert races of `create` and `reschedule` are not
    modelled.
  - The two separate saves in `reschedule` are one step here.
  - Concurrent release batches are not modelled.
- **Controllers and guards.** The admin-only routes are not modelled; every
  operation may be called by anyone.
- **Unmodelled operations and columns.**
  - `getTransactionStats` is a database aggregate.
  - `findAll` of users, reservations and payments return the whole table,
    in no order.
  - `findByEmail` is used inside `create` only.
  - The `createdAt`/`updatedAt` columns are not modelled, except where a
    query orders by them.
- **Stray token in the availability entity.** The `ek` after `daysOfWeek`
  in `availability.entity.ts` is not modelled: the column is taken to be
  the `daysOfWeek` list.
- **Weekday lists.** The `simple-array` column stores the list joined by
  commas, and an entry containing a comma would not read back. This is not
  modelled.
- **Relations.** Rows are returned without their related user, host or
  achievement rows.
- **The user-achievement entity.** `user-achievement.entity.ts` is not part
  of this model. Its row is taken to be (id, userId, achievementId).
- **Translations.**
  - Parameters are strings. Non-string values and their conversion to text
    are not modelled.
  - Key lookup reaches into objects only, so it does not model indexing
    into strings or arrays, or prototype members such as `__proto__`.
  - Reading the locales directory and `JSON.parse` are not modelled: each
    file comes with its parse result, or its failure.
  - The YAML reader's `sectionStack` is not modelled. It only ever holds
    the top object, and its one test (`typeof ... === "string"`) is always
    false.
- **Partial updates.** A partial update that names the id or the creation
  time is not modelled. An explicit null for a non-nullable column is not
  modelled either.
- **Collation.** The database compares text with MySQL's default
  case-insensitive collation. The model reads this as ASCII case folding
  (Common.SameText) for emails (Users.UsersService.Create,
  Users.UsersService.Update) and achievement roles
  (Gamification.SessionsMatch, Gamification.RatingMatch).
  - Accent folding, folding of non-ASCII letters and trailing-space padding
    are not modelled.
  - Ids (uuids, Stripe payment intent ids and customer ids) and enum names
    are compared exactly. Case variants of them, which the database would
    match, are not modelled.
- **Theme settings.** `customCss` is a JSON column, kept as its text.
- **Fresh ids.** A fresh id is chosen as any unused string; the uuid
  format is not modelled.
- **Foreign keys.** The user reference of a notification row is modelled:
  the database refuses the row for an unknown user. The references of
  host, availability, reservation and transaction rows are not checked
  here. Each of those rows is written with ids that were just looked up.
  An award row's reference to its achievement is modelled
  (Gamification.GamificationService.DeleteAchievement refuses to remove a
  held achievement). An award row is taken to have no foreign key on its
  user, so Gamification.GamificationService.AwardAchievement saves the row
  for an unknown user before the points update fails.
- Delete (Users.UsersService.Delete): removes the row even when a host
  profile, reservations, transactions or notifications still reference the
  user. The database would refuse that delete on their foreign keys; those
  tables are outside the users service.
- **The null reading of the active-content query.** `startDate: null` is
  read as IS NULL, as TypeORM 0.2 reads it. The TypeORM version is not part
  of this model. Under the 0.3 reading a null-valued key is dropped, and
  Admin.NullSkippedAdmitsAllActive states what the query then returns.
- ActiveQueryIsWindow (Admin.ActiveQueryIsWindow): holds under the IS NULL
  reading only.
- GetActiveContent (Admin.AdminService.GetActiveContent): returns the
  visible items under the IS NULL reading only.
- GetContentByType (Admin.AdminService.GetContentByType): returns the
  visible items of the type under the IS NULL reading only.
- InterpolateNoParams (I18n.InterpolateNoParams): no longer promises an
  unchanged text when a placeholder names a member every object inherits
  (`constructor`, `toString`, `__proto__` and the rest). The default `{}`
  finds those members, and I18n.ConstructorFilled shows one.
- PlaceholderKept (I18n.PlaceholderKept): holds only for names that are
  not inherited members; I18n.PlaceholderInherited covers the others.
- **Inherited member text.** The text a built-in method becomes is
  `function name() { [native code] }`, as V8 prints it.
- **Host session counts.** `totalSessions` is a natural number. A negative
  count written by a create or an update is not modelled.
- **Host drafts.** A draft naming `userId` would override the profile's
  user id through the spread in `create`. This is not modelled.
