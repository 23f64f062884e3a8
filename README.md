# School fee management backend — a Dafny model

This project models the core of an Express/Mongoose backend that a school's
administrators use to keep student records and fee records. The four parts
modelled here are:

- **Fee ledger** (`routes/fees.js`). Admins create fees, patch them, mark them
  paid and delete them. They also list all fees, the due fees and the fees
  coming due, look up one fee, and derive its receipt.
- **Student registry** (`routes/students.js` with the schema in
  `models/Student.js`). Records are unique by roll number, and the schema has
  required fields and defaults. Admins list the active students, look up,
  insert, patch and delete records, and list one student's fees.
- **Dashboard** (`routes/admin.js`). Counts and amount sums over the fees,
  plus the number of students.
- **Admin accounts** (`routes/auth.js`). Accounts are keyed by the email after
  trimming and lower-casing. Admins create accounts, log in and change their
  password.

The password digest and the session token are abstract operations in module
`Credentials`.

Each collection is a class. The fee and student collections hold a map from
document id to record and the collection's natural (insertion) order. The
admin collection is a map keyed by normalised email with no order, since it is
never listed. Each state-changing handler is
a method, and its contract states the whole new state and the HTTP error class
it answers with. Each read handler is a function over that state. A handler
runs as one atomic step.

These become parameters:

- the clock (`now`);
- the identifier the store assigns to a new document (`newId`);
- JavaScript's `new Date(year, monthIndex, day)` (`construct`);
- the verified token payload (`Claims`).

Error classes stand for status codes: `BadRequest` is 400, `Unauthorized` is
401, `NotFound` is 404 and `ServerError` is 500.

Files:

| file | module | models |
|---|---|---|
| common.dfy | Common | Option/Outcome, error classes, the ObjectId cast, ASCII case mapping, `trim`, email normalisation |
| store.dfy | Store | the map-plus-order collection, `find` with a filter, `sort({ createdAt: -1 })` |
| day_month_year.dfy | DayMonthYear | `split('-')`, `Number(...)`, the DD-MM-YYYY rewrite, the store's date cast |
| fee_model.dfy | FeeModel | the fee record |
| student_model.dfy | StudentModel | the student schema: record, required fields, defaults |
| credentials.dfy | Credentials | bcrypt and jsonwebtoken as abstract operations; the `auth` middleware |
| fee_ledger.dfy | FeeLedger | the fee routes |
| student_registry.dfy | StudentRegistry | the student routes |
| dashboard.dfy | Dashboard | the dashboard route |
| admin_registry.dfy | AdminRegistry | the account routes |

### Where the code differs from what its comments and descriptions suggest

The model follows the code in each of these cases.

- **Client attribution partly survives.**
  - Fee creation overrides only `addedBy` (routes/fees.js:34-37). A client's
    `updatedBy` is stored once it casts to an ObjectId; otherwise the save
    fails with 400.
  - Fee update overrides only `updatedBy` and `updatedAt`
    (routes/fees.js:198-202). A client's `addedBy` is stored once it casts;
    otherwise the update throws and answers 400 with nothing written.
  - Student update overrides nothing (routes/students.js:82-86), so a patch
    can set `addedBy` (when it casts) and `createdAt`.
- **A dangling student answers 400 after the write.** Fee create and fee
  update read `fee.studentId.name` after the write (routes/fees.js:53,
  routes/fees.js:211).
  - If the referenced student does not exist, that read throws, and the
    handler answers 400.
  - The fee has still been stored or changed.
- **The receipt's `generatedBy` is always absent.** It reads the token's
  `email` claim (routes/fees.js:274), but the tokens issued at login carry
  only the id (routes/auth.js:69-73).
- **Malformed ids get different codes per handler.** An id that is not an
  ObjectId makes the lookup throw, and each handler's catch picks the status.
  - Fee and student GET and DELETE answer 500.
  - The two PUT handlers answer 400.
  - Only the payment handler checks the id's form itself, answering 400.
- **A bad token on password change answers 500.** An invalid or expired token
  makes `jwt.verify` throw inside the handler (routes/auth.js:101), so the
  answer is 500 rather than 401.
- **A duplicate admin id answers 500.** A duplicate id on admin insert fails
  the save, and the catch answers 500 (routes/auth.js:36-37). A duplicate
  email answers 400.
- **Overdue has two meanings.** The dashboard's overdue figure counts pending
  fees due strictly before now (routes/admin.js:21-24), and it ignores the
  `overdue` status. The due view takes both statuses and includes fees due now
  (routes/fees.js:68-71).

## Model

| member | source | states |
|---|---|---|
| Common.CastRef | routes/students.js:82-86 | an optional reference field that casts is stored lower-cased as a stored-form id, and absent stays absent |
| Common.CastObjectId | routes/fees.js:116-123 | a path id can be cast exactly when it is 24 hex digits in either case; the key it names is its lower-cased form, which is a stored-form id |
| Common.NormaliseEmailIdempotent | models/Admin.js:9-10 | trimming and lower-casing an already normalised email changes nothing, so the schema's own `trim`/`lowercase` keep the key the route computed |
| Common.Lower | routes/auth.js:15 | `toLowerCase()`: the same length, and each character is its lower-case form (A–Z mapped to a–z, all else kept) |
| Common.Upper | routes/fees.js:272 | `toUpperCase()`: the same length, and each character is its upper-case form (a–z mapped to A–Z, all else kept) |
| Common.Trim | routes/auth.js:15 | `trim()`: the result is a middle piece of the input, everything cut off before and after it is white space, and it neither starts nor ends with white space, so it is exactly the input without its edge white space |
| Common.TrimStartCuts | routes/auth.js:15 | removing leading white space keeps a suffix of the input and cuts off only white space |
| Common.TrimEndCuts | routes/auth.js:15 | removing trailing white space keeps a prefix of the input and cuts off only white space |
| Common.NormaliseEmail | routes/auth.js:15 | `trim().toLowerCase()`: the result is as long as the trimmed email and each of its characters is the lower-case form of the trimmed email's character at that position; so it has no white space at either end and no upper-case letter |
| Common.NormalisedEmailIsFixed | models/Admin.js:9-10 | an email is its own normalisation exactly when it has no white space at either end and no upper-case letter |
| Common.TrimIdempotent | routes/auth.js:15 | `trim` applied twice equals `trim` once |
| Store.ValuesCover | routes/fees.js:10 | the natural-order listing holds exactly the collection's documents |
| Store.IndexesCard | routes/fees.js:19 | the listing has as many entries as the collection has documents |
| Store.IndexesInsert | routes/fees.js:50 | inserting a fresh key keeps the order an exact index of the collection |
| Store.IndexesRemove | routes/fees.js:296 | removing a key keeps the order an exact index of the smaller collection |
| Store.Remove | routes/fees.js:296 | the order without the key holds every other key, and still no key twice |
| Store.Filter | routes/fees.js:68-71 | a `find` with a filter returns exactly the documents that satisfy it, each at most as often as in the collection, so with no repeats when the collection has none |
| Store.FilterKeepsOrder | routes/fees.js:68-71 | the documents a `find` selects come in the order of the collection: the result is a subsequence of the input, placed by an increasing index map |
| Store.SortDesc | routes/fees.js:14 | `sort({ createdAt: -1 })`: the result is ordered by descending key and is a permutation of the input |
| Store.SortDescMembers | routes/students.js:11 | sorting keeps the length and exactly the same documents, and adds no repeats |
| DayMonthYear.Split | routes/fees.js:41 | `split('-')` gives at least one part and no part contains a dash |
| DayMonthYear.JoinSplit | routes/fees.js:41 | joining the parts of a split with the separator gives back the string |
| DayMonthYear.SplitJoin | routes/fees.js:41 | splitting dash-free parts joined by dashes gives back those parts |
| DayMonthYear.NumberOf | routes/fees.js:42 | `Number(part)`, with white space around the text allowed: a number exactly when the text is blank (0), a run of digits (its decimal value), or a '+' or '-' followed by a run of digits (that value, or its negation); anything else, such as "2024x", is NaN |
| DayMonthYear.FromParts | routes/fees.js:41-42 | a split gives a date exactly when it has at least three parts and the first three are numbers; then year is the third, month index the second minus one and day the first, and later parts are ignored |
| DayMonthYear.ParseDayMonthYear | routes/fees.js:41-42 | text gives a date exactly when its split on '-' has at least three parts whose first three are numbers |
| DayMonthYear.DecimalRoundTrip | routes/fees.js:42 | a number written in decimal reads back as the same number |
| DayMonthYear.NumberOfDigits | routes/fees.js:42 | `Number` of a run of digits is its decimal value |
| DayMonthYear.FewerThanThreePartsInvalid | routes/fees.js:41-42 | text with fewer than two dashes leaves the year undefined, which makes an Invalid Date |
| DayMonthYear.ParseDigitRuns | routes/fees.js:41-42 | `d-m-y` made of digit runs gives year `y`, zero-based month `m - 1` and day `d` |
| DayMonthYear.ParseFormatted | routes/fees.js:41-42 | a date written as day, month and year in decimal with dashes parses back to (year, month − 1, day) |
| DayMonthYear.ParseExample | routes/fees.js:41-42 | "15-03-2024" gives year 2024, month index 2, day 15 |
| DayMonthYear.NormaliseField | routes/fees.js:40-47 | only a non-empty string is rewritten; that gives a date exactly when all three parts are numbers, built from them, and an Invalid Date otherwise; every other value is passed on unchanged |
| DayMonthYear.NormaliseFieldIdempotent | routes/fees.js:187-194 | the rewrite leaves no non-empty string behind, and a second rewrite changes nothing |
| DayMonthYear.CastDate | routes/fees.js:49-50 | the store rejects exactly an Invalid Date; a date is kept, and an absent field or the empty string becomes null |
| StudentModel.NewStudent | models/Student.js:3-19 | a body validates exactly when every required field is present (required strings non-empty); the record copies the body, with `feeType` 'Annual', `isActive` true and `createdAt` now when omitted; anything else is a 400 |
| StudentModel.DefaultsApply | models/Student.js:15-18 | a body with only the required fields gives 'Annual', active, created now, and no section, email or address |
| Credentials.Hash | models/Admin.js:21-25 | the stored digest matches the password it was made from |
| Credentials.MatchesOnlyItsPassword | models/Admin.js:28-30 | a digest matches its own password and no other |
| Credentials.Sign | routes/auth.js:69-73 | a login token names the admin's id, carries no email, and expires 24 hours after issue |
| Credentials.Verify | middleware/auth.js:12 | a token verifies exactly when it is signed with the secret and not expired, and then yields its payload |
| Credentials.SignedTokenLifetime | routes/auth.js:69-73 | a login token verifies, to its admin, exactly until 24 hours after issue |
| Credentials.Authenticate | middleware/auth.js:3-19 | a request reaches a guarded handler exactly when it carries a token that verifies; otherwise 401 |
| FeeLedger.NewFee | routes/fees.js:34-50 | the fee is created exactly when the student id is given and casts, the fee type is non-empty, the amount is given, the due date converts to a date, the paid date does not convert to an Invalid Date and a sent `updatedBy` is an ObjectId; anything else (such as a non-empty unparsable paid date) is a 400; the record has the body's fee type, amount, paid amount and payment method, the converted due and paid dates, the cast `updatedBy`, status pending by default, `addedBy` the acting admin, and created/updated now |
| FeeLedger.ForgedUpdatedByRefused | routes/fees.js:49-50 | a body whose `updatedBy` is not an ObjectId ("not-an-id") is refused with 400 |
| FeeLedger.DateAfterSet | routes/fees.js:187-194 | a date field after a write: kept when the body omits it, the given date, null for the empty string, and the date built from day, month and year for rewritten text |
| FeeLedger.NewFeeIgnoresClientAddedBy | routes/fees.js:34-37 | the `addedBy` a client sends has no effect on the created fee |
| FeeLedger.PayCheck | routes/fees.js:108-136 | the payment guards in order: no admin id is 401, an id not 24 hex digits is 400, a missing fee is 404, a paid fee is 400; it passes exactly when none applies |
| FeeLedger.Settle | routes/fees.js:138-152 | status paid, paid now, the sent amount if truthy else the fee's amount, the sent method if non-empty else 'Cash', updated by the actor now; every other field unchanged |
| FeeLedger.PayTwiceRefused | routes/fees.js:131-136 | repeating a successful payment request is refused as already paid |
| FeeLedger.SettledLeavesViews | routes/fees.js:68-89 | a settled fee is in neither the due nor the upcoming view, at any time |
| FeeLedger.Patched | routes/fees.js:196-204 | each field stated: student id (cast), fee type, amount, status, paid amount, payment method and `addedBy` (cast) are the patch's when it carries them and the stored ones otherwise; due and paid dates follow the date rewrite and cast; `updatedBy` and `updatedAt` are always the actor and now; id and creation time never change |
| FeeLedger.PatchIgnoresClientUpdatedBy | routes/fees.js:198-201 | the `updatedBy` a client puts in a patch has no effect |
| FeeLedger.EmptyPatchOnlyStamps | routes/fees.js:196-202 | an empty patch changes only `updatedBy` and `updatedAt` |
| FeeLedger.ReceiptNumber | routes/fees.js:272 | "FMS-" followed by the upper-cased last six characters of the id; ten characters when the id has at least six |
| FeeLedger.ReceiptNumbersCollide | routes/fees.js:272 | two ids with the same last six characters share a receipt number |
| FeeLedger.ReceiptNumberIdentifiesSuffix | routes/fees.js:272 | two stored ids share a receipt number exactly when their last six hex digits agree |
| FeeLedger.StudentLabel | routes/fees.js:298 | the student's name when the student exists with a non-empty name; 'Unknown Student' when the reference dangles or the name is empty |
| FeeLedger.Ledger.Docs | routes/fees.js:10 | the natural-order listing: one entry per fee, exactly the stored fees, none twice |
| FeeLedger.Ledger.List | routes/fees.js:8-21 | every fee once, newest first, with a count equal to the listing's length and to the number of fees |
| FeeLedger.Ledger.Due | routes/fees.js:66-74 | exactly the fees that are pending or overdue and due no later than now, none twice |
| FeeLedger.Ledger.Upcoming | routes/fees.js:81-92 | exactly the pending fees due between now and seven days from now, both ends included, none twice |
| FeeLedger.Ledger.Get | routes/fees.js:224-248 | a malformed id is 500, an unknown id 404; otherwise the stored fee with that id |
| FeeLedger.LoginReceiptHasNoGenerator | routes/fees.js:274 | a receipt made under a token issued at login has no `generatedBy`, since such tokens carry no `email` claim |
| FeeLedger.Ledger.ReceiptFor | routes/fees.js:252-282 | fails exactly as the lookup does; otherwise the fee, its student (the stored record it names) when it exists, a ten-character receipt number, the time, and the token's `email` claim |
| FeeLedger.Ledger.Create | routes/fees.js:32-62 | an invalid body or a taken id is 400 with no change; otherwise exactly that fee is added, and the answer is the fee or, when its student does not exist, 400 |
| FeeLedger.Ledger.Update | routes/fees.js:182-220 | a malformed id or patch (a student id, `addedBy` or date that does not cast) is 400 and an unknown id 404, both with no change; otherwise only that fee is replaced by its patched form, and the answer is it or 400 for a dangling student |
| FeeLedger.Ledger.MarkPaid | routes/fees.js:99-178 | every guard failure answers its error with no change; otherwise only that fee is replaced by its settled form, which is the answer |
| FeeLedger.Ledger.Delete | routes/fees.js:286-311 | a malformed id is 500 and an unknown id 404, both with no change; otherwise exactly that fee is removed and the confirmation names its student or 'Unknown Student' |
| StudentRegistry.Amended | routes/students.js:82-86 | every field stated: each one the patch carries (name, roll number, class, section, phone, email, address, parent name and phone, admission date, total fee, fee type, active flag, `addedBy`, `createdAt`) replaces the stored one, unvalidated except that `addedBy` is stored in its cast, lower-cased form, and the rest are kept; the id never changes |
| StudentRegistry.OwnRollIsFree | models/Student.js:5 | a record's own roll number never counts as taken by another |
| StudentRegistry.RemovedStudentIsUnknown | routes/fees.js:298 | after a student is removed, its orphaned fees are confirmed as 'Unknown Student' |
| StudentRegistry.Registry.Docs | routes/students.js:9 | the natural-order listing: one entry per record, exactly the stored records, none twice |
| StudentRegistry.Registry.ShowStudents | routes/students.js:7-16 | exactly the active students, each once, newest first, with a count equal to the listing's length and to the number of active students |
| StudentRegistry.Registry.Get | routes/students.js:26-45 | a malformed id is 500, an unknown id 404; otherwise the stored record with that id |
| StudentRegistry.Registry.FeesOf | routes/students.js:107-137 | fails exactly as the lookup does; otherwise the student and exactly the fees naming it, each once, newest first |
| StudentRegistry.Registry.Add | routes/students.js:49-76 | the body with `addedBy` from the token, validated; an invalid body, a taken id or a roll number already held is 400 with no change; otherwise exactly that record is added |
| StudentRegistry.Registry.Update | routes/students.js:80-103 | a malformed id, an `addedBy` that is not an ObjectId or a roll number another record holds is 400, an unknown id 404, all with no change; otherwise only that record is replaced by its amended form; roll numbers stay unique |
| StudentRegistry.Registry.Delete | routes/students.js:141-164 | a malformed id is 500 and an unknown id 404, both with no change; otherwise exactly that record is removed and the fee ledger is untouched |
| Dashboard.Count | routes/admin.js:15-27 | `countDocuments(filter)` is the length of the `find` with that filter, so never more than the number of fees |
| Dashboard.SumAmount | routes/admin.js:30-41 | the `$sum` of `amount` over a filter is the total of the amounts of exactly the fees the `find` with that filter returns (0 when there are none) |
| Dashboard.Summarize | routes/admin.js:12-51 | each figure: total students and fees are the collection sizes; pending, overdue (pending and due before now) and paid are the sizes of those filters; collected and pending amount are the amount totals of the paid and the pending fees; and overdue ≤ pending, pending + paid ≤ total |
| Dashboard.DashboardOf | routes/admin.js:9-52 | over the live collections: every student counts, active or not; total fees is the ledger size; each count and amount figure is that of its filter over the stored fees; the same inequalities hold |
| Dashboard.CountImplied | routes/admin.js:18-24 | a filter that implies another (overdue implies pending) counts no more |
| Dashboard.CountDisjoint | routes/admin.js:15-27 | two disjoint filters (pending, paid) together count no more than all fees |
| Dashboard.SumOfNoneIsZero | routes/admin.js:30-41 | with no matching fee the sum, and with it the reported figure, is 0 |
| Dashboard.CountReplace | routes/admin.js:15-27 | changing one fee shifts a count by what the old and new fee contribute |
| Dashboard.SumReplace | routes/admin.js:30-41 | changing one fee shifts an amount sum by what the old and new fee contribute |
| Dashboard.PayingMovesAmount | routes/admin.js:18-41 | settling a pending fee moves one fee and its `amount` (not the paid amount) from the pending to the paid figures |
| Dashboard.SampleFigures | routes/admin.js:30-41 | one paid fee of 100 and one pending of 50 give 100 collected and 50 pending |
| AdminRegistry.EmailKey | routes/auth.js:15 | the key is the trimmed, lower-cased email; absent when the body has none |
| AdminRegistry.EmailKeyOfNormalised | routes/auth.js:46 | an email and its normalised form give the same key |
| AdminRegistry.Login | routes/auth.js:44-88 | a missing email or password is 400; the login succeeds exactly when the account exists and the password matches, and fails with 401 otherwise; success gives a token for the admin's id |
| AdminRegistry.UnknownEmailLikeWrongPassword | routes/auth.js:58-67 | an unknown email and a wrong password give the same answer |
| AdminRegistry.SessionLifetime | routes/auth.js:69-73 | a login's token verifies to the logged-in admin exactly for 24 hours |
| AdminRegistry.ChangeCheck | routes/auth.js:96-121 | the password-change guards in order: no token 401, an unverifiable token 500, no or unknown admin 404 (500 for an id that is no ObjectId), a missing password 400, a wrong current password 400, an unchanged password 400 |
| AdminRegistry.Admins.Create | routes/auth.js:11-38 | a missing email or password, or a registered email, is 400 and a taken id 500, all with no change; otherwise exactly one admin is added, under the normalised email, with the digest of its password |
| AdminRegistry.Admins.ChangePassword | routes/auth.js:94-134 | every guard failure answers its error with no change; otherwise only that admin's digest and `updatedAt` change, and afterwards the new password matches and the old one does not |
| AdminRegistry.CreatedAdminCanLogIn | routes/auth.js:15-67 | an account created under one spelling of an email logs in under any spelling that normalises alike, with its password |

## Left out

- I/O is not modelled: HTTP parsing, the response message strings and the `populate` display subsets. Replies keep only their status class and data.
- Concurrency is not modelled. The read-then-write in the payment handler and the separate reads of the dashboard are each one atomic step here.
- JavaScript's Date is not modelled. `new Date(y, m, d)` is the parameter `construct`, so calendar rollover, timezones, the mapping of years 0–99 to 1900–1999 and out-of-range dates are outside the model.
- Amounts (`amount`, `paidAmount`, `totalFee`) are whole numbers (`int`), not JavaScript's floating-point Number. Fractional amounts and the floating-point rounding of `$sum` are not modelled.
- DayMonthYear.NumberOf: `Number(...)` on date parts covers optional white space, an optional sign and decimal digits. Fractions, exponents, hexadecimal and `Infinity` are read as NaN, although JavaScript gives them a value.
- Case mapping and `trim` cover ASCII letters and the common white-space characters. Unicode case mapping and the other space separators are not modelled.
- Object ids are 24-character hex strings. 12-byte strings, which the driver also accepts as ids, are not modelled.
- bcrypt's salt, cost factor and 72-byte truncation are not modelled; a digest matches exactly its own password.
- jsonwebtoken's signature algorithm and its seconds granularity are not modelled; a token is either signed with the secret or foreign.
- A request value of a type the schema cannot cast, such as a non-numeric `amount` or `totalFee`, is not modelled. Request bodies are typed.
- models/Fee.js is not part of this model. The fee record is built from the fields the routes use.
  - Its required fields are taken to be studentId, feeType, amount and dueDate.
  - Its status is taken to default to pending.
  - Its timestamps are taken to be set at creation. A client-supplied `createdAt` on a new fee is not modelled.
- FeeLedger.Ledger.MarkPaid: the 404 after the update (routes/fees.js:156-161) is not modelled, because it can only happen through a concurrent delete.
- FeeLedger.Ledger.Create: the acting admin id is stored as the token carries it. A signed token whose id is not an ObjectId would make the save fail; only a holder of the signing secret could make one, so this is not modelled.
- FeeLedger.Ledger.Update: same as Create for the acting admin id. The unvalidated patch also cannot set fields the fee record does not have.
- FeeLedger.Ledger.MarkPaid: the acting admin id goes into `updatedBy` as the token carries it. A token id that is not an ObjectId would make the update's cast throw (a 500, routes/fees.js:144-148); as for Create, this is not modelled.
- StudentRegistry.Registry.Add: the acting admin id goes into `addedBy` as the token carries it. A token id that is not an ObjectId would fail schema validation (a 400, routes/students.js:51-56, models/Student.js:17); as for Create, this is not modelled.
- Store.SortDesc: ties are kept in natural order. The store does not promise any particular order for equal `createdAt`; the contract states only the order and the permutation.
- The per-request `auth` middleware is modelled once, as Credentials.Authenticate. The guarded handlers take the verified claims it yields.
- server.js, scripts/create-admin.js, debug-admin.js and test-connection.js are process plumbing and one-off scripts. The notification routes and config/db are not part of this model.
