# Accounting backend: a verified model

The backend of this repository is a set of small domain services over in-memory stores. This project
models their logic in Dafny and proves what the services promise. One module stands for one component:

| module | component |
|---|---|
| `Audit` | the audit log's hash chain and its two stores |
| `RateLimiter` | the fixed-window limiter on public authentication routes |
| `LoginThrottle` | the lockout after failed password logins |
| `Totp`, `TotpSecrets` | one-time codes: replay markers and failure counter; secrets at rest and their migration |
| `Money`, `Rates`, `EcbRates` | exact currency conversion, rounding, the rate table and its refresh |
| `LedgerStore`, `Seed` | the ledger's entities, its store, and the built-in default categories |
| `Books`, `Categories`, `Entries`, `Summary` | book ownership, the category tree, entries and reports |
| `ImportReferences`, `ImportBatches`, `ImportApplies` | committing an import; preview batches and marks; the apply route over both |
| `AuthStore` | users, passkeys and keyed records, their indexes and snapshots |
| `Password`, `Keyring`, `Base64`, `RecordKey` | text formats: password hashes, envelopes, compound keys |
| `Text`, `Wrappers` | string operations; options and results |

A service or store that changes state is a class, or a method on the store's class, and its `ensures`
ties the new state to a function of the old one. The laws about whole runs are lemmas about those
functions: an operation is a step, and a run is a sequence of steps from an empty store or from any
state that satisfies the invariant.

`dafny verify dfyconfig.toml` checks the project.

## Reading the model

- Ids are opaque strings. The UUIDs, clock readings and random bytes a call draws are parameters of it.
- Times are integers: nanoseconds since Go's zero time, where 0 is the unset time, and since the Unix
  epoch for one-time codes. Runs have a clock that never goes back.
- A service call is one atomic step, except in `ImportBatches`, in `ImportApplies` and in the interleaved runs
  of `Audit`, where calls interleave between store operations, and in `Books`, where the state after every single
  write is part of the result. In interleaved applies the schedule also chooses which entries a commit books
  before it completes or breaks off.
- `LoginThrottle` and `Totp` keep their throttles, replay markers and failure counters in `AuthStore`.
- SHA-256, HOTP, Argon2 and AES-GCM are function parameters. Injectivity of the hash is a hypothesis of
  `Audit.TamperEvidence` only; `Audit.ChainedLogsAgree` assumes nothing and returns the collision instead.
  AES-GCM is assumed to open what it sealed and to add sixteen bytes, and for two laws to tell two given
  associated data apart, which some cipher does (`Keyring.SomeCipherIsSound`). Where bytes matter a Go string is a string of characters below 256.
- 64-bit wrap-around is explicit in rounding and in the summary.

## What the code does not promise

Where a natural law is false of the code, the code is modelled as it is and the exact condition is proved.

- The audit chain survives interleaved `Record` calls if and only if no save comes between another call's
  read of the tail and its save (`Audit.InterleavedLogVerifiesIff`).
- A conversion there and back returns every 64-bit amount that can be converted if and only if the factor f
  there is at least one, or so close below it that 2^64 (1 - f) < f (`Money.ExplicitRateReturnsAllIff`).
  The comment on the rounding function says half-up; the code rounds halves away from zero, and that is what
  is modelled.
- A change of a book's reporting currency can make stored entries unreportable
  (`Entries.ChangedSummaryConvertsIff`, `Entries.CurrencyChangeCanBreakReports`).
- A refresh of the rate table can succeed and leave a table that no report can use
  (`EcbRates.RefreshedTableIndexesIff`, `EcbRates.TinyQuoteBreaksIndex`).
- Two concurrent marks of one preview can overwrite each other's metadata. An applied batch is final if and
  only if no mark that loaded it earlier is still to save (`ImportBatches.AppliedIsFinalIff`,
  `ImportBatches.InterleavedMarksOverwrite`).
- Two concurrent applies of one preview can book its rows twice. A batch is booked no more if and only if it can
  no longer be loaded for a commit and no apply is between its load and its commit (`ImportApplies.BookedNoMoreIff`,
  `ImportApplies.InterleavedAppliesBookTwice`). A commit that breaks off leaves its entries in the ledger and its
  batch a preview, so the next apply books these rows again (`ImportApplies.UninterruptedAppliesBookOnce`).
- A one-time code that confirmed a setup can be used once more to sign in, because a confirmation leaves no
  replay marker (`Totp.VerifyAfterConfirmIff`, `Totp.ConfirmingCodeSignsIn`).
- The password-hash parser accepts texts the rehash check refuses (`Password.PrefixedHashIsRefused`).
- The empty part list and the list of one empty part share a record key (`RecordKey.KeysAgreeIff`).
- `README.md:34` of the repository names PBKDF2 as the password hash; the code writes Argon2id and keeps
  PBKDF2 for old hashes only. The model follows the code.

## Model

| member | source | states |
|---|---|---|
| `Audit.VerifyChain` | backend/internal/audit/service.go:141-179 | verification succeeds exactly on the lists that are, in some order, a chained log: numbered 1, 2, 3, …, each event linked to the hash before it and carrying its own hash |
| `Audit.ChainedLogsAgree` | backend/internal/audit/service.go:226-256 | two chained logs that end in the same hash are equal event by event, or the lemma returns a collision of the hash taken from the two logs |
| `Audit.TamperEvidence` | backend/internal/audit/service.go:141-179 | under an injective hash, two lists that verify and whose newest events carry the same hash hold the same events: an edit, removal, insertion or reordering that still verifies changes the last hash |
| `Audit.RunVerifies` | backend/internal/audit/service.go:53-80 | every run of `Record` calls from an empty store leaves a chained log, which verifies in whatever order its events are supplied |
| `Audit.RecordKeepsChain` | backend/internal/audit/service.go:191-208 | an event filled from the tail of a chained log extends the chain |
| `Audit.InterleavedLogVerifiesIff` | backend/internal/audit/service.go:53-80 | over every run of calls whose tail read and save are separate steps, the log verifies if and only if each call saves with no other save since its read |
| `Audit.InterleavedRecordsBreakChain` | backend/internal/audit/service.go:70-74 | when two calls read the same tail before either saves, the log never verifies again, whatever is in it and whatever is appended |
| `Audit.Service.Record` | backend/internal/audit/service.go:53-80 | one call appends exactly the event filled from the store's tail, whose actor, action, target and metadata are the request's, or rejects the request and leaves the log alone |
| `Audit.MemoryStore.EventsByActor` | backend/internal/audit/store.go:63-80 | the actor's events, newest first, and an error for a blank actor |
| `Audit.MemoryStore.AllEvents` | backend/internal/audit/store.go:83-93 | the log in reverse append order |
| `Audit.SqlStore.EventsByActor` | backend/internal/audit/sql_store.go:55-64 | over rows in any order: the same list the in-memory store returns for the same log |
| `Audit.SqlStore.AllEvents` | backend/internal/audit/sql_store.go:67-73 | over rows in any order: the same list the in-memory store returns for the same log |
| `Audit.SqlStore.Tail` | backend/internal/audit/sql_store.go:76-85 | the last event of the log, as in memory, although rows have no order of their own |
| `Audit.SqlService.Record` | backend/internal/audit/sql_store.go:37-52 | one call keeps the rows a representation of the chained log the in-memory store would hold; a repeated event id is refused without a write |
| `Audit.SortedIsUnique` | backend/internal/audit/sql_store.go:87-102 | with distinct sequence numbers the sorted order is the only sorted permutation, so the library sort's treatment of ties cannot matter |
| `RateLimiter.AuthRateKeys` | backend/internal/httpserver/auth_rate_limiter.go:105-111 | an attempt charges two different keys, or one when it names no subject, and never the same key twice |
| `RateLimiter.RateKeysMeetIff` | backend/internal/httpserver/auth_rate_limiter.go:105-120 | two attempts share a bucket if and only if they share the route and the address, or the route and a subject |
| `RateLimiter.AuthRateLimiter.Allow` | backend/internal/httpserver/auth_rate_limiter.go:45-83 | the answer and the buckets after an attempt are those of pruning, then checking all keys, then charging all of them; a disabled limiter allows everything and changes nothing |
| `RateLimiter.AuthRateLimiter.PruneLocked` | backend/internal/httpserver/auth_rate_limiter.go:86-92 | exactly the buckets that reset before now are dropped |
| `RateLimiter.AuthRateLimiter.constructor` | backend/internal/httpserver/auth_rate_limiter.go:30-42 | limit and window are positive whatever the configuration says: non-positive settings take the defaults |
| `RateLimiter.RefusalKeepsCounts` | backend/internal/httpserver/auth_rate_limiter.go:56-66 | a refused attempt changes no count and no reset time and adds or drops no bucket |
| `RateLimiter.PruningIsInvisible` | backend/internal/httpserver/auth_rate_limiter.go:86-92 | over every run with a clock that never goes back, each attempt is decided as by a limiter that never forgets a bucket |
| `RateLimiter.RunTracks` | backend/internal/httpserver/auth_rate_limiter.go:45-83 | in every reachable state a key's bucket counts the charges since it opened, at most `limit` of them and fewer after its opening one, and fewer than `limit` charges lie less than a window before it opened |
| `RateLimiter.AtMostTwiceTheLimit` | backend/internal/httpserver/auth_rate_limiter.go:45-83 | over every run no key is allowed more than 2 * limit - 1 times in any half-open interval one window long |
| `RateLimiter.BurstAttainsTheBound` | backend/internal/httpserver/auth_rate_limiter.go:45-83 | a run that attains this bound, for every limit and every window of at least two ticks |
| `RateLimiter.BucketsAreWindows` | backend/internal/httpserver/auth_rate_limiter.go:68-81 | in every reachable state a key's bucket resets one window after the last allowed attempt that found no window open |
| `RateLimiter.DecisionByHistory` | backend/internal/httpserver/auth_rate_limiter.go:55-82 | stated on the history of answers alone: an attempt is allowed exactly when each of its keys has no open window or fewer than `limit` allowed attempts in it, and refusals never count |
| `LoginThrottle.LoginLockDuration` | backend/internal/auth/service.go:528-543 | the doubling loop yields 0 for up to five failures and min(60, 2^(n-6)) minutes above, without leaving 64 bits |
| `LoginThrottle.Service.Login` | backend/internal/auth/service.go:197-272 | a locked email is refused with the remaining time; otherwise the answer is a session, a challenge or a refusal as the checks came out, a wrong password is one more failure with its lock, a right one clears the email, and no other email's throttle and nothing else in the store changes |
| `LoginThrottle.Service.RecordFailedLogin` | backend/internal/auth/service.go:507-525 | the store holds one more failure for the email, locked for the duration of its new count; a blank email is refused |
| `LoginThrottle.FailuresAreSpaced` | backend/internal/auth/service.go:494-525 | over every run of attempts and resets the stored throttle reflects the failures since the last reset, and the k-th of them comes at least the sum of the first k-1 lock durations after the first |
| `LoginThrottle.LocksBeforeClosedForm` | backend/internal/auth/service.go:528-543 | that sum is 63 + 60(k-12) minutes from the twelfth failure on |
| `LoginThrottle.GuessesWithin` | backend/internal/auth/service.go:494-543 | within h hours of the first counted failure an email sees at most 10 + h failures unless something resets it |
| `Totp.Service.VerifyTOTPCode` | backend/internal/auth/totp.go:190-237 | the state and answer of one verification: locked out at five failures, replayed and wrong codes counted, accepted codes marked and the counter cleared; an accepted code is that of a 30-second step at most one from the moment's |
| `Totp.Service.ConfirmTOTP` | backend/internal/auth/totp.go:96-154 | the state and answer of one confirmation, including the dropped setup when it is another user's or expired; an accepted code is that of such a step for the waiting secret, which the user then has |
| `Totp.ValidatesIff` | backend/internal/auth/totp.go:274-288 | exactly the codes of the 30-second steps that contain the moment or are at most 30 seconds away from it validate |
| `Totp.AcceptedCodesAreRemembered` | backend/internal/auth/totp.go:221-230 | after every run an accepted code is still marked until its validity window has passed, whatever the configured cache duration |
| `Totp.AcceptancesAreApart` | backend/internal/auth/totp.go:190-237 | two acceptances of the same code for one user are at least three time steps apart |
| `Totp.NoStepIsAcceptedTwice` | backend/internal/auth/totp.go:17-26 | no time step's code is accepted twice while the step is within one step of the clock |
| `Totp.VerifyAcceptedIff` | backend/internal/auth/totp.go:190-237 | over every run a verification succeeds if and only if the code is that of a step at most one from the moment's, fewer than five failures are counted, and no accepted verification of the code is younger than the retention |
| `Totp.ConfirmAcceptedIff` | backend/internal/auth/totp.go:96-154 | a confirmation succeeds if and only if the session waits for one of this user that has not expired, the code is that of such a step for the waiting secret, fewer than five failures are counted and the user is stored |
| `Totp.VerifyAfterConfirmIff` | backend/internal/auth/totp.go:96-154 | an accepted confirmation clears the failure counter, and with fewer than five attempts of the user after it a verification with the same code succeeds if and only if no accepted verification of the code is remembered: the confirmation does not use the code up |
| `Totp.ConfirmingCodeSignsIn` | backend/internal/auth/totp.go:96-154 | a run in which one code first confirms a setup and then is accepted by a verification |
| `Totp.FailuresAreBounded` | backend/internal/auth/totp.go:190-219 | over every run the failure counter never passes five |
| `Totp.FiveFailuresLockForGood` | backend/internal/auth/totp.go:190-197 | once the counter is at five no code of that user is accepted in any continuation, not even to confirm a setup |
| `Money.RoundRatIsRounding` | backend/internal/ledger/money.go:104-122 | the result is a nearest integer, the one farther from zero on a tie |
| `Money.RoundingIsUnique` | backend/internal/ledger/money.go:104-122 | there is only one such integer, so the previous row characterizes the rounding |
| `Money.RoundRatIsOdd` | backend/internal/ledger/money.go:104-122 | rounding commutes with negation |
| `Money.RoundRatIsMonotone` | backend/internal/ledger/money.go:104-122 | rounding is monotone in the value, however the fractions are written |
| `Money.ToInt64Exact` | backend/internal/ledger/money.go:104-122 | the 64-bit result is congruent to the rounded integer modulo 2^64, and equal to it exactly when that fits |
| `Money.ParseUndoesRateText` | backend/internal/ledger/money.go:78-95 | every text of the grammar parses to exactly the pair and the fraction it spells, unless its value is zero |
| `Money.ParsedTextIsRateText` | backend/internal/ledger/money.go:78-95 | nothing else parses |
| `Money.ConversionSucceedsIff` | backend/internal/ledger/money.go:32-75 | with a complete rate table a conversion succeeds exactly when both currencies are supported and an explicit rate, if needed, names this pair in either direction: the amount and the table do not matter, and no division by zero can happen |
| `Money.TableConversionIs` | backend/internal/ledger/money.go:32-75 | without an explicit rate the converted amount is the nearest integer to amount times the target's units per dollar over the source's, its low 64 bits if that does not fit, and within one currency the amount itself |
| `Money.ExplicitConversionIs` | backend/internal/ledger/money.go:46-61 | an explicit rate of one currency in another multiplies on the way there and divides on the way back, by exactly the decimal the text spells |
| `Money.ConversionScales` | backend/internal/ledger/money.go:32-75 | every successful conversion multiplies by one positive factor that does not depend on the amount; the previous two rows say which |
| `Money.ConversionIsMonotone` | backend/internal/ledger/money.go:32-75 | a larger amount never converts to less while results fit in 64 bits |
| `Money.RoundTripError` | backend/internal/ledger/money.go:32-75 | scaling by f, rounding, scaling back and rounding is off by at most 1/2 + 1/(2f) cents, and exact when f is at least one |
| `Money.ShrinkingFactorLoses` | backend/internal/ledger/money.go:104-122 | below one the first amount that does not come back is the first whose double times 1 - f reaches f; all smaller ones return |
| `Money.RoundTripIsExactUpTo` | backend/internal/ledger/money.go:104-122 | all amounts up to n return if and only if the factor is at least one or n itself returns |
| `Money.RoundTripIsExactIff` | backend/internal/ledger/money.go:104-122 | a factor gives every 64-bit amount back if and only if it is at least one or 2^64 (1 - f) < f |
| `Money.ExplicitRateRoundTrip` | backend/internal/ledger/money.go:32-75 | converting there and back with one explicit rate is that round trip, in both writings of the rate, for every amount whose results fit in 64 bits |
| `Money.ExplicitRateReturnsAllIff` | backend/internal/ledger/money.go:32-75 | every 64-bit amount whose conversion fits is given back by the code, low 64 bits included, under exactly that condition |
| `Rates.NormalizeExchangeRates` | backend/internal/ledger/rates.go:215-235 | each supported currency keeps the rate of its first row, other rows are dropped, no currency occurs twice, and the rows ascend by currency |
| `Rates.ExchangeRateIndex` | backend/internal/ledger/rates.go:136-161 | the index exists exactly when every supported currency's first row is a positive number, and then holds those numbers |
| `Rates.IndexIs` | backend/internal/ledger/rates.go:136-161 | stated on the stored rows: the index exists if and only if each of the four currencies is first listed at a positive number, and maps it to that number |
| `EcbRates.RatesFromECBCubes` | backend/internal/ledger/rates.go:164-202 | succeeds exactly when every quote of a supported currency is positive and each has one; the table then lists each supported currency at its exact cross rate rounded to eight decimals, and nothing else |
| `EcbRates.RefreshExchangeRates` | backend/internal/ledger/rates.go:92-106 | the stored table becomes the fetched one, each supported currency at its first row, and nothing else in the ledger changes |
| `EcbRates.FloatStringParses` | backend/internal/ledger/rates.go:193-198 | reading a printed rate back gives exactly the rate rounded to eight decimals |
| `EcbRates.RefreshedTableIndexesIff` | backend/internal/ledger/rates.go:136-202 | a table refreshed without an error has an index if and only if no cross rate is below half a unit of the eighth decimal, and then each read rate is a nearest multiple of that unit |
| `EcbRates.TinyQuoteBreaksIndex` | backend/internal/ledger/rates.go:136-202 | three concrete quotes and the table a refresh makes of them, which lists the yuan at 0.00000000; neither it nor any other table of these rates has an index |
| `LedgerStore.MemoryStore.CreateBook` | backend/internal/ledger/store.go:189-229 | all of book, owner and categories are written, or nothing is; exactly the conflicts of the source refuse it |
| `LedgerStore.MemoryStore.UpdateBookMember` | backend/internal/ledger/store.go:252-271 | replaces the row of an existing member of an existing book and nothing else |
| `LedgerStore.MemoryStore.DeleteBookMember` | backend/internal/ledger/store.go:274-288 | removes exactly that member's row |
| `LedgerStore.MemoryStore.UpdateCategory` | backend/internal/ledger/store.go:454-469 | replaces the first row with this book and id, or fails without a write |
| `LedgerStore.MemoryStore.DeleteEntry` | backend/internal/ledger/store.go:398-411 | removes the first row with this book and id, or fails without a write |
| `Books.BookMembers` | backend/internal/ledger/store.go:167-186 | exactly the book's members, by ascending user id |
| `Books.OwnerCount` | backend/internal/ledger/books.go:339-348 | the number of owners in the list |
| `Books.FindIsLookup` | backend/internal/ledger/books.go:328-336 | searching the member list is looking the member up by id |
| `Books.AnotherOwner` | backend/internal/ledger/books.go:351-359 | with more than one owner listed there is one besides any given user, and it is a stored member |
| `Books.AddBookMember` | backend/internal/ledger/books.go:145-182 | result and every store write of the call |
| `Books.UpdateBookMemberRole` | backend/internal/ledger/books.go:185-226 | result and every store write of the call: the member row first, then the book when its primary owner changes |
| `Books.ReconcilePrimaryOwner` | backend/internal/ledger/books.go:362-382 | the book is rewritten exactly when the primary owner must change, and the call fails without a write exactly when no other owner is listed or the book is not stored |
| `Books.RemoveBookMember` | backend/internal/ledger/books.go:229-269 | result and every store write of the call |
| `Books.UpdateBook` | backend/internal/ledger/books.go:101-128 | result and the single write of the call |
| `Books.CreateBook` | backend/internal/ledger/books.go:47-88 | result and the single write of the call |
| `Books.AddMeans` | backend/internal/ledger/books.go:145-182 | a member is added exactly by a manager of a stored book, with a role below owner; someone who is a member stays as they are, and nothing else changes |
| `Books.ChangeMeans` | backend/internal/ledger/books.go:185-226 | a role is changed exactly by a manager, to one of the four roles, and not from the last owner; the member has the requested role, a new owner becomes the primary owner, a primary owner who steps down is followed by the first other owner by user id, and nothing else changes |
| `Books.RemoveMeans` | backend/internal/ledger/books.go:229-269 | a member is removed exactly by a manager and unless they are the last owner; the primary owner follows the same rule, and nothing else changes |
| `Books.SettingsMean` | backend/internal/ledger/books.go:101-128 | settings are changed exactly by a manager who gives a valid name or a supported currency; the book has the given values, and its old ones otherwise |
| `Books.CreateMeans` | backend/internal/ledger/books.go:47-88 | exactly which books can be created; the creator is the owner, and the categories are the default ones |
| `Books.CallKeepsOwners` | backend/internal/ledger/books.go:145-269 | after every single store write of every call each book still has an owner, and when the call returns the primary owner is a member with the owner role |
| `Books.RunKeepsOwners` | backend/internal/ledger/books.go:47-269 | the same over every run of calls, between the writes of a call included |
| `Categories.ForestIffAcyclic` | backend/internal/ledger/accounts_categories.go:384-431 | every walk up ends at a root if and only if parents are listed and nothing is its own proper ancestor |
| `Categories.ReparentIff` | backend/internal/ledger/accounts_categories.go:424-428 | giving a category a parent keeps the forest if and only if the parent is not the category itself or one of its descendants |
| `Categories.ValidateCategoryFields` | backend/internal/ledger/accounts_categories.go:384-431 | in a forest the ancestor walk terminates, and it reports a cycle exactly when the new parent is the category or below it |
| `Categories.CreateCategory` | backend/internal/ledger/accounts_categories.go:220-259 | result and new state of the call: a manager's new category has exactly the requested fields and is appended |
| `Categories.UpdateCategory` | backend/internal/ledger/accounts_categories.go:262-300 | result and new state of the call: the stored and returned category has each of the six fields as the request gives it and as before where it does not, its id and book unchanged, and the rest of the list is as before |
| `Categories.UpdateKeepsForest` | backend/internal/ledger/accounts_categories.go:262-300 | a successful update keeps every book's categories a forest with links inside the book |
| `Categories.CreateKeepsForest` | backend/internal/ledger/accounts_categories.go:220-259 | a successful creation keeps every book's categories a forest with links inside the book |
| `Seed.DefaultsAreWellFormed` | backend/internal/ledger/seed.go:144-220 | the built-in table has distinct keys and lists each parent before its children |
| `Seed.DefaultCategoriesAreRows` | backend/internal/ledger/seed.go:222-243 | each default category has its row's name, direction and order, and the category of its parent's row as parent |
| `Categories.DefaultsComeParentsFirst` | backend/internal/ledger/seed.go:222-243 | the default categories of a new book list each parent before its children, under shared fresh ids, for every table with that property |
| `Categories.CreateBookKeepsForest` | backend/internal/ledger/store.go:189-229 | a new book's default categories keep every book's categories a forest |
| `Categories.RunKeepsForest` | backend/internal/ledger/accounts_categories.go:220-300 | in every state reachable by any run of book and category calls each book's categories form a forest, so the next ancestor walk terminates |
| `Categories.ReachableForests` | backend/internal/ledger/accounts_categories.go:220-300 | the same for every ledger that calls build from nothing with the built-in table, with nothing assumed but non-empty ids |
| `Categories.UpdateRefusesExactlyCycles` | backend/internal/ledger/accounts_categories.go:384-431 | of a manager's updates whose other fields are valid, the service refuses exactly those whose requested parent would break the forest |
| `Categories.UpdateSucceedsIff` | backend/internal/ledger/accounts_categories.go:262-300 | an update succeeds if and only if a manager gives some field of a stored category, its fields stay valid, its parent is listed with its direction, and the forest is kept |
| `Summary.Summarize` | backend/internal/ledger/service.go:100-126 | the loop succeeds exactly when every entry in range converts, and computes the unbounded sum of the contributions cut to 64 bits once |
| `Summary.BalanceIsConserved` | backend/internal/ledger/service.go:108-125 | balance = income + refunds - expenses, wrap-around included |
| `Summary.SummaryIgnoresOrder` | backend/internal/ledger/service.go:100-126 | any permutation of the entries gives the same summary and the same success |
| `Summary.SummaryIsAdditive` | backend/internal/ledger/service.go:213-239 | for every cut after a day m, start..end is the sum of start..m and the day after m..end, and succeeds exactly when both do |
| `Summary.ReportedTotalsAdd` | backend/internal/ledger/service.go:108-125 | the additivity carries over to the reported 64-bit figures |
| `Summary.SummaryReports` | backend/internal/ledger/service.go:100-126 | the reported income, expense and refund figures are the amounts of the entries of the kinds that belong to each, those of the book from the start date to the end of the end date's day, added up and cut to 64 bits; the counts are theirs |
| `Entries.CreateEntry` | backend/internal/ledger/entries.go:61-145 | result and new state of the call, in terms of the stored ledger and rate table; the stored entry is the one requested, on an account the actor can see |
| `Entries.UpdateEntry` | backend/internal/ledger/entries.go:164-248 | result and new state of the call; each field of the stored entry is the request's where it gives one and the old one otherwise |
| `Entries.DeleteEntry` | backend/internal/ledger/entries.go:305-318 | succeeds exactly for a manager of the book, or a plain member who booked the entry, and removes that row only |
| `Entries.CreateSucceedsIff` | backend/internal/ledger/entries.go:61-145 | a creation succeeds if and only if a member who is no viewer books it for themselves, or a manager for another member, with visible accounts, a fitting active category, valid fields and convertible currencies, under a new id |
| `Entries.UpdateSucceedsIff` | backend/internal/ledger/entries.go:164-248 | an update succeeds if and only if the actor may change the entry, gives some field, and the changed entry is in order, with accounts visible where they are changed |
| `Entries.BookSummary` | backend/internal/ledger/service.go:53-135 | succeeds exactly for a member of an existing book when the rate index exists and every entry in range converts; each figure is the sum of the selected entries of its kinds, each at its own amount converted to the book's currency |
| `Entries.StoredIsReportable` | backend/internal/ledger/entries.go:406-454 | what a successful creation or update stores converts to the book's currency by any complete rate table, not only the one it was checked with |
| `Entries.RunKeepsReports` | backend/internal/ledger/entries.go:61-248 | in every run of entry calls, rate replacements and book calls that changes no reporting currency, all stored entries stay convertible to their book's currency |
| `Entries.ReportableSummariesConvert` | backend/internal/ledger/service.go:104-107 | so a summary never fails on a conversion, whatever complete table is stored when it is asked for |
| `Entries.ChangedSummaryConvertsIff` | backend/internal/ledger/books.go:115-119 | from a state in which all entries are reportable, after a successful change of a book's reporting currency the book's unfiltered summary converts by any complete table if and only if each entry of the book is in the new currency, names no rate, or names a rate between its currency and the new one |
| `Entries.CurrencyChangeCanBreakReports` | backend/internal/ledger/books.go:115-119 | a ledger whose one entry is in euros at a EUR/USD rate: everything is reportable until the owner switches the book from USD to CAD |
| `ImportReferences.SplitWacaiCategoryPath` | backend/internal/httpserver/import_routes.go:627-640 | the trimmed non-blank stretches between separators, in order |
| `ImportReferences.PartsOfJoined` | backend/internal/httpserver/import_routes.go:627-640 | parts joined by any of the three separators, with blanks around them or not, are split into exactly these parts |
| `ImportReferences.CategoryIDByPathDirection` | backend/internal/httpserver/import_routes.go:600-611 | the id the whole path leads to from the root, and the empty id when a part is missing |
| `ImportReferences.WalkIsStable` | backend/internal/httpserver/import_routes.go:600-624 | appending categories never changes the id a resolved path leads to |
| `ImportReferences.AccountIsStable` | backend/internal/httpserver/import_routes.go:549-559 | appending accounts never changes the id a name and currency resolve to |
| `ImportReferences.ResolvedPathIsStored` | backend/internal/httpserver/import_routes.go:600-624 | in loaded lists a resolved path leads to a stored active category of the book with the last part's name and the direction |
| `ImportReferences.ResolvedAccountIsListed` | backend/internal/httpserver/import_routes.go:549-559 | a resolved name leads to a listed account with that name and currency |
| `ImportReferences.NewPartResolves` | backend/internal/httpserver/import_routes.go:562-597 | a category created for a missing part resolves that part and keeps siblings unique |
| `ImportReferences.EnsureWacaiImportCategory` | backend/internal/httpserver/import_routes.go:562-597 | on success the path resolves, the old list is a prefix of the new one, the new list is again exactly the book's stored categories, nothing is created for a path that resolved before, and the stored categories stay a forest |
| `ImportReferences.EnsureWacaiImportAccount` | backend/internal/httpserver/import_routes.go:516-546 | on success a non-blank name and currency resolve, the list is again exactly the actor's stored accounts, and nothing is created when they resolved before |
| `ImportReferences.EnsureWacaiImportReferences` | backend/internal/httpserver/import_routes.go:342-383 | on success the references of all wanted rows resolve together in the final lists, which extend the initial ones and are exactly what is stored, and exactly the rows that no list could map will be skipped |
| `ImportReferences.SkippedIffUnmappable` | backend/internal/httpserver/import_routes.go:386-430 | once its references resolve, a row is skipped if and only if it has errors, an unknown type, a blank account where one is needed, or a category text of separators and blanks only |
| `ImportReferences.CommitWacaiRow` | backend/internal/httpserver/import_routes.go:386-442 | a skipped row writes nothing; a booked row appends one entry whose kind is the meaning of its type text, with the row's amount, date, currency and creator, accounts of the row's names and currency, and a category of the path's last name and the direction of the type |
| `ImportReferences.CommitWacaiBatch` | backend/internal/httpserver/import_routes.go:215-245 | on success imported + skipped = rows, the ledger holds the entries of exactly the mappable rows in row order, and the book's income, expense and refund sums grow by the amounts of the rows with the types that belong to each |
| `ImportApplies.Apply` | backend/internal/httpserver/import_routes.go:91-160 | one uninterrupted apply: refused or replayed without a write, or else the ledger gains exactly the reported entries, those of the mappable rows, the book's sums grow by the rows' amounts, and the batch is applied with exactly these ids |
| `ImportApplies.UninterruptedAppliesBookOnce` | backend/internal/httpserver/import_routes.go:91-160 | over every run of previews and uninterrupted applies a batch is booked completely once if it is applied and never otherwise; the only further bookings are those of commits that broke off |
| `ImportApplies.FourStepsAreApplied` | backend/internal/httpserver/import_routes.go:98-146 | the load, the commit and the two halves of the mark, taken in a row, are one uninterrupted apply |
| `ImportApplies.BookedNoMoreIff` | backend/internal/httpserver/import_routes.go:98-146 | in every reachable state of interleaved applies no continuation books a stored batch again if and only if no request can load it for a commit any more and no apply has loaded it without having booked it |
| `ImportApplies.ClosedBatchIsBookedAtMost` | backend/internal/httpserver/import_routes.go:98-146 | a batch that no request can load for a commit any more, an applied one for one, is booked at most once more for every apply that has loaded it and not booked it yet, and as often as that in some continuation |
| `ImportApplies.InterleavedAppliesBookTwice` | backend/internal/httpserver/import_routes.go:98-146 | a run from the empty system, for every upload without row errors and any two requests for its batch, that books the batch completely twice and leaves it naming the first booking only |
| `ImportBatches.Service.PreviewWacaiFile` | backend/internal/imports/service.go:38-96 | one uninterrupted call: exactly when it succeeds, the new state, and that the returned batch is the one indexed under the user and hash, with the parsed rows if it is new |
| `ImportBatches.Service.MarkApplied` | backend/internal/imports/service.go:125-167 | one uninterrupted call: exactly when it succeeds, the new state, and that the result is the stored batch with the requested metadata, or as it was if it was applied before |
| `ImportBatches.Normalized` | backend/internal/imports/service.go:176-186 | exactly the trimmed non-blank ids, none twice |
| `ImportBatches.NormalizeAppliedEntryIDs` | backend/internal/imports/service.go:176-186 | the loop computes that list |
| `ImportBatches.MemoryStore.SaveBatchIfAbsent` | backend/internal/imports/store.go:74-87 | inserts and indexes the batch exactly when its key is new, and returns the batch the index names |
| `ImportBatches.KeyTextIsInjective` | backend/internal/imports/store.go:116-118 | for digests of one length the index text determines user, source and hash |
| `ImportBatches.ReachKeepsInvariant` | backend/internal/imports/service.go:56-96 | in every interleaving of any number of previews and marks, split at each store operation, the hash index stays the exact inverse of the batches and pending saves own their ids |
| `ImportBatches.PreviewsAgree` | backend/internal/imports/service.go:56-96 | in every interleaving all finished previews of the same user and bytes returned the same stored batch |
| `ImportBatches.AppliedBatchesAreFrozen` | backend/internal/imports/service.go:125-167 | with uninterrupted calls an applied batch never changes again |
| `ImportBatches.AppliedIsFinalIff` | backend/internal/imports/service.go:125-167 | in every reachable state of interleaved calls an applied batch is the same after every continuation if and only if no mark that loaded it earlier is about to save other metadata |
| `ImportBatches.InterleavedMarksOverwrite` | backend/internal/imports/service.go:135-166 | a run from the empty system, for every upload and any two valid marks of its batch, that applies the first mark and then replaces its metadata by the second one's |
| `AuthStore.RunKeepsIndexes` | backend/internal/auth/store.go:93-425 | in every reachable state users by id and by email, and passkeys by id and by credential id, are mutually inverse, and every record carries the key it is stored under |
| `AuthStore.MemoryStore.UserByEmail` | backend/internal/auth/store.go:111-121 | finds exactly the stored user with this email |
| `AuthStore.MemoryStore.PasskeyByCredentialID` | backend/internal/auth/store.go:441-451 | finds exactly the stored passkey with this credential id |
| `AuthStore.MemoryStore.CreateUser` | backend/internal/auth/store.go:93-108 | result and new state: refused exactly when the id or the email is taken |
| `AuthStore.MemoryStore.DeletePasskey` | backend/internal/auth/store.go:413-425 | both index entries go, exactly when the passkey is the user's own |
| `AuthStore.MemoryStore.DeleteSessionsByUser` | backend/internal/auth/store.go:184-194 | exactly the user's sessions go, in whatever order the map is walked |
| `AuthStore.Rewrite` | backend/internal/auth/store.go:201-222 | walking a map in any order: the visited entries transformed, the others untouched, success exactly when every entry can be transformed |
| `AuthStore.MemoryStore.TOTPReplayExists` | backend/internal/auth/store.go:299-314 | a marker counts until its expiry and is dropped when it is read after it |
| `AuthStore.MemoryStore.MigrateTOTPSecrets` | backend/internal/auth/store.go:197-225 | new state of a complete or broken-off migration |
| `AuthStore.MemoryStore.Snapshot` | backend/internal/auth/store_snapshot.go:77-125 | each list of the snapshot holds exactly the map's entries once, in some order |
| `AuthStore.MemoryStore.FromSnapshot` | backend/internal/auth/store_snapshot.go:27-74 | the rebuilt store, for any snapshot, as maps folded from the lists |
| `AuthStore.MergeThrottles` | backend/internal/auth/store_snapshot.go:49-63 | every throttle under its key with a blank email filled in, and a legacy failure count exactly where there is no throttle |
| `AuthStore.ListFoldsTo` | backend/internal/auth/store_snapshot.go:27-74 | a list of a map's entries, in any order, rebuilds the map their keys and values determine |
| `AuthStore.SnapshotRoundTrip` | backend/internal/auth/store_snapshot.go:27-125 | rebuilding any reachable store from any snapshot of it gives back the same store |
| `Password.ParseArgon2idParams` | backend/internal/auth/password.go:227-267 | the loop assigns the parts in turn and stops at the first error |
| `Password.ParseUndoesFormat` | backend/internal/auth/password.go:148-193 | for every salt, every key of at least 32 bytes and all costs in range, parsing the printed text gives back exactly those values |
| `Password.ParsedIsPrintable` | backend/internal/auth/password.go:148-193 | whatever the parser accepts is in range, and prints to a text that parses to the same values |
| `Password.FreshIffParsed` | backend/internal/auth/password.go:96-114 | no accepted text is ever reported for a rehash; a text is reported fresh if and only if the parser accepts it and it starts with the separator, and for a rehash if and only if it names another algorithm |
| `Password.PrefixedHashIsRefused` | backend/internal/auth/password.go:138-145 | the gap between the two: behind any non-empty prefix a text that starts with the separator parses as before and is refused by the rehash check |
| `Password.VerifyAcceptsIff` | backend/internal/auth/password.go:35-93 | a new hash needs no rehash and verifies exactly the passwords that derive the same key |
| `Password.HashIsText` | backend/internal/auth/password.go:35-62 | passwords of 8 to 1024 characters are hashed, into the text with version 19, 19456 KiB, two iterations and one lane, the salt and the 32-byte key |
| `Base64.TestVectors` | backend/internal/auth/password.go:46-47 | a test vector of section 10 of RFC 4648, and the two characters in which the alphabets differ |
| `Base64.DecodeUndoesEncode` | backend/internal/auth/password.go:46-47 | decoding undoes encoding for every byte string in both alphabets of RFC 4648, sections 4 and 5 |
| `Base64.DecodeFailsIff` | backend/internal/auth/password.go:175-183 | the decoder refuses exactly foreign characters and a length of 4k + 1, line breaks aside |
| `RecordKey.JoinKey` | backend/internal/persistence/sql_store.go:48-54 | the loop joins the encoded parts |
| `RecordKey.KeysAgreeIff` | backend/internal/persistence/sql_store.go:48-54 | two part lists share a key if and only if they are equal or are the empty list and the list of one empty part: the key is injective on non-empty lists |
| `Keyring.New` | backend/internal/crypto/keyring/keyring.go:52-79 | the loop builds the ring or stops at the first error |
| `Keyring.RingExistsIff` | backend/internal/crypto/keyring/keyring.go:52-79 | a ring exists if and only if every secret that is not a blank retired one is long enough and all derived ids are different |
| `Keyring.CiphertextSplits` | backend/internal/crypto/keyring/keyring.go:202-212 | a ciphertext is recognised and splits into exactly its key id and its encoded blob |
| `Keyring.SomeCipherIsSound` | backend/internal/crypto/keyring/keyring.go:214-224 | what is assumed of the cipher can be met: a cipher exists that opens what it seals, adds sixteen bytes, and tells two given associated data apart |
| `Keyring.OpenUndoesSeal` | backend/internal/crypto/keyring/keyring.go:87-172 | the four parts of an envelope are cut where they were joined, so opening undoes sealing |
| `Keyring.DecryptUndoesEncrypt` | backend/internal/crypto/keyring/keyring.go:128-172 | decryption undoes encryption for every plaintext and associated data in every ring that has the key; any other ring reports the key as not available |
| `Keyring.OtherDataIsRefused` | backend/internal/crypto/keyring/keyring.go:128-172 | a ciphertext is refused under other associated data if the cipher tells the two apart |
| `Keyring.RotationKeepsSecrets` | backend/internal/crypto/keyring/keyring.go:52-79 | a ring built with the old active secret among its retired ones decrypts all the old ring encrypted |
| `TotpSecrets.EncryptionKeepsSecret` | backend/internal/auth/totp.go:250-267 | encrypting a stored secret leaves its decryption unchanged, and encrypting the result again changes nothing |
| `TotpSecrets.EncryptionSeals` | backend/internal/auth/totp.go:250-256 | with a keyring every non-blank secret is stored under the enc:v1: prefix, and one that was plaintext under the active key, so that a ring without that key cannot read it |
| `TotpSecrets.SecretIsBoundToUser` | backend/internal/auth/totp.go:250-272 | one user's stored secret is refused as another's if the cipher tells their associated data apart |
| `TotpSecrets.MigrationKeepsSecrets` | backend/internal/auth/totp.go:240-248 | a migration, complete or broken off, changes no decrypted secret and no other field |
| `TotpSecrets.MigratingTwiceIsOnce` | backend/internal/auth/totp.go:240-248 | after a complete migration every further one succeeds without randomness and changes nothing |
| `TotpSecrets.Service.MigrateTOTPSecrets` | backend/internal/auth/totp.go:240-248 | without a keyring nothing changes; otherwise the store is migrated with the service's encryption, and after a success no secret of a user or a pending setup is plaintext and the former plaintexts need the active key |

## Left out

- Creation and update timestamps, display data, notes, merchants and tags with their length checks.
- Trimming and upper-casing of ids, emails, currencies and rate texts at the edge of the services; Unicode white space and case folding.
- Text lengths count characters of the model's strings; the difference between bytes, runes and code points is not modelled.
- Audit metadata sanitizing, pagination, subject hashing and the JSON encoding of the hashed payload: the hash is a function of the payload's fields.
- `big.Rat.SetString` on stored rates and quotes is a parameter; in explicit rates its input is restricted by the pattern, and that grammar is modelled. The download of the euro quotes is left out, and so is the timer that repeats it.
- The `accounts` and `categories` lists of a summary response, account groups and account types, unsharing of accounts.
- The wording of errors. A category cycle has an error of its own in the model, where the source returns its invalid-input error.
- Parsing of import files, header detection, amounts and dates: rows carry the parsers' results. Member mappings are a map from row number to creator; reading an applied batch's entries back is left out.
- File-name and size checks of a preview, and the batch's detected schema.
- Registration, single sign-on, sessions' contents, email codes, passkey ceremonies and Turnstile. A login attempt carries the outcome of its checks, and the one-time-code check inside it is `Totp`.
- The legacy PBKDF2 parser and verifier: `Password.VerifyPassword` takes it as a parameter.
- SQL rows are a map and their order arbitrary; file stores and migrations are left out.
- Go's mutexes, contexts and wrapped store errors: in-memory operations fail only as their code says. Copies are values, so aliasing between callers and stores is not modelled.
- The keyed reads of the authentication store (sessions, email codes, pending setups, counters, ceremonies).
- Totp.NoStepIsAcceptedTwice: is about verification only; what a confirmation changes is `Totp.VerifyAfterConfirmIff`.
- Totp.Service.ConfirmTOTP: takes the pending secret as already decrypted; encryption at rest is in `TotpSecrets`. Users and pending setups are kept as the fields used there.
- ImportApplies.Apply: takes the lists and member mappings it starts from as parameters and returns ids for entries; reading a replayed batch's entries back from the ledger is left out.
- LoginThrottle.Service.Login: covers the throttle path and leaves out user records, sessions and rehashing.
- Keyring.DecryptUndoesEncrypt: is about ciphertexts the ring produced; that forged ones are refused is a property of AES-GCM and not stated beyond `Keyring.OtherDataIsRefused`.
- ImportReferences.CommitWacaiBatch: says nothing about references already created when a later row aborts the import; the source leaves them in place, too.
