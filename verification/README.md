# A verified model of the donation backend

The backend takes gifts through several payment rails, records provider webhooks, lets donors
manage their monthly gift, and runs a small blog behind an admin login. This project restates its
stateful core in Dafny and proves what the code keeps, over every interleaving, every history or
every input. `dafny verify dfyconfig.toml` checks everything.

| file | what it holds |
|---|---|
| `Options.dfy`, `Tables.dfy` | rows, unique indexes, a transaction's pending writes and their effect |
| `Ledger.dfy` | the ledger's writers and the handlers driving them, as methods on a session tied to functions on tables |
| `Interleaving.dfy` | any number of handlers as a step system; the invariant of every run; serializability |
| `Alone.dfy` | the steps of one transaction with nothing beside it add up to its handler |
| `Guarantees.dfy` | at-most-once recording and marking, atomic commits, inert retries |
| `Deadlock.dfy` | acyclic waiting and termination |
| `EventTable.dfy`, `MonthlyGifts.dfy` | the webhook and the subscription table of every interleaving, row by row |
| `TestRail.dfy` | which donations the committed test gifts left; when events and donations are whole pairs and amounts conserved |
| `Deliveries.dfy` | webhook calls and confirmed payments taken one at a time: order and repetition |
| `RateLimiter.dfy` | the sliding-window login limiter against its full history; bounds; optimality |
| `Manage.dfy`, `Consent.dfy`, `Posts.dfy` | subscription, consent and publication histories |
| `Uuid7.dfy`, `Money.dfy`, `Phone.dfy`, `TokenCache.dfy` | identifiers, rounding, phone numbers, the cached access token |

## How the database is modelled

A state is the committed tables plus every open transaction with its program counter, pending
writes and held keys. A SELECT sees committed rows and the transaction's own writes. An INSERT of
a key another open transaction holds waits until that one ends; an INSERT of a committed key
aborts. An UPDATE of a committed row waits for that row and then holds it (a donor's consent, an
event's mark). A transaction may abort or crash before any step. *Every* sequence of actions is a
run, because an action that cannot happen changes nothing; all theorems about runs are therefore
about all interleavings. Runs start from empty tables.

Decisions that belong to the outside world are arguments: whether a provider is available, whether
a signature verifies, whether a body parses, what a mail server does, which row an unordered query
yields first, the clock, the row ids and the random tokens.

## Where the code and its comments differ

* `normalize_phone` says it accepts 07…, 01…, 2547… and +2547…, yields 2547… or 2541…, and
  raises on anything else. Any twelve digits starting 254 pass unchanged, and nine digits starting
  7 or 1 are accepted. `Phone.PromiseHoldsIff` says exactly when the result has the promised form,
  `Phone.RaisesAsDocumentedIff` exactly when an input is accepted as documented, and
  `Phone.OtherPrefixesPass` gives an input that fails both.
* The webhook module says an event is processed by updating donations and subscriptions. `_handle`
  only marks the row. A process that dies between its two commits leaves a `received` row that no
  retry reprocesses, so processing is at most once, and happens exactly when the first verified
  delivery gets to its second commit (`Deliveries.ProcessedIffFirstCompletes`).
* The limiter reads a clock that may run backwards, and then its pruned list can admit a call that
  a list of all past admissions would refuse. `RateLimiter.AgreesIffFewLost` says exactly when the
  two agree, on any clock; `RateLimiter.AgreesIff` gives the condition in closed form for the first
  reading that may be out of order; `RateLimiter.BackwardClockOverAdmits` is a failing run for every
  limit above one, the deployed five in 300 seconds among them.
* A committed test gift can leave no donation, in two ways. With a repeated payment token the
  idempotent donation writer takes it for a retry: an event and no donation
  (`TestRail.RepeatedTokenLosesTheGift`). With an event id already recorded it is taken for a
  retried event: neither event nor donation, and for a monthly gift an active subscription without
  its first donation (`TestRail.RepeatedEventIdLosesTheGift`). `TestRail.TestRailIsAtomic` and
  `TestRail.DonationsAreTheGifts` assume nothing about the random tokens and say, over every gift
  that committed, exactly when each has its event and its donation and when amounts are conserved.
* `int.to_bytes` raises for a timestamp of 2^48 ms or more; `Uuid7.Generate` keeps that case.

## Model

| member | source | states |
|---|---|---|
| Ledger.Session.RecordWebhookEvent | app/services/ledger.py:20-49 | new exactly when the id is untaken; only then is one row appended; the row handed back is always the one stored under the id |
| Ledger.Session.MarkEventProcessed | app/services/ledger.py:52-57 | only the named event's row changes: its time, error and status are those of the outcome, its attempts one or two more, everything else kept |
| Ledger.Session.RecordDonation | app/services/ledger.py:60-91 | idempotent on the payment id: a taken id leaves the tables alone and hands back the stored row |
| Ledger.Session.ActivateSubscription | app/services/ledger.py:94-97 | exactly one row becomes active, from now unless it had started; nothing else of it changes |
| Ledger.Session.GetOrCreateDonor | app/routers/donations.py:24-35 | the id handed back belongs to a row with that email; a known email changes nothing; a new one adds one row with the form's names and country and no consent |
| Ledger.Session.StampConsent | app/routers/donations.py:50-53 | with the box ticked the row with the form's email, and no other, gets consent, its time and its source; otherwise nothing changes |
| Ledger.Session.AddSubscription | app/routers/donations.py:123-134 | refused exactly when provider and provider subscription id are taken; otherwise one row with the form's id, rail, amount, currency and fee choice, active from now on the test rail and pending elsewhere |
| Ledger.Session.RecordGift | app/routers/donations.py:64-78 | the test rail's event, donation and mark, each only when the event is new |
| Ledger.Session.CreateOneOff | app/routers/donations.py:38-94 | exactly when it answers 422, 200 or an error; on 200 the donor row, its consent, the event and the donation say what the form said, field by field, and nothing else changes; otherwise nothing does |
| Ledger.Session.CreateSubscription | app/routers/donations.py:97-165 | the same for a monthly gift, which also needs a free subscription id and adds one subscription row saying what the form said, of the donor with its email |
| Ledger.Session.Handle | app/routers/webhooks.py:30-69 | 401 exactly when the provider is unavailable or the signature fails, and then nothing changes; a known id changes nothing; a new one adds one row with the delivery's provider, id, type, body, signature flag and time, standing where the call ended |
| Ledger.TxIsDone | app/routers/donations.py:38-165 | a committed gift changes the donor, subscription, event and donation tables exactly as its form says |
| Interleaving.InvHolds | app/routers/donations.py:24-165 | the protocol invariant holds after every sequence of actions: unique indexes, disjoint key holdings, claims in order, each open transaction's knowledge still true |
| Interleaving.Stable | app/services/ledger.py:34-49 | what an open transaction learned from its SELECTs and INSERTs survives any commit that does not insert a key it holds |
| Interleaving.CommitIsAtomic | app/routers/donations.py:38-165 | a commit has exactly the effect the whole request has when run alone on the tables as they are at the commit |
| Interleaving.SerializedByCommitOrder | app/routers/webhooks.py:46-67 | serializability: every reachable database equals the committed requests run one at a time in commit order |
| Interleaving.CommittedRowsAreUnique | app/models/webhook_event.py:26 | no two committed events, donations, donors or provider subscriptions share their unique key, in any run |
| Alone.EveryEndingIsTheSame | app/routers/donations.py:38-165 | from any quiescent reachable state a request's steps can run to their end, and every way they do leaves the same tables |
| Alone.AloneItIsTheHandler | app/routers/donations.py:38-165 | those tables are what the handler leaves; and when the handler cannot get to its commit, provider and mail failures included, giving up at any step leaves nothing |
| Alone.GivingUpLeavesNothing | app/routers/donations.py:57-89 | at whichever step a request gives up, a gift leaves nothing and a webhook at most the event its first commit recorded |
| Alone.SoloHookIsHandle | app/routers/webhooks.py:46-69 | for a webhook those effects are the sequential handler's, completed or dead between its commits |
| Guarantees.AtMostOneNewPerEvent | app/services/ledger.py:34-49 | in every interleaving at most one commit per event id carries `is_new=True` |
| Guarantees.AtMostOneMarkPerEvent | app/routers/webhooks.py:59-67 | in every interleaving at most one handler per event id commits a mark |
| Guarantees.TakenIffRecorded | app/services/ledger.py:38-49 | the committed event ids are exactly those some commit recorded as new |
| Guarantees.EveryOtherHandlerSeesTheRow | app/routers/webhooks.py:54-57 | a webhook that commits without recording finds its id recorded earlier and changes no table |
| Guarantees.FirstCommittedWins | app/services/ledger.py:34-49 | the stored row says what the first committed delivery said, field by field, whatever later ones carry |
| Guarantees.EachActionIsAllOrNothing | app/routers/donations.py:89-160 | every action leaves the tables as they were or applies one whole commit |
| Guarantees.EachActionDoesAsAsked | app/routers/donations.py:38-165 | in every interleaving each action changes nothing or changes the tables exactly as one form or one delivery says |
| Guarantees.LateDeliveryChangesNothing | app/routers/webhooks.py:56-57 | a delivery beginning after its id was committed never changes a table, whatever runs beside it |
| Guarantees.TxKeys | app/services/ledger.py:47-90 | a commit frees no key, and takes its own event id and no other |
| Deadlock.RankRises | app/routers/donations.py:33-150 | whoever is waited for wants a key further along the order donor, subscription, event, payment, or none |
| Deadlock.WaitsForIsAcyclic | app/routers/donations.py:33-150 | in every reachable state a chain of waiting transactions never meets itself and is at most five long |
| Deadlock.StepProgresses | app/routers/donations.py:38-165 | an unblocked step brings its transaction strictly nearer its end and touches no other |
| Deadlock.EveryTransactionCanEnd | app/services/ledger.py:47-90 | deadlock freedom: from every reachable state ordinary steps alone can end all open transactions |
| TestRail.PaymentIdsDetermineTokens | app/payments/test_provider.py:30-36 | `test_pay_…` and `test_sub_…_initial` ids never collide, and two ids are equal exactly when kind and token are |
| EventTable.TableIsTheCommits | app/routers/webhooks.py:46-67 | in every interleaving the webhook table is, in commit order, one row per commit that recorded its event, marked exactly when that handler's second commit came |
| EventTable.TableSaysTheCommits | app/routers/webhooks.py:46-67 | the k-th of these rows says what the k-th recording form or delivery said and stands where its handler left it: status, time, error and attempts |
| MonthlyGifts.SubscriptionsAreTheForms | app/routers/donations.py:123-136 | in every interleaving the subscriptions are, in commit order, those the committed monthly forms asked for: rail, ids, amount, currency, fee choice, status, start and the donor with the form's email |
| EventTable.EventRowsConsistent | app/services/ledger.py:52-57 | in every committed state `received`, no `processed_at` and zero attempts are equivalent, and every test event is processed with one attempt |
| EventTable.InterleavingsAgree | app/services/ledger.py:34-49 | two interleavings whose commits carried the same events, each id with one body, in whatever order and however often, leave the same events and as many |
| TestRail.TestRailIsAtomic | app/routers/donations.py:64-160 | in every run the test events are, field by field, those of the gifts that recorded one, each processed; every donation's event and donor exist, and each recurring one's subscription with its donor, currency and amount; events and donations are in bijection exactly when those gifts' payment tokens differ; every committed gift has both exactly when all payment tokens differ and none drew a recorded event id |
| TestRail.TakenIffPaid | app/services/ledger.py:73-75 | a payment id is taken exactly when an earlier gift that recorded its event had it |
| TestRail.TakenIffCarried | app/services/ledger.py:34-49 | an event id is taken exactly when some earlier commit carried it |
| TestRail.DonationsAreTheGifts | app/routers/donations.py:70-148 | conservation over every committed test gift: the donations are, in order, those asked for by the gifts that recorded an event, each with its donor; they never add up to more than was given, and to exactly that when and only when no payment token was repeated and no gift drew a recorded event id |
| TestRail.RepeatedEventIdLosesTheGift | app/routers/donations.py:70-89 | the second of two accepted gifts with one event id leaves neither event nor donation, a monthly one an active subscription |
| TestRail.RepeatedTokenLosesTheGift | app/services/ledger.py:73-75 | the second of two accepted one-off gifts with one payment token leaves an event and no donation |
| Deliveries.TableIsFirstDeliveries | app/routers/webhooks.py:34-69 | any list of calls leaves exactly one row for the first verified delivery of each id, in order, saying what it said and how it ended |
| Deliveries.ProcessedIffFirstCompletes | app/routers/webhooks.py:54-67 | the row of an id says what its first verified delivery said, and stays `received` for ever exactly when that one died between the commits |
| Deliveries.HandledBodies | app/routers/webhooks.py:46-57 | when each id carries one body, the webhook table holds what was delivered, each id once, whatever the clock readings |
| Deliveries.CallOrderDoesNotMatter | app/routers/webhooks.py:34-57 | call lists delivering the same bodies, in any order, at any times and however often, leave the same events |
| Deliveries.AcceptedEvents | app/services/ledger.py:34-49 | when each event id carries one body, exactly the delivered events are stored, one per id |
| Deliveries.AcceptedDonations | app/services/ledger.py:34-91 | when ids determine what is compared of a donation, exactly the announced donations are stored, one per payment id |
| Deliveries.OrderAndRepetitionDoNotMatter | app/services/ledger.py:34-75 | lists announcing the same payments, whatever their order, repetition, row ids and timestamps, leave the same events, donations, counts and total; donations may be compared by any view that shows payment id and amount |
| Deliveries.TotalIsOverDistinctPayments | app/services/ledger.py:73-75 | when ids determine payment and amount, whatever else the deliveries carry, the total is the sum over the distinct payments announced and the donations are as many |
| Deliveries.FirstDeliveryWins | app/services/ledger.py:34-36 | where bodies differ the first delivery of an id decides its row |
| Deliveries.FirstAnnouncementWins | app/services/ledger.py:73-75 | where new events announce one payment id with different contents, the first decides the donation |
| RateLimiter.RateLimiter.Check | app/services/admin_auth.py:61-67 | the answer is that of the pruned list; of all past admissions when no earlier reading for the key lies later; of a limiter that forgets nothing on a clock that never runs back; only the key's own list changes |
| RateLimiter.RateLimiter.constructor | app/services/admin_auth.py:56-59 | starts with the given limits and an empty history |
| RateLimiter.LoginLimiter | app/services/admin_auth.py:70 | the deployed limiter admits five attempts in 300 seconds |
| RateLimiter.PrunedRefinesFull | app/services/admin_auth.py:63-64 | at any reading not before the key's earlier ones, and on any clock until then, the pruned list shows the same recent admissions as the never-pruned one |
| RateLimiter.PassedIsAdmitted | app/services/admin_auth.py:61-67 | on a clock that never runs back `check` admits exactly what a limiter that forgets nothing would |
| RateLimiter.StoredIsUnforgotten | app/services/admin_auth.py:63-66 | on any clock the stored list is exactly the admissions that no later call of the key came a window or more after |
| RateLimiter.AgreesIffFewLost | app/services/admin_auth.py:61-67 | on any clock pruned and full list agree exactly when at least `max_attempts` recent admissions are left or fewer were ever there; where they part, the pruned one admits |
| RateLimiter.AgreesIff | app/services/admin_auth.py:61-67 | after a run in order, for any next reading, they agree exactly when the admission `max_attempts` back is missing, stale by now, or was not yet stale at the key's last call |
| RateLimiter.BackwardClockOverAdmits | app/services/admin_auth.py:62-63 | for every limit above one and every window, a run after which a backward reading lets through a call that the full history refuses |
| RateLimiter.StoredIsBounded | app/services/admin_auth.py:63-66 | no key's list ever exceeds `max_attempts`, whatever the clock does |
| RateLimiter.KeysAreIndependent | app/routers/admin.py:52-53 | a key's admissions depend on that key's calls alone |
| RateLimiter.RefusalsLeaveNoTrace | app/services/admin_auth.py:63-65 | on any clock, leaving out the calls `check` refused leaves every key the same stored list and the same admissions: a refusal never prolongs a lockout |
| RateLimiter.AdmittedSpaced | app/services/admin_auth.py:61-67 | on a clock that never runs back, admissions `max_attempts` apart are at least a window apart |
| RateLimiter.WindowBound | app/services/admin_auth.py:61-67 | on a clock that never runs back, at most `max_attempts` admissions lie in any span shorter than the window |
| RateLimiter.LongRunBound | app/services/admin_auth.py:56-67 | on a clock that never runs back, a closed interval of length L holds at most `max_attempts * (floor(L / window) + 1)` admissions |
| RateLimiter.AdmittedIsLegal | app/services/admin_auth.py:61-67 | on a clock that never runs back, the admissions are a choice of calls with no more than `max_attempts` in any span shorter than the window |
| RateLimiter.GreedyIsOptimal | app/services/admin_auth.py:61-67 | on a clock that never runs back, no such choice is larger, and its j-th call never comes before the j-th admission |
| Manage.Open | app/routers/subscriptions.py:26-29 | exactly the donor's rows that are not cancelled, each once |
| Manage.Pick | app/routers/subscriptions.py:51-63 | whatever the order, the row taken is an open row of that donor |
| Manage.ManagePage.CancelSubscriptionRow | app/services/ledger.py:100-104 | status, time and reason of that row and nothing else |
| Manage.ManagePage.ChangeAmount | app/routers/subscriptions.py:44-53 | exactly which requests are refused and how; a success changes the amount of one row of the donor that was not cancelled, and nothing else |
| Manage.ManagePage.Cancel | app/routers/subscriptions.py:56-80 | exactly when it answers 404 or 500, changing nothing; a success sets status, the time of the request and the fixed reason on one row of the donor that was not cancelled, and nothing else |
| Manage.EveryRowIsSound | app/services/ledger.py:94-104 | over every run amounts stay positive, `cancelled_at` is set exactly on cancelled rows, test subscriptions are active or cancelled and have started |
| Manage.RowsEvolve | app/routers/subscriptions.py:26-80 | cancelled is absorbing and `cancelled_at` written once; owner, currency, identity and start never change |
| Manage.CancelledOnce | app/services/ledger.py:100-104 | over every run a cancelled row was cancelled by exactly one DELETE, whose time and reason it carries |
| Manage.ManageTouchesOneOwnRow | app/routers/subscriptions.py:44-80 | patch and cancel touch at most one row, an open one of the token's donor, and no other table |
| Manage.SuccessesUseUpRows | app/routers/subscriptions.py:56-80 | successful cancels plus rows still open always equal the rows open at the start |
| Manage.ExactlyKDeletesSucceed | app/routers/subscriptions.py:26-80 | with k open rows exactly the first k requests succeed and the rest answer 404 |
| ConsentHistory.DonorDesk.Subscribe | app/routers/content.py:38-48 | the donor with that email exists afterwards and consents, with time and source; a new one has empty names; no other row or field changes |
| ConsentHistory.DonorDesk.Unsubscribe | app/routers/content.py:51-57 | the flag of the row with that id is cleared, its time and source kept, every other row untouched; an unknown id changes nothing |
| ConsentHistory.StepTracks | app/routers/content.py:38-57 | one act changes an email's consent exactly as it opts in or out |
| ConsentHistory.ConsentIsTheLastWord | app/routers/donations.py:50-112 | over every run a donor consents exactly when the last opt-in or opt-out was an opt-in |
| ConsentHistory.ConsentIsAlwaysRecorded | app/routers/donations.py:50-112 | over every run consent implies a recorded time and source |
| Posts.PostDesk.CreatePost | app/routers/admin.py:166-175 | succeeds exactly when id and slug are unused; then one row with the form's contents is added, stamped exactly when published; otherwise nothing changes |
| Posts.PostDesk.UpdatePost | app/routers/admin.py:178-191 | 404 exactly for an unknown id, an error exactly for a slug in use elsewhere, failures change nothing; a success saves the form in one row, its stamp set, cleared or kept |
| Posts.PostDesk.DeletePost | app/routers/admin.py:194-201 | 404 exactly for an unknown id, changing nothing; otherwise the remaining posts are exactly the others, one fewer |
| Posts.KeysStayDistinct | app/models/post.py:17 | ids and slugs stay pairwise distinct over every run |
| Posts.StampIsStartOfStreak | app/routers/admin.py:171-189 | `published_at` is always the start of the current unbroken published period, and empty exactly when the last save was unpublished |
| Posts.ListingIsUnique | app/routers/content.py:20-24 | with distinct publication times every newest-first listing of a table is the same list |
| Posts.ListedIsListing | app/routers/content.py:18-27 | a table has a listing: each published row as often as it is there, newest first |
| Posts.PagesConcatenate | app/routers/content.py:18-27 | pages at offsets 0, L, 2L, … of an unchanged table concatenate to a prefix of its listing, then to all of it, even though each request orders the rows anew |
| Posts.PagesAreComplete | app/routers/content.py:18-27 | pages that reach the end hold together exactly the published posts, none twice, each published before the one in front |
| Uuid7.Generate | app/models/base.py:18-24 | the bytes overwritten in place are the specified identifier; overflow exactly from 2^48 ms |
| Uuid7.Layout | app/models/base.py:18-24 | the first six bytes decode to the time, version 7, variant binary 10, the other 74 bits are the random ones |
| Uuid7.CoincideIff | app/models/base.py:18-24 | two identifiers coincide exactly when time and the 74 surviving random bits agree |
| Uuid7.TimeOrdered | app/models/base.py:11-17 | an earlier millisecond gives a smaller identifier, whatever the randomness |
| Uuid7.SmallerIsNotLater | app/models/base.py:11-17 | a smaller identifier is never from a later millisecond |
| Money.HalfEvenIff | app/services/fx.py:18 | `round` is the only integer at most half off and even on a tie |
| Money.FloatFeeAgrees | app/services/fx.py:18 | a float product within 1/2000 of the true one gives the exactly rounded percentage, except that on amounts ending in 500, where it may cross the tie, it can be one minor unit off |
| Money.FeeIsMonotoneAndClose | app/services/fx.py:10-18 | for every such float product: the fee is monotone and its percentage part within half a minor unit of 3.9% |
| Money.FeeIsNearlyAdditive | app/services/fx.py:16-18 | for every such float product: splitting a gift in two moves the percentage fee by at most one minor unit |
| Money.SplittingBound | app/services/fx.py:16-18 | for every such float product: splitting in n parts costs the fixed fee n times and moves the percentage fee by at most (n + 1) / 2 |
| Money.FixedFeeIs | app/services/fx.py:12-17 | 25 for sterling, 0 for shillings, 30 for every other code, in any mixture of cases |
| Money.FeeWithinGiftIff | app/services/fx.py:12-18 | for every such float product: the fee is within the gift exactly from 31 minor units up in dollars, 26 in sterling, 0 in shillings |
| Money.ShillingsAreClose | app/payments/mpesa_provider.py:102 | whole shillings are monotone, within 50 minor units, exact precisely on multiples of 100 |
| Money.FloatShillingsAgree | app/payments/mpesa_provider.py:102 | a float quotient within 1/200 of the true one, and exact on halves, gives the same number of shillings |
| Money.ErrorsCancel | app/payments/mpesa_provider.py:102 | over any 200 consecutive amounts the rounding errors sum to zero |
| Money.TotalErrorBound | app/payments/mpesa_provider.py:102 | over n gifts the total error is at most 50n |
| Money.PrintedAmountRoundTrip | app/routers/donations.py:84 | the printed amount has two decimals and no needless leading zero and parses back to the same number of minor units |
| Money.FloatPrintRoundTrip | app/routers/donations.py:156 | so does a float quotient within half a hundredth of the true one |
| Phone.PunctuationIsIgnored | app/payments/mpesa_provider.py:34 | characters outside the digit class make no difference anywhere, whatever class containing the ASCII digits that is |
| Phone.NormalForm | app/payments/mpesa_provider.py:34-42 | results are twelve digits starting 254, and normalising again changes nothing |
| Phone.TwelveDigitsPass | app/payments/mpesa_provider.py:35-36 | twelve digits starting 254 are returned as they are |
| Phone.SpellingsOf | app/payments/mpesa_provider.py:35-42 | a nine-digit subscriber number is reached from exactly its three spellings |
| Phone.OtherPrefixesPass | app/payments/mpesa_provider.py:30-36 | an accepted input whose result does not have the documented form |
| Phone.PromiseHoldsIff | app/payments/mpesa_provider.py:30-42 | on every input: a result, when there is one, has the documented form except exactly on twelve digits starting 254 with a fourth other than 7 or 1 |
| Phone.RaisesAsDocumentedIff | app/payments/mpesa_provider.py:30-45 | on every input: accepted exactly when documented, except precisely on twelve digits starting 254 with a fourth other than 7 and nine digits starting 7 or 1 |
| TokenCache.TokenHolder.GetToken | app/payments/mpesa_provider.py:62-77 | a stored, non-empty token is served before its time and nothing changes; otherwise the fetched token is stored until 60 seconds short of its lifetime, 3599 seconds when none is given, or nothing on failure |
| TokenCache.CacheIsLastFetch | app/payments/mpesa_provider.py:75-77 | over every run the cache holds the last fetched token with its reduced lifetime |
| TokenCache.CachedTokenIsLive | app/payments/mpesa_provider.py:63-76 | a token served from the cache is the last fetched, and still live at the server if that fetch was handled within a minute of issue |
| TokenCache.MarginIsExact | app/payments/mpesa_provider.py:76 | a fetched token is only ever served while live if and only if it was handled within that minute |

## Left out

- Provider network calls, SMTP, FastAPI routing, CORS, JSON parsing, CSV export and settings: library behaviour; their outcomes are arguments of the model.
- Signed tokens, argon2 and TOTP: cryptography of libraries; a manage token is an oracle giving a donor id or nothing.
- Isolation anomalies beyond unique indexes and row locks: the handlers read each row by its unique key only.
- Two transactions updating the same subscription or post at once: the manage page, consent and publication histories are of sequential calls (two racing cancels may overwrite each other's `cancelled_at`).
- `scripts/seed.py`: it writes rows that bypass the ledger; histories start from empty tables.
- The statuses and columns no handler writes (subscriptions' `past_due` and `failed`, events' `ignored`, donations' `refunded`, `fx_rate`, `next_charge_at`), `occurred_at` of the synthetic event, and the donation status, which is always `succeeded`.
- Collisions of row ids drawn by `uuid7`: row ids of new rows are taken as given.
- Case folding of email addresses by the database and upper-casing of country codes: both are taken as already done; currency codes are upper-cased in ASCII only.
- One clock reading per request stands for the several a handler takes within one transaction.
- `get_post` by slug does not filter drafts, so the claim about drafts is made for the list only.
- Ledger.Session.MarkEventProcessed: the fault path of the webhook handler marks the row twice; whether the first increment survives is left to the outcome argument.
- The size of a float's own error is not derived from its representation: products within 1/2000 and quotients within 1/200 of the true ones, which binary doubles give for amounts below 10^12 minor units, are assumed.
- TokenCache.CachedTokenIsLive: takes `expires_in` to be truthful and clock readings to be reals.
