# SZL router: verified model

This project models the parts of the SZL router where a mistake would be silent, and proves what those
parts promise. `dafny verify dfyconfig.toml` checks all of it.

**Failover under one budget.** `RequestBudget` is the attempt counter and absolute deadline of one logical
request. `ConnectionPool` is the keep-alive pool: a state machine with every caller interleaved, and the object
whose every method is shown to be a run of that machine. `Failover` is `chat`: tiers, cooldown, same-provider
retry, backoff and route fallback over both, with other threads moving the clock, changing cooldowns and
cancelling or closing the budget at every wait. `Cooldown` is the table they share: what others do to it is fixed
in advance and unknown, so every reading is a fact about the history and none can be made up. One predicate,
`Router.Told`, ties the attempt trail to the budget, to the poster calls with their endpoints, models and
replies, to the physical sends, and to the cooldown changes and readings. A physical send is a started
`conn.request`; a poster call that fails before one, on a payload or a URL, is counted apart.

**Embeddings.** `EmbeddingBatch` is the validator of upstream answers and `Base64` the encoded vectors it
reads. `EmbeddingCache` is `embed` with its exact-hash table, proved equal to the same failover chain without
a table while other calls look up, store, expire, evict and clear entries between any two steps.

**Receipts.** `Json`, `JsonRoundTrip` and `JsonCanonical` are the JSON printer and a parser for it (RFC 8259);
the canonical printer is a concrete sorted printer whose injectivity is proved, not assumed, and `JsonLexeme` states
their numbers, escapes and white space as the standard does. `JsonWalk` is the early-aborting size check. `Receipt`
builds, parses and verifies receipts; `Ledger` is the hash-linked spend file, as text, and `JsonFragment` says what
the parser makes of its torn and merged lines; `LocalStore` hashes a local model store against a pinned manifest,
found by name through `ModelPath`.

**Gateways and balancers.** `RoutePlan` and `Gateway` are the control gateway's plan and attempt loop.
`MeshRouter` and `ChunkedRelay` are the dual-GPU example: the machine of its interleaved handlers, one handler's
code as a run of that machine, and its rewritten bodies. `MeshCoordinator` and `ContentLength` are the placement
coordinator's picker, counters and body bound. `SpacePublisher` is the Space publisher's write-ahead receipt, and
`SpaceRuntime` what it reads off the running Space. `Text` and `Counting` hold shared facts on digits, text order,
the pigeonhole and remainders.

How the outside is modelled. Time is real-valued and clocks only move forward, except the wall clock that cooldown
reads, which others may set. Upstreams, sockets, files and other threads choose freely at every point where the
program waits for them. SHA-256 and HMAC are arbitrary functions to digests: a result that depends on them is stated
as "the property holds, or two named texts that were hashed collide", so nothing rests on injectivity. A send under
a budget is taken to return within the window it was given, and a sleep to last as long as asked; time that passes
anywhere else is counted as lag and appears in the deadline bounds.

Where the obvious statement is too strong, the exact condition is proved:

- An idle connection, or one whose reply is being read, is closed under the pool in two cases and no other: a body
  fails to decode after its connection was given back, and a reply that ended with the stream is given back although
  the HTTP client has closed it (`ConnectionPool.StepAlive`, with the runs `ConnectionPool.DecodeFailureClosesIdle`
  and `ConnectionPool.StreamEndedReplyIsIdleClosed`).
- A reservation is a physical send exactly when no poster call failed before the pool (`Failover.Router.Chat`).
- Nothing is reserved after a stop, but an attempt reserved before it may still be sent
  (`RequestBudget.NothingReservedAfterStop`, with the run `RequestBudget.ReservedBeforeStopIsSent`).
- A recorded row leaves an intact ledger if and only if it found one whose last line had ended
  (`Ledger.RecordExact`); a write that stops inside a row is always seen, and one that loses only the line break is
  seen one row later (`Ledger.TornRow`, `Ledger.LostBreak`).
- Dropping rows from the ledger's end leaves an intact chain (`Ledger.PrefixIntact`).
- Every dispatch in a trail has a call to its provider behind it, unless there is no budget and the retry cap is
  below one; then there are no calls at all (`Failover.CooldownNeverRefuses`).
- A coordinator node's count drifts exactly when encoding its answer again with the provenance raises. Only running
  out of memory or of nesting can make it raise, so no concrete answer is named
  (`MeshCoordinator.Coordinator.Proxy`, at one worker `MeshCoordinator.LateFailureDrifts`).
- The coordinator's rotation is fair exactly when the live indices differ modulo the live count
  (`MeshCoordinator.RotationExact`, with `MeshCoordinator.ThirdOfFourStarves`).
- A per-provider retry cap below one means no call at all, and an embedding table bound below one makes a
  storing call raise (`Failover.Router.PostUnbudgeted`, `EmbeddingCache.Cache.Put`).

## Model

| member | source | states |
|---|---|---|
| RequestBudget.ReserveExact | szl_router/request_budget.py:176-202 | a reservation succeeds if and only if the budget is neither stopped nor spent, the clock is before the deadline and the timeout is positive; the window it grants is within the timeout and ends by the deadline, and a refusal records no dispatch |
| RequestBudget.BackoffExact | szl_router/request_budget.py:227-252 | a backoff is allowed exactly when a reservation made right after it would still be granted, and it then ends before the deadline and changes nothing |
| RequestBudget.StopReasonExact | szl_router/request_budget.py:176-252 | which reason each refusal carries: a reservation gives cancellation, then the deadline, then the attempts; a backoff gives cancellation, then the attempts, then the deadline; a stop reports the reason that stands and the in-flight label |
| RequestBudget.EndingExact | szl_router/request_budget.py:261-283 | a cancellation is the reason at once exactly if nothing was ever dispatched, and neither it nor a close nor a success replaces a reason that stands or changes anything else |
| RequestBudget.RunKeepsValid | szl_router/request_budget.py:176-290 | after any sequence of calls from any threads, rows are numbered 1..n with n the number of granted reservations, at most the ceiling and at most sixteen, and the in-flight label is none without a row, unknown while any row is, else known |
| RequestBudget.TerminalWriteOnce | szl_router/request_budget.py:261-290 | once there is a terminal reason, no sequence of calls changes it |
| RequestBudget.StopIsFinal | szl_router/request_budget.py:261-290 | after a cancellation or a terminal reason no reservation succeeds in any later sequence of calls |
| RequestBudget.NothingReservedAfterStop | szl_router/request_budget.py:176-290 | in any sequence of calls the number of reservations is the same at the end as at any moment at which the budget was stopped |
| RequestBudget.ReservedBeforeStopIsSent | szl_router/request_budget.py:176-266 | a reservation, a cancellation, and the reserved attempt noted as answered: a run in which a send goes on after the stop |
| RequestBudget.OnlyOwnNote | szl_router/request_budget.py:204-225 | a dispatch row changes only when its own attempt number is noted, whatever else runs |
| RequestBudget.UnnotedStaysUnknown | szl_router/request_budget.py:151-154 | a dispatch that is never noted keeps the request's outcome unknown for good |
| RequestBudget.Budget.Reserve | szl_router/request_budget.py:176-202 | the object's new state and answer are those of the step that the run lemmas are about, and the call is added to the record of calls whose run the object's state is |
| RequestBudget.Budget.NoteOutcome | szl_router/request_budget.py:204-225 | the search loop updates the row with the given number and no other, or is refused |
| RequestBudget.Budget.AllowBackoff | szl_router/request_budget.py:227-252 | the object's new state and answer are those of the specified step |
| RequestBudget.Budget.Cancel | szl_router/request_budget.py:261-266 | the new state is that of the specified step |
| RequestBudget.Budget.Close | szl_router/request_budget.py:268-277 | the new state and answer are those of the specified step; success is refused |
| RequestBudget.Budget.MarkSuccess | szl_router/request_budget.py:279-283 | the new state is that of the specified step |
| ConnectionPool.StepKeepsOwned | szl_router/core.py:421-521 | every step of any caller keeps the ownership invariant: one owner for each connection, idle in the bucket of its own key, nothing leaked, bucket and host bounds |
| ConnectionPool.RunKeepsOwned | szl_router/core.py:403-530 | the same over every interleaving of any number of callers |
| ConnectionPool.PoolIsSafe | szl_router/core.py:403-530 | from an empty pool, every run leaves each created connection held by exactly one caller, idle exactly once, or closed, within both bounds |
| ConnectionPool.StepAlive | szl_router/core.py:509-521 | a step leaves a connection closed that is idle or whose reply is being read if and only if it is a decode failure on a connection already given back and in use, or gives back a connection that the client closed at the end of the stream |
| ConnectionPool.RunAlive | szl_router/core.py:455-521 | while every released body decodes and none ended with the stream, no run leaves a closed connection idle or being read |
| ConnectionPool.DecodeFailureClosesIdle | szl_router/core.py:509-521 | a five-step run that leaves a closed connection in the idle bucket |
| ConnectionPool.StreamEndedReplyIsIdleClosed | szl_router/core.py:509-530 | a five-step run, with every body decoding, that leaves a closed connection in the idle bucket |
| ConnectionPool.TakeExact | szl_router/core.py:421-440 | a checkout takes the connection parked last under its key, exactly if there is one, and leaves every other bucket alone |
| ConnectionPool.GiveExact | szl_router/core.py:442-453 | a release parks the connection last under its key, where the next checkout of the key finds it, exactly if that bucket is not full and there is room for the host; other buckets stay |
| ConnectionPool.HttpPool.CheckoutConn | szl_router/core.py:421-440 | takes the connection parked last under the key, exactly if there is one, else makes a new one; other buckets stay, and the object's state is that of the machine after its Checkout event |
| ConnectionPool.HttpPool.ReleaseConn | szl_router/core.py:442-453 | returns the connection to the end of its bucket exactly if neither bound is reached, else closes it, as the machine's event does; other buckets stay |
| ConnectionPool.HttpPool.Exchange | szl_router/core.py:477-497 | what the outside did is one request, and a second one always if the first failed at the connection, there is no budget and a connection can be made, and never otherwise; the reply is the last request's, and the events are a run of the machine that ends with a reply to read or with nothing held |
| ConnectionPool.HttpPool.Receive | szl_router/core.py:499-521 | the response is read once, and the reply is the one that what was read calls for: a failed read, a status of 400 or more, a body that decodes or one that does not; the connection is given back exactly if it can be kept, and this caller holds nothing afterwards |
| ConnectionPool.HttpPool.RequestJson | szl_router/core.py:455-521 | a whole call does exactly what the outside's answers call for, and the reply is the one for the last of them; it is a run of the machine's events, one by one those answers, of one new caller, so everything proved of runs holds of it: at most one physical send with a budget and two without, the second only after a connection failure; none exactly when it failed before sending; afterwards every open connection is idle and other buckets are untouched |
| Failover.ChainCovers | szl_router/core.py:1179-1287 | in a trail the loop can write, every route it passed has a row |
| Failover.ChainRows | szl_router/core.py:1179-1287 | every row tells the truth about its route, routes appear in order, and only the last row can be a success |
| Failover.LastOptionDispatched | szl_router/core.py:742-751 | a trail that reached the end of the chain holds a dispatch to the last eligible route, and among the calls behind it one went to that route's provider for its model, unless no tries are allowed |
| Failover.SkipsAreFollowed | szl_router/core.py:1199-1208 | in a served or exhausted trail every cooldown skip is followed by a dispatch to a later route |
| Failover.CooldownNeverRefuses | szl_router/core.py:697-751 | both of the above for whole trails: cooldown delays a provider but never refuses the last option; and every dispatch has a call to its route's provider behind it if there is a budget or the retry cap is at least one, else there are no calls |
| Failover.PolicyBlockedExact | szl_router/core.py:1122-1133 | after a complete walk, policy_blocked is the reason if and only if nothing was ever dispatched and pricing alone refused every route of a non-empty chain |
| Failover.TransientExact | szl_router/core.py:554-567 | the failures worth another try are a connection error and the statuses 429, 500, 502, 503 and 504; every other status is final |
| Failover.Router.Deliver | szl_router/core.py:640-688 | a reserved attempt makes one poster call, to the given endpoint for the given model, which sends physically once or fails before sending, and is noted known exactly when a response was seen, whatever other threads do meanwhile |
| Failover.Router.SendOnce | szl_router/core.py:635-688 | a reservation and one poster call to the given endpoint for the given model go together, or neither happens, and physical sends go with them unless the call failed before sending; nothing is reserved after a stop; the budget is asked to reserve and to note, and nothing else of it; the clock stays within the deadline plus other threads' time |
| Failover.Router.Backoff | szl_router/core.py:689-694 | an accepted wait is slept out and keeps the whole account, deadline bound included; a refused one leaves a terminal reason, and takes no time |
| Failover.Router.PostBudgeted | szl_router/core.py:634-694 | one row for each poster call in order, with its provider, model and status; every dispatch but the last ended in a transient failure of its own reply, the outcome is that of the last reply, and a transient failure is given up only when the budget says stop |
| Failover.Router.PostUnbudgeted | szl_router/core.py:617-633 | at most the configured number of tries, all to the given endpoint for the given model and all but the last of them transient failures; the outcome is that of the last try; a transient result means every try was used; each try that gets to the pool sends once or twice and no other sends; with a cap below one nothing is tried and the call fails |
| Cooldown.CoolingExact | szl_router/core.py:697-739 | over any sequence of failures and successes, a provider reads as cooling if and only if the mechanism is enabled, it failed after it last served, and less than the cooldown length has passed since |
| Cooldown.ReadingExact | szl_router/core.py:711-739 | the same of a reading at any moment of any history of this thread's and other threads' changes |
| Cooldown.Table.Remaining | szl_router/core.py:723-726 | what is read is what the history of all threads' changes and the wall clock make of it |
| Cooldown.Table.Set | szl_router/core.py:729-734 | adds exactly this provider's failure, now, to the history, and the table stays what the history makes of it |
| Cooldown.Table.Clear | szl_router/core.py:737-739 | adds exactly this provider's success to the history, and the table stays what the history makes of it |
| Failover.Router.WarmCandidateLater | szl_router/core.py:742-751 | true only if some later eligible route was read as warm during the scan, false only if every later eligible one was read as cooling during it, where a reading is of the table as other threads left it at that moment |
| Failover.Router.Passed | szl_router/core.py:1203-1208 | a provider is passed over only if the table held it as cooling and a later eligible one as warm, each at some moment of this turn, and one that is used was held as warm or every later eligible one as cooling |
| Failover.Router.ServeUnbudgeted | szl_router/core.py:1221-1287 | one row for the whole sequence of tries, all of them to the row's provider for its model, the last with the row's status; then exactly one change of the table: a failure set or a success cleared |
| Failover.Router.ServeBudgeted | szl_router/core.py:1221-1287 | the same with a budget, one row for each call; an answer of the wrong shape turns the last row into a failure; the turn halts only on a stopped budget, and a budget it stopped ran out or was stopped by another thread: this call itself only reserves, notes, asks for backoffs, and marks a success at the end of a turn that served |
| Failover.Router.Visit | szl_router/core.py:1179-1287 | one turn of the route loop keeps the trail a chain, the account with its calls exact, the table changes those the trail calls for, a reading behind each decision, and a cause from outside behind every stop of the budget |
| Failover.Router.CloseOut | szl_router/core.py:1288-1292 | this call closes the budget only after the whole chain, for policy_blocked exactly when pricing refused everything and nothing was ever dispatched, and else for provider_unavailable |
| Failover.Router.Chat | szl_router/core.py:1136-1295 | with a budget: the poster calls are exactly those of the dispatch rows, in order, by endpoint, model and status, as many as reservations; physical sends are no more, and as many exactly when no poster call failed before the pool; each record is known exactly when its row has a status; nothing is reserved from the moment of a stop on, in the middle of the call too; the clock ends within the deadline plus other threads' time, and there is a terminal reason; of its own operations, told apart from other threads', only the last can end the budget: a success mark if it answered, a close if it failed after the whole chain; a call that fails before the end of the chain was stopped before it began, ran out of attempts or time, or was stopped by another thread, and without any of these a failed call has passed every route; a budget closed before the call gets no row; without: one row for each route, the calls are the tries of each dispatch row in order, all to its provider, at most the cap, transient but for the last, whose status is the row's, and at most twice as many sends; always: an honest ordered trail, whose rows with a response are successes exactly if that response was judged a chat completion, exactly one table change for each dispatched route, a reading of the table in this call behind every skip and every dispatch, and cooldown never refuses, in the trail and in the calls behind it |
| EmbeddingBatch.ResponseError | szl_router/core.py:837-893 | the loop accepts an answer if and only if it is a complete batch: as many rows as inputs, distinct indices in range, finite vectors of one size equal to a positive requested size |
| EmbeddingBatch.CompleteExact | szl_router/core.py:837-893 | a complete batch, stated of the answer: an object without an error, whose rows are one for each text or token array asked for, exactly one with each input's index, and each with a vector of one size, positive and as asked: finite numbers, or base64 of finite 32-bit words |
| EmbeddingBatch.CheckVector | szl_router/core.py:865-884 | a vector passes exactly when it is a non-empty finite numeric array, or base64 of whole finite float32 words |
| EmbeddingBatch.EveryInputOnce | szl_router/core.py:855-864 | in an accepted batch every input has exactly one vector |
| Counting.Pigeonhole | szl_router/core.py:855-864 | n distinct numbers below n are all the numbers below n |
| EmbeddingBatch.EncodedVectorAccepted | szl_router/core.py:866-876 | every non-empty vector of finite float32 words, encoded in base64, is accepted with its size |
| Base64.DecodeEncode | szl_router/core.py:869-871 | encoded bytes decode to themselves |
| Base64.FiniteWordsExact | szl_router/core.py:875-876 | the byte test finds exactly the words whose IEEE 754 exponent bits are not all ones |
| EmbeddingCache.DetachIsReparse | szl_router/core.py:1366-1385 | the detached request is what printing it canonically and parsing it again gives |
| EmbeddingCache.SamePayload | szl_router/core.py:1533-1534 | payloads equal as JSON values are equal member for member, so they are sent alike |
| EmbeddingCache.KeyBinds | szl_router/core.py:1388-1407 | equal cache keys mean the same route, endpoint, credential, caller scope and payload, or one of two named pairs of texts collides |
| EmbeddingCache.HitServes | szl_router/core.py:1535-1540 | an entry found for a lookup is what the upstream would serve for that very lookup, or two looked-up texts collide |
| EmbeddingCache.Cache.Get | szl_router/core.py:1410-1420 | an entry is returned exactly while its age on the cache's clock is below the limit, and removed otherwise |
| EmbeddingCache.Cache.Evict | szl_router/core.py:1426-1430 | removes one oldest entry, or raises on an empty table |
| EmbeddingCache.Cache.Put | szl_router/core.py:1423-1432 | stores the entry within the bound, evicting one oldest entry only for a new key in a full table; raises exactly when the bound is below one |
| EmbeddingCache.Cache.Clear | szl_router/core.py:1435-1438 | empties the table |
| EmbeddingCache.Cache.Dispatch | szl_router/core.py:1542-1583 | a dispatch serves exactly what the upstream and the validator allow, and says why not |
| EmbeddingCache.ServedExact | szl_router/core.py:1533-1601 | a served answer is the upstream's response to exactly the request's payload at the route's endpoint, labelled with the route's slot, model, address and energy source, sovereign; the mark adds ":cache" to who served it, once, and changes nothing else |
| EmbeddingCache.RepeatHits | szl_router/core.py:1535-1603 | after a call answered afresh, the same call again is a hit with the same answer, marked, as long as its lookups find in the table what the first call stored, unexpired |
| EmbeddingCache.Cache.TakeTurn | szl_router/core.py:1518-1604 | one turn of the loop finds out the truth about its route, from the upstream or from an entry not expired when it was read; with the cache in use it asks the table once, is a hit exactly if the table then held an unexpired entry for its key, and otherwise leaves a served answer in the table, stored just now |
| EmbeddingCache.Cache.Embed | szl_router/core.py:1466-1612 | with the table, the answer is that of the first route that would serve without it (vectors, provider, model, address, tier and labels), except for the cache mark and the trail, or two looked-up texts collide, or storing raises because the bound is below one; the trail has exactly one true row for every route before the one that answered, a hit included, and a hit is an entry of the next route, in the table and not expired when the call returns, on a clock that only moves forward; with the cache in use the table was asked for every route up to the one that answered, all in vain but for a hit's last, and a fresh answer is in the table when the call returns |
| JsonRoundTrip.PrintParse | router_control/verification.py:29-31 | every value printed in any style is parsed back to itself |
| JsonRoundTrip.PrintInjective | router_control/verification.py:29-31 | different values never print alike, even in different styles |
| JsonCanonical.CanonicalIff | router_control/verification.py:29-31 | two values have one canonical text if and only if they are equal up to member order |
| JsonCanonical.ReparseCanonical | router_control/verification.py:29-31 | a canonical text is parsed back to an equal value |
| JsonLexeme.FloatLexemeExact | router_control/verification.py:38-48 | the text of a float is exactly a number by section 6 of RFC 8259 with a fraction or an exponent |
| JsonLexeme.EscapesExact | router_control/verification.py:38-48 | the eight two-character escapes by section 7 of RFC 8259 are read as their characters |
| JsonLexeme.SpaceExact | router_control/verification.py:38-48 | the four white space characters of section 2 of RFC 8259 |
| JsonLexeme.HexDigitExact | router_control/verification.py:38-48 | the digits of a four-digit escape and their values, in either case |
| JsonWalk.Bounded | router_control/verification.py:51-61 | the explicit-stack walk, with its early abort, accepts exactly the values whose recursive depth and node count are within the limits, for any limits |
| Receipt.BundleRoundTrip | router_control/verification.py:38-67 | a printed bundle is accepted if and only if it is within the byte, depth and node limits, and both parts come back equal |
| Receipt.ByteLengthExact | router_control/verification.py:38-40 | the bytes that a text's UTF-8 form takes: one to four for a character, as many as its code needs, and the sum of all |
| Receipt.DigestExact | router_control/verification.py:22-22 | a digest is sixty-four digits and letters from a to f |
| Receipt.VerifyIgnoresOrder | router_control/verification.py:70-96 | reordering members at any level never changes the verdict |
| Receipt.HeaderBindsBundle | router_control/verification.py:70-96 | two bundles consistent with one receipt header have equal completions and equal requests, or a named pair of texts collides |
| Receipt.EmittedIff | router_control/app.py:1026-1062 | a served answer is emitted if and only if it is usable and within the verifier's limits; the final self-check never fails on a digest |
| Receipt.EmittedFields | router_control/app.py:1026-1062 | an emitted completion is the upstream's answer and one more member, a receipt with the plan digest, provider, public and upstream model, classification, attempts, time and, if there is one, model identity of the served request, both digests, no secret material and no other key; its own digest, which is also the header's, is of all the rest of it |
| Receipt.UsableExact | router_control/app.py:662-685 | an upstream's answer is accepted exactly if it has no fault: an error, a receipt of its own, no choices, or a choice without an assistant message, without output, or with malformed text or tool calls |
| Receipt.EmittedVerifies | router_control/app.py:1034-1071 | whatever a client parses from any printed form of an emitted completion and its request verifies as consistent, with and without the header |
| Ledger.ChainIntact | szl_router/spend_guard.py:124-133 | the loop with a running digest accepts exactly the chains whose every row is intact after its predecessor |
| Ledger.RecordExact | szl_router/spend_guard.py:99-220 | on any file, after a recorded row the ledger is intact if and only if it was before and the last line had ended |
| Ledger.RecordSays | szl_router/spend_guard.py:202-220 | what `record` returns, and what anyone reads from the line it writes, is the time, amount, source and metadata as given, marked as an estimate, and nothing more but the digest |
| Ledger.PreviousExact | szl_router/spend_guard.py:206-209 | a row is chained from the last row's digest if that is a string other than "" and "CORRUPT", else from 64 zeros, and the call raises on a last row that is no object or whose digest is another true value |
| Ledger.TruthyExact | szl_router/spend_guard.py:124-133 | the values that count as false: null, false, zero, empty text, list and object, and a float whose digits are all zero |
| Ledger.PySpaceExact | szl_router/spend_guard.py:103-106 | the twenty-nine characters that stripping a line removes |
| Ledger.TornRow | szl_router/spend_guard.py:99-220 | a write that stops after any number of characters of a row leaves an intact ledger if and only if none or all of the row was written |
| Ledger.LostBreak | szl_router/spend_guard.py:99-220 | a row without its line break reads as intact, and the next recorded row breaks the chain |
| JsonFragment.MergedLine | szl_router/spend_guard.py:103-112 | a text that ends in an object's text is JSON only if nothing but white space comes before that object |
| JsonFragment.CutShort | szl_router/spend_guard.py:103-112 | no proper prefix of an object's text is JSON |
| JsonFragment.ValueMore | szl_router/spend_guard.py:103-112 | a value read at the start of a text is read there too when the text goes on, unless it is a number the new text could continue |
| JsonFragment.PrintedObject | szl_router/spend_guard.py:217-219 | a printed object whose keys start with letters is one line that ends in its closing brace |
| JsonFragment.BreakExact | szl_router/spend_guard.py:103-103 | a line ends at a line feed or a carriage return |
| Ledger.BrokenStaysBroken | szl_router/spend_guard.py:99-133 | no text appended to a file whose ended lines are broken, recorded or not, makes it intact |
| Ledger.PrefixIntact | szl_router/spend_guard.py:124-133 | every prefix of an intact chain is intact, so losing the tail goes unnoticed |
| Ledger.LastDigestBinds | szl_router/spend_guard.py:117-133 | two intact chains with one last digest hold the same rows, or two hashed texts collide, or one hashes to the genesis value |
| Ledger.FilesWithSameLastDigest | szl_router/spend_guard.py:99-133 | the same for any two files, whatever their text |
| Ledger.LedgerFile.AppendRow | szl_router/spend_guard.py:202-220 | appends one row that says the spend, chained to the last one, or as much of it as was written before a failure, or raises and changes nothing; an intact ledger never raises, and intactness afterwards is exactly that of the lemmas above |
| LocalStore.HashFile | router_control/local_store.py:94-132 | an accepted digest is of exactly the bytes read, as many as the file is long and as many as expected, within the limit, unchanged and in time; a refusal means what it says, so such a file is never refused; at most one byte beyond the limit is read |
| LocalStore.VerifyBlobs | router_control/local_store.py:224-236 | every accepted record's bytes have its digest and size, and the sizes add up within the total; a refusal is of the first record not matched, and means what it says of that record |
| LocalStore.VerifyStore | router_control/local_store.py:135-249 | acceptance means a model name with a manifest path, the pinned manifest, a bounded JSON document without repeated keys whose config and one to thirty-two layers are all descriptors, exactly one model layer with the pinned weight, and every blob as the manifest says; every refusal means that something of this does not hold, or that a file could not be read whole, unchanged and in time |
| LocalStore.ManifestExact | router_control/local_store.py:135-168 | bytes hold a manifest exactly if they are UTF-8 JSON of depth twelve and 512 nodes at most, without repeated keys, of schema version two, with an object for a config and one to thirty-two objects for layers |
| LocalStore.DescriptorExact | router_control/local_store.py:171-181 | a record is a descriptor exactly if it has a marked SHA-256 digest, a size from one byte to sixteen gigabytes and a vendor's media type |
| LocalStore.PinBindsStore | router_control/local_store.py:195-249 | two stores accepted under one manifest pin hold the same bytes in every file, or two files read collide |
| ModelPath.PathStaysBelow | router_control/local_store.py:44-65 | whatever the name, an accepted path is `manifests`, a registry and three to nine further entries, each the name of one directory entry |
| ModelPath.FullNameRoundTrip | router_control/local_store.py:44-65 | registry, namespaces, model and tag written out as a name are mapped back to exactly that path |
| ModelPath.PathExact | router_control/local_store.py:44-65 | a name is mapped to a path exactly if it is one of the ways to write it: with its registry, without the default registry, or as a model alone in the default library, and with its tag or without the tag latest |
| ModelPath.SegmentExact | router_control/local_store.py:30-31 | the characters, first character and length of a path segment and of a registry, whose dots are never adjacent |
| ModelPath.ReachedExactly | router_control/local_store.py:44-65 | the files that some name reaches are exactly the manifest paths under a registry with a dot |
| RoutePlan.PlanExact | router_control/app.py:305-345 | the plan is strictly sorted and holds exactly the eligible providers |
| RoutePlan.PlanCanonical | router_control/app.py:305-345 | every permutation of a registry with unique ids gives the same plan |
| RoutePlan.PlanDistinct | router_control/app.py:305-345 | no provider appears twice in a plan |
| RoutePlan.RouteCandidates | router_control/app.py:305-345 | the loop and the sort compute that plan |
| RoutePlan.CandidateProvider | router_control/app.py:372-376 | looking a candidate up by id finds the eligible provider it was made from |
| Gateway.NobodyAfterUnknown | router_control/app.py:1071-1132 | if the contacts made are those of the contacting rows, a row whose state is a local, upstream or route deadline, an identity failure or a client error other than 429 is last, no provider planned after it was contacted, and the last contact, if the row made one, was its own provider |
| Gateway.ReplyExact | router_control/app.py:1071-1152 | the reply that each last row of a walk calls for: the completion after a success, a local model's identity failure or deadline raised as such, an unknown outcome after an upstream deadline or a route deadline that cut an attempt off, and the failure of all providers otherwise |
| Gateway.Attempt | router_control/app.py:1017-1134 | a provider without its credential is skipped, and a row says the route deadline passed exactly when a clock reading of this turn, before any contact, was at or past it; the only contact is its own provider, lasts at most 45 seconds and ends by the route deadline, except for time spent elsewhere; a contacting row has exactly the state that what the contact came to calls for, with the deadline label if and only if the route deadline was what limited or ended it |
| Gateway.Chat | router_control/app.py:1005-1152 | rows are a prefix of the plan, the reply is the one the last row calls for, the contacts made are exactly the providers of the contacting rows, in order, each ending by the route deadline (except for time spent elsewhere) with a result that calls for its row's state, a success, a deadline, an identity failure or a client error other than 429 is the last row and every other row is followed by the next provider of the plan if there is one, and one that gave up on the deadline without contact did so past it |
| MeshRouter.PickBackend | examples/forge-mesh-router.py:139-144 | the pick and its fallback are the two backends; embeddings pick the integrated GPU and anything else a backend with minimal load |
| MeshRouter.RunKeepsGood | examples/forge-mesh-router.py:377-447 | over every interleaving of handlers: each load count is the number of handlers reserving that backend, every slot is free or has its handler, and each client is sent at most once |
| MeshRouter.RunFromStart | examples/forge-mesh-router.py:458-482 | from the start there are never more than eight handlers, no client is sent twice, and when all handlers are gone all counts are zero and all slots free |
| MeshRouter.PickMinimal | examples/forge-mesh-router.py:392-397 | at the moment of a first pick no backend is reserved by fewer handlers than the one picked, ties going to the discrete GPU |
| MeshRouter.FallbackIsOther | examples/forge-mesh-router.py:397-424 | a second try happens only for a client that was sent nowhere, and takes the other backend |
| MeshRouter.Process.Proxy | examples/forge-mesh-router.py:377-447 | one handler's code is a run of the machine's events, with any steps of other handlers in between, that ends with nothing reserved: at most one send, to the first pick or to the fallback when nothing could have reached the first, and a trail that agrees with what was sent; the first pick was made on a mesh of this very run, whose counts were exact, and is the pick of that mesh |
| ChunkedRelay.PrefixIncomplete | examples/forge-mesh-router.py:363-375 | no proper prefix of a complete chunked message (section 7.1 of RFC 9112, with extensions and trailers) is complete |
| ChunkedRelay.HexRoundTrip | examples/forge-mesh-router.py:374-374 | a printed chunk size is read back as the same number |
| ChunkedRelay.SizeExact | examples/forge-mesh-router.py:374-374 | a chunk size is read up to its extension, which begins with a semicolon, and anything else after it is malformed |
| ChunkedRelay.DecodeFramed | examples/forge-mesh-router.py:363-375 | whole chunks and the last chunk decode to exactly the bytes framed, and nothing after them is consumed |
| ChunkedRelay.RelayBody | examples/forge-mesh-router.py:363-375 | a finished relay decodes to exactly what was read, with the declared length, and that is the whole body unless the upstream failed or ended early; any failure leaves an incomplete message; at most the limit is relayed; and it finishes if nothing fails and the body fits |
| ChunkedRelay.RefusalExact | examples/forge-mesh-router.py:324-351 | the ordered checks on status, duplicate fields, media type, content encoding, framing and length refuse exactly the heads that are not acceptable, stated field by field and in no order |
| ChunkedRelay.RefusalFirst | examples/forge-mesh-router.py:324-351 | a refusal names the first fault of the head, in the order status, empty or partial, duplicates, media type, encoding, framing and length, with status 502 or the upstream's own if that is an error |
| ChunkedRelay.MediaExact | examples/forge-mesh-router.py:337-340 | a media type passes exactly if it is at most 128 printable characters that name one of the three types in any case, with spaces around it and anything after a semicolon |
| ChunkedRelay.Relay | examples/forge-mesh-router.py:324-375 | the client gets exactly what was read as one complete message, the whole body unless the upstream ended early, or never a complete one; and no body when the head is not acceptable or the method is HEAD; a body is relayed only for an acceptable head |
| MeshCoordinator.Coordinator.PickOrder | szl_router/mesh_coordinator.py:308-356 | exactly the reachable sovereign workers, each once, by requests in flight, then by position plus cursor modulo their number, then by position, with the tier fixed by their count and the cursor one further; else the tailnet workers in the same order; else the failover if it is up; else nobody |
| MeshCoordinator.RotationFair | szl_router/mesh_coordinator.py:327-335 | with equal load and live indices distinct modulo n, any n consecutive picks put each live worker first exactly once |
| MeshCoordinator.RotationExact | szl_router/mesh_coordinator.py:327-335 | that fairness holds for all cursors if and only if the live indices are distinct modulo n |
| MeshCoordinator.ShadowedNeverFirst | szl_router/mesh_coordinator.py:332-335 | a worker congruent to an earlier live worker is never first |
| MeshCoordinator.ThirdOfFourStarves | szl_router/mesh_coordinator.py:332-335 | four workers with the first and third up: the first is always tried first |
| MeshCoordinator.Coordinator.Proxy | szl_router/mesh_coordinator.py:359-420 | the requests went to the first nodes of the picked order, one each, and the trail is what they came to; each node's count, the failover's too, ends where it began except one lower for a node whose answer could not be encoded again, and all counts are unchanged if and only if there was none |
| MeshCoordinator.ExchangeExact | szl_router/mesh_coordinator.py:387-419 | an answer below 500 serves and leaves a success row of its status; one of 500 or more, or none, leaves a failure row and the next node is tried; so does an object that cannot be encoded again, after its success row |
| MeshCoordinator.LateFailureDrifts | szl_router/mesh_coordinator.py:387-419 | at one worker with such an answer, whatever it be: the count ends one lower and the trail holds a success and a failure of the same exchange |
| ContentLength.SameLengthOrder | szl_router/mesh_coordinator.py:648-649 | digit strings of one length are ordered as text exactly as they are as numbers |
| ContentLength.CompareExact | szl_router/mesh_coordinator.py:647-649 | the length-then-text comparison of normalized digits is the comparison of the numbers |
| ContentLength.NormalizeExact | szl_router/mesh_coordinator.py:646-646 | stripping zeros keeps the value and leaves a normal form |
| ContentLength.TrimExact | szl_router/mesh_coordinator.py:640-640 | trimming removes the spaces and tabs at both ends and nothing else |
| ContentLength.MeaningExact | szl_router/mesh_coordinator.py:627-663 | a body is read exactly if no transfer encoding is given and the one length field is a positive decimal number within the bound, blanks around it or not; which of the other four decisions is taken is told from the fields in the same way |
| ContentLength.ReadBody | szl_router/mesh_coordinator.py:624-663 | for digit strings of any length the decision is the numeric one, and a text is converted to a number exactly when it is read or zero, and then is no longer than the limit's own decimal form |
| SpacePublisher.Publisher.Record | scripts/router_control_space.py:348-351 | the receipt in memory changes first and the file second, and the file is never less honest than the effects: its outcomes, its phase and the checks it relies on |
| SpacePublisher.Publisher.CreateRepo | scripts/router_control_space.py:374-378 | creation is requested only after the first checks passed and with the request already on disk |
| SpacePublisher.Publisher.UploadFolder | scripts/router_control_space.py:395-400 | the upload is requested only after every check that guards it passed and with the request already on disk |
| SpacePublisher.Publisher.VerifyFiles | scripts/router_control_space.py:222-231 | success means the revision's file set is exactly the expected one, every file byte for byte and none too large; a refusal says what is wrong, and anything else was a failed download |
| SpacePublisher.Publisher.FindOrCreate | scripts/router_control_space.py:367-379 | creating the Space leaves its receipt honest at every failure, and upload untouched; it fails only if a call or a write did |
| SpacePublisher.Publisher.Upload | scripts/router_control_space.py:395-408 | from the write-ahead record to the read-back files, with the published revision exact; it fails only if a call or a write did, the upload named no revision, or the files differ |
| SpaceRuntime.AlignedExact | scripts/router_control_space.py:303-321 | the ordered checks pass exactly on an answer that names this revision and says it is running |
| SpaceRuntime.WitnessExact | scripts/router_control_space.py:324-339 | the three requests and nine comparisons pass exactly when all endpoints answered and attest this source, with no egress and no inference |
| SpaceRuntime.ShaExact | scripts/router_control_space.py:34-34 | a revision is forty digits and letters from a to f |
| SpaceRuntime.StageExact | scripts/router_control_space.py:315-321 | what each stage of the published revision means: running passes, nine that may still get there and none at all are waited for, six are terminal, anything else is unknown |
| SpaceRuntime.PassExact | scripts/router_control_space.py:303-339 | the poll goes on exactly after a pass without a final answer: the revision not named yet or not running yet, or the first endpoint that gave no answer rejected or unavailable; it succeeds exactly on a pass that shows the revision running and attested |
| SpacePublisher.Publisher.AwaitRuntime | scripts/router_control_space.py:410-430 | the bounded poll makes a pass every ten seconds and one at the deadline; it succeeds on a pass on which the provider named the published revision as running and the three endpoints attested the source revision, and ends otherwise only on a pass that refuses or raises, on one with no final answer and no time left, or on a failed call; every pass before the last had no final answer |
| SpacePublisher.Publisher.Publish | scripts/router_control_space.py:342-435 | when it returns, MEASURED is on disk and nothing failed; every other end leaves an honest receipt and has its reason: a failed call or write, an upload without a revision, other files, or the end of the poll |
| SpacePublisher.Publisher.RunAll | scripts/router_control_space.py:444-470 | at every moment of a run, crash or not, the receipt on disk neither hides nor invents a remote effect; exit code zero means every file was read back equal at the published revision, which the provider named as running on a pass of the poll on which the endpoints attested the source; it is the exit code exactly when publishing succeeded and its receipt was written; otherwise there was a reason outside, and a written receipt names a refusal as BLOCKED with its code and a crash as UNKNOWN |

## Left out

- Sockets, TLS, HTTP client internals, FastAPI and threads as operating-system objects: oracles and interleaved steps stand for them.
- SHA-256, HMAC and signing: arbitrary functions to digests; signatures are not modelled.
- UTF-8 and lone surrogates: JSON text is a sequence of code points; byte lengths are computed from them. The interpreter's limit on the digits of one integer is not part of this model.
- Floats: a JSON float is kept as its text, so rounding, normalisation and the exact test of finiteness for numbers are parameters.
- `default=str` in the canonical printer and `NaN` constants in upstream JSON: values are taken to be JSON.
- RequestBudget.Budget.Reserve: does not model a clock that returns a bad value in the middle of `chat`; the step functions cover such readings. Label validation of the request id is left out.
- Failover.Router.Backoff: the delay is any non-negative number, so the jitter schedule is not stated.
- Failover.Router.Chat: provider availability, the cooldown length and the retry cap are fixed for one call; `szl-auto` scoring, receipts to a sink, latency and the checks on `extra` are left out; other users of the shared budget may cancel or close it but not reserve from it.
- Failover.Router.Post: whether a payload or a URL makes the call fail before it sends is a free choice; other callers of the pool do not appear in the failover engine, and `ConnectionPool.PoolIsSafe` covers their interleaving with the pool.
- ConnectionPool.HttpPool.Receive: response parsing is a free choice of status, keep-alive, end of stream and decode result; the object runs one call at a time, and the machine interleaves them.
- EmbeddingCache.Cache.Embed: the budgeted variant of `embed`, whose retry path is that of `chat`, is left out, and so is the deep copy of entries, which is the identity on JSON values by `JsonRoundTrip.PrintParse`.
- EmbeddingCache.Cache.Get: the wall clock is taken not to be set back; if it were, an entry would live longer by as much.
- EmbeddingBatch.CheckVector: base64 text is the strict grammar of RFC 4648; what older interpreters tolerate after padding is not modelled.
- Base64.DecodeEncode: line breaks and other alphabets are not part of this model.
- Ledger.ChainIntact: a row that is JSON but not an object counts as not intact, where the code raises.
- Ledger.LedgerFile.AppendRow: a failed write leaves a prefix of what was to be written, and `record` is taken to be the file's only writer while it runs.
- Receipt.EmittedIff: the identity block of local models is an arbitrary JSON value.
- LocalStore.VerifyStore: directory entries, links and the scan lock are left out, so is a root that is not absolute; decoding UTF-8 and comparing a float with two are parameters.
- Gateway.Attempt: what happens inside an awaited attempt is a free choice of its result.
- ChunkedRelay.Relay: header values are taken as the HTTP client splits them, the head sent to the client is not modelled, and a failed write is taken to deliver a proper prefix.
- MeshRouter.Process.Proxy: request admission before the loop is a free choice; header and body deadlines are part of it.
- MeshCoordinator.Coordinator.PickOrder: loads are read at one moment and workers are told apart by position, where `list.index` compares field by field; probing is left out.
- MeshCoordinator.Coordinator.Proxy: counts are those of one request; increments of concurrent requests commute with them. Which answers cannot be encoded again is a parameter: the text is all ASCII escapes, so only memory and nesting could decide it.
- SpacePublisher.Publisher.Publish: the admission of an existing Space's files, the card check and how a single request fails are free choices that can refuse.
- Price tables, harvest feeds, complexity scoring, the free tier, the web interface and the deployment scripts: they would only add easy members.
