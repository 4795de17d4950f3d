# A verified model of the runner scale-set client

The crate is a client for GitHub's runner scale-set message queue. Under its HTTP
calls there are two protocols and several small algorithms. This project models
them in Dafny 4.11 and proves what they promise. `dafny verify dfyconfig.toml`
checks everything.

## What is modelled

**The message loop** (`src/listener.rs`). `Protocol.dfy` gives the loop as a step
relation on observable events: one event per call to the session or the scaler,
with its answer. An answer may be `Lost`, which stands for a dropped future or a
dead process. `RunTraces.dfy` proves what every trace looks like. `Listener.dfy`
is the class with the source's own control flow; each method is proved to extend
an accepted trace, with exactly the events its environment causes.
`Delivery.dfy` puts the loop next to the server's queue, over any number of runs,
crashes and restarts, and proves that no message is lost, and exactly when a queued
message can still be processed. `DeliveryProgress.dfy` bounds how long that takes.
`EarlyAck.dfy` shows that the acknowledge-first order of the upstream Go listener
does lose messages.

**The two-level token refresh** (`src/session.rs`, `src/client.rs`).
`TokenRefresh.dfy` is an interleaved transition system: any number of tasks, each
one queue operation, on any number of message sessions over one client. Every
`.await` is a boundary between two steps, and at each of them a task may be
cancelled, which drops the guards it holds. `RefreshSafety.dfy` proves what every
step keeps, `RefreshTheorems.dfy` what follows for every run, and
`RefreshProgress.dfy` deadlock freedom and termination. `StaleToken.dfy` and
`BudgetTight.dfy` show that an assumption is needed and that a bound is exact.
`SessionClient.dfy` is the code of one task, statement by statement: it reads and
writes the stored sessions, the mutexes and the admin cache as fields, with a ghost
run of the transition system beside them, and `Valid` ties the fields to the last
state of that run. The other tasks, which interfere at every await point, are steps
of the transition system.

**The algorithms.** `Http.dfy` is the retry engine and its backoff, `Auth.dfy` the
base64url decoder and the choice of the JWT payload, `Urls.dfy` the
percent-encoder, the query assembly and the path join, `Messages.dfy` the batch
splitter, and `Errors.dfy` the error tree that decides whether a session is
refreshed. `Composition.dfy` joins them: from a batch to the calls it causes, from
the answers on the wire to the steps of the refresh, and from the claims of an admin
token to the expiry the cache is checked by.

## Assumptions on the environment

- Messages are published with increasing positive ids. A poll returns the queued
  message with the smallest id above its cursor.
- A queued message disappears only through a DELETE for its id. A DELETE that was
  answered with an error, or never, may still take effect, at any later time.
- The token in the answer to a PATCH was never stored in that session before. Only
  the theorems on runs with `novel == true` use this. `StaleTokenFoolsRecheck`
  shows that nothing less will do: for every `n` it is not enough that the token
  differs from the last `n` ones.
- Every HTTP request completes or fails, after at most the number of sends that
  the retry engine allows. The retry engine itself is proved against arbitrary
  outcomes.
- One driver per listener: nobody calls `handle_one` on a listener that is running.

The environment of a run is a function of the number of events so far (`Env`), so
the theorems hold for every behaviour of the session, the scaler and the stop
channel. The loop of the source has no end of its own. `RunWithStop` observes it
for any number of rounds (`turns`) and returns `Running` when it would go on. In
the same way a method of `SessionClient` that finds a mutex taken returns
`Blocked`: it still waits when the observation ends. At an await point any time may
pass, the other tasks may take any steps they can, and the operation may be
dropped (`Await`).

## Where a promise does not hold as stated

- `actions_url` leaves its api-version out when the query so far contains the text
  `api-version=` anywhere, also inside another key (`src/client.rs:302`).
  `ApiVersionsSent` says exactly when no api-version is sent, and
  `SubstringHidesApiVersion` shows it on the base `h?xapi-version=1` with every
  plain path.
- `actions_url` leaves the separator out when the URL so far ends in `?`, which it
  takes for the start of the query. `ExistingQueryExtended` gives the exact
  condition and `TrailingQuestionMark` a concrete base. The case is latent: every
  caller passes a non-empty path that does not end in `?`, and for those
  `PairsAlwaysAppended` proves that the pairs still to be added all arrive.
- The re-check under the session lock compares tokens. If PATCH returned a token the
  session had before, the re-check would pass again: `StaleTokenFoolsRecheck`.
- A message without statistics is never acknowledged, and since it stays queued no
  later message is ever received: `NoStatisticsNeverDeleted` and
  `NoStatisticsBlocksQueue`. `DeliverableIffUnblocked` is the exact condition: a queued
  message can still be processed and acknowledged if and only if every queued message
  up to it has statistics, which its publisher can check. When it holds, one further
  run without a failing call is enough (`OneRunDelivers`), and every run whose polls
  bring messages and whose calls succeed gets there in time (`DeliveredInTime`).

## Model

| member | source | states |
|---|---|---|
| Delivery.NoMessageLost | README.md:53-70 | In every history of publications, runs, failed or lost calls, dropped polls, crashes, restarts and late DELETEs, each published message is still queued, or some run did all its work successfully right before sending its DELETE. |
| Delivery.CursorSound | src/listener.rs:179-192 | Whenever the loop polls, every queued message has an id above its cursor, across restarts too. |
| Delivery.QueuedIsWithinReach | src/session.rs:174-187 | A message that is still queued when the loop polls can be delivered: the server has a next message for that cursor, and it is not a later one. |
| Delivery.NoStatisticsNeverDeleted | src/listener.rs:258-262 | A message without statistics stays queued for ever and no run sends a DELETE for it. |
| Delivery.NoStatisticsBlocksQueue | src/listener.rs:232-262 | Such a message blocks the queue: in no history does any run receive a message published after it. |
| Delivery.LostDeleteTakesEffect | src/listener.rs:250-253 | A DELETE whose answer was an error or never came can still take effect, and nothing is lost by it. |
| Delivery.DeliverableIffUnblocked | src/listener.rs:258-262 | In every history a queued message can still be processed and acknowledged, in some continuation, if and only if every queued message up to it has statistics, which is what the guard of `process` asks. |
| Delivery.OneRunDelivers | src/listener.rs:150-310 | If nothing without statistics is queued up to a message, one further run, all of whose calls succeed, processes and acknowledges it. |
| Delivery.NotProcessedAfter | src/listener.rs:258-262 | In no history is a message processed that is, or comes after, one without statistics. |
| Delivery.ReceivedOncePerRun | src/listener.rs:179-238 | The ids one run receives rise strictly, so no run receives a message twice; only a later run can. |
| DeliveryProgress.DeliveredInTime | src/listener.rs:179-310 | A queued message with nothing up to it that lacks statistics is processed and acknowledged in every run that makes as many successful calls and delivering polls as were ahead of it at the start, whatever is published or takes effect meanwhile. |
| DeliveryProgress.EventsCount | src/listener.rs:179-310 | As long as that message stays queued, every productive event takes one off what is ahead of it: the rest of the turn, and poll, work and DELETE of each queued message up to it. |
| Delivery.StepKeepsInv | src/listener.rs:150-310 | Every step of the loop and of the server keeps: ids increase, runs are accepted, received messages were published, what left the queue had a DELETE sent, and nothing queued is at or below the cursor. |
| Delivery.HistoryKeepsInv | src/listener.rs:150-310 | The invariant holds in every reachable world. |
| EarlyAck.EarlyAckLoses | README.md:55-70 | Under the acknowledge-first order every message with statistics has a history in which its DELETE is confirmed, the next call fails, none of its jobs was acquired or reported, and it is neither queued nor processed. |
| RunTraces.TraceOnPlan | src/listener.rs:150-310 | The trace of a run is exactly the plan for its polls while the loop lives, the plan and the stop after a stop, and a prefix of it up to the failing event after a failure. |
| RunTraces.EndsAtFirstFailure | src/listener.rs:165-237 | A failing event is the last event of the run. |
| RunTraces.ReceivedAcknowledged | src/listener.rs:232-256 | Between messages and after a stop the ids received are the ids acknowledged, in order; while one is handled, and after a failure, at most the last one is missing. |
| RunTraces.PollCarriesLastAck | src/listener.rs:179-200 | Every poll carries the id acknowledged last in this run, or 0; two polls in a row happen only after a dropped one, with the same cursor. |
| RunTraces.CursorIsLastAck | src/listener.rs:232-238 | At every point of a run the cursor is the id acknowledged last, or 0. |
| RunTraces.DesiredIsLatest | src/listener.rs:160-230 | Every desired count the scaler is given is the assigned total of the statistics stored last before it. |
| RunTraces.LatestIsStored | src/listener.rs:312-323 | The stored statistics are those of the last store event, or from before the run if there was none. |
| RunTraces.NilStatisticsEndsRun | src/listener.rs:243-262 | A message without statistics ends the run with its error; nothing is called, acknowledged or stored after its poll. |
| RunTraces.DeleteAfterWork | src/listener.rs:243-310 | Right before any DELETE stand the poll that received that message and then all its successful work, in order and with nothing in between. |
| RunTraces.HandlingIsUnderway | src/listener.rs:258-310 | While a message is handled, the trace ends with its poll and the part of its work that is done. |
| RunTraces.CallsFollowPoll | src/listener.rs:258-310 | Every call for a message is about the one the last poll received: the acquire asks for the request id of each of its available jobs, one for each and in order, the jobs reported are its own, and the DELETE carries its id. |
| RunTraces.RunBegins | src/listener.rs:156-178 | A run begins by storing the statistics of its session and asking for their assigned total. |
| RunTraces.FailureNamesCall | src/listener.rs:165-310 | The error of a failed run names the call that failed, its last event; a run cut short by a lost answer has none. |
| ListenerLoop.Listener.New | src/listener.rs:28-99 | A listener is built exactly for a non-zero scale set and a non-negative maximum, with no statistics. |
| ListenerLoop.Listener.SetMaxRunners | src/listener.rs:116-124 | A negative count is refused and changes nothing. |
| ListenerLoop.Listener.Process | src/listener.rs:258-310 | A normal return has made, in this order, one successful acquire of the request id of every available job, if there are any, one report for every started job, one for every completed job, and the desired count of the assigned total; a failing call leaves its own error, and without statistics nothing is called. |
| ListenerLoop.Listener.HandleMessage | src/listener.rs:243-256 | A normal return means that the statistics were stored, all work was done, and then the DELETE of this very id was confirmed, and the cursor is this id; any failure leaves the loop with its own error. |
| ListenerLoop.Listener.WatchStop | src/listener.rs:181-206 | A set flag or a dropped sender stops the run; a spurious change drops the poll and the loop polls again with the same cursor. |
| ListenerLoop.Listener.Poll | src/listener.rs:190-239 | One poll with the cursor and the maximum at that moment, and its reaction: without a message one desired count and the same cursor, with one its confirmed DELETE and its id as cursor; otherwise the error of the call that failed. |
| ListenerLoop.Listener.RunWithStop | src/listener.rs:150-241 | For every environment the recorded trace is accepted by the protocol from the initial state and is the one this environment causes; each kind of return matches the protocol state. |
| ListenerLoop.Listener.RunUntil | src/listener.rs:133-148 | A normal return needs a stop channel and has acknowledged all that was received; an error misses at most the last message; the trace fits the plan; a bad initial session causes no event. |
| ListenerLoop.Listener.HandleOne | src/listener.rs:126-131 | One message handled outside the loop follows the same protocol from storing to acknowledging. |
| ListenerLoop.TraceDetermined | src/listener.rs:150-241 | The contract of the loop leaves no choice: two traces from the same start that the same environment causes agree as far as both go. |
| ListenerLoop.NothingAfterRefusal | src/listener.rs:156-163 | A session without an id or without statistics starts no call at all. |
| RefreshTheorems.MutualExclusion | src/session.rs:138-139 | In every run at most one task is inside the refresh of a session, and at most one is fetching an admin token. |
| RefreshTheorems.RetryUsesNewerToken | src/session.rs:313-379 | In every interleaving the second attempt carries a session value stored strictly after the rejected one, with a different token. |
| RefreshTheorems.OnlyPatchReplaces | src/session.rs:138-172 | A stored session changes only by an answered PATCH of the lock holder, and that PATCH replaces exactly the value the holder saw rejected; failed and dropped refreshes change nothing. |
| RefreshTheorems.HistoryGrows | src/session.rs:169-169 | Stored generations are never rewritten or lost. |
| RefreshTheorems.OneInstallPerToken | src/session.rs:141-147 | Two installations in one session never replace the same token, however many tasks saw 401 with it. |
| RefreshTheorems.OnePatchPerGeneration | src/session.rs:138-172 | A replaced generation cost exactly one PATCH more than its failed and dropped ones, whatever PATCH returns. |
| RefreshTheorems.AdminCacheSound | src/client.rs:382-405 | The cache is empty or well formed; only the holder of the client lock writes it, and only with the token its last request returned. |
| RefreshTheorems.HandedOutToken | src/client.rs:382-417 | A call to `update_token_if_needed` goes on only with a cached token that had more than 60 s left at its check, or with one it just stored; the address of the PATCH is that of the token, and so is its header. |
| RefreshTheorems.FetchOnlyWhenStale | src/client.rs:386-417 | A fetch starts only under the client lock, and only when the cache has no token, or one without an expiry or with at most 60 s left. |
| RefreshTheorems.ConnectionDecides | src/client.rs:394-405 | The answer of the runner-registration endpoint is stored and handed out if and only if it has an address, a token and a readable expiry; otherwise the operation fails with the cache as before; either way the lock is free. |
| RefreshTheorems.ColdStartFetchesOnce | src/client.rs:382-405 | From a cold cache, and while stored tokens stay usable, all tasks together start at most one fetch more than failed or were dropped; so one if none did. |
| RefreshTheorems.OperationBudget | src/session.rs:267-379 | One operation sends at most 3·(Rs+1) requests on the session transport, and on the client transport at most 2 refreshes, or 4 for acquire, of 2 or 3 requests with Rc+1 sends each, where n+1 saturates at the u32 limit. |
| BudgetTight.BudgetAttained | src/session.rs:267-379 | Both bounds are reached in one run, for each of the three operations, with and without a GitHub App, and for every pair of retry limits, if any admin token has a readable expiry. |
| StaleToken.StaleTokenFoolsRecheck | src/session.rs:141-147 | For every n there is a run in which each PATCH answer differs from the last n tokens of its session, and yet one task retries with the very token that was rejected and another passes the re-check n+1 replacements late and is about to PATCH. |
| RefreshProgress.NeverDeadlocked | src/client.rs:382-390 | In every reachable state with an unfinished task some task can move without being cancelled. |
| RefreshProgress.SomeoneMoves | src/session.rs:138-155 | Following the locks from any unfinished task finds a task that can move: a client-lock holder waits for nothing, a session-lock holder at most for the client lock. |
| RefreshProgress.EveryRunEnds | src/session.rs:313-379 | A run has at most 32 task steps per task, and one that no task can extend has finished every operation. |
| RefreshProgress.StepsConsumeRank | src/session.rs:138-172 | Every task step of a run uses up some of a bounded total rank. |
| RefreshSafety.StepKeepsInv | src/session.rs:138-379 | Every step of any task, cancellation included, keeps both mutexes, the PATCH and fetch counts, the admin cache and the request budgets. |
| RefreshSafety.StepKeepsFreshInv | src/session.rs:138-379 | With a fresh token every step keeps: snapshots were stored once, a refreshing task carries the stored one, a retry a newer one, and tokens of a session are distinct. |
| RefreshSafety.RunKeepsInv | src/session.rs:138-379 | The first invariant holds in every state of every run. |
| RefreshSafety.RunKeepsFreshInv | src/session.rs:138-379 | The second invariant holds in every state of every run with fresh tokens. |
| SessionClient.LocalAlike | src/session.rs:138-172 | A step of a task reads and writes no more of a message session than its stored values and its mutex, so the fields of the code determine it. |
| SessionClient.Runtime.Await | src/session.rs:138-172 | Whatever time passes and whatever steps the other tasks take at an await point, the fields follow the run and this task is as it was, unless it was dropped; then it holds no guard. |
| SessionClient.Runtime.SnapshotToken | src/client.rs:407-417 | The cached token is returned if and only if it is non-empty and its expiry is more than 60 s away, and it is then well formed. |
| SessionClient.Runtime.StoreToken | src/client.rs:396-404 | The fetched token becomes the cached one, with the header and expiry of its text, and the client mutex is free of this task. |
| SessionClient.Runtime.UpdateTokenIfNeeded | src/client.rs:382-405 | A normal return hands out the cached token, well formed, with more than 60 s left or stored by the last step, and the client mutex released; otherwise the operation is over without its guards, or waits for a mutex another task holds. |
| SessionClient.Runtime.FetchToken | src/client.rs:394-404 | The two or three requests of a fetch never wait for a lock; they end with the token cached, handed out and the mutex released, or with the operation over. |
| SessionClient.Runtime.CurrentSession | src/session.rs:79-81 | The session returned is the stored one; read again after a refresh, it is of a later generation and has another token than the rejected one. |
| SessionClient.Runtime.Compare | src/session.rs:141-147 | The refresh ends without a PATCH, with its mutex released, if and only if the stored session id or token differs from the rejected one. |
| SessionClient.Runtime.StorePatch | src/session.rs:169-171 | The answer to the PATCH becomes the stored session, right after the rejected one and different from it, and the mutex is free. |
| SessionClient.Runtime.RefreshSession | src/session.rs:138-172 | After a normal return the mutex is free and the stored session is not the rejected one: with no request sent, or as the PATCH answered; otherwise the operation is over without its guards, or waits for a mutex another task holds. |
| SessionClient.Runtime.AttemptOnce | src/session.rs:174-308 | A 401 leads on to a refresh only from a first attempt; any other answer ends the operation, with success exactly if it was accepted. |
| SessionClient.Runtime.QueueOperation | src/session.rs:313-379 | At most two attempts are answered, the second only after a 401 and with another token; the last answer decides the outcome, success needs an accepted one, no guard outlives the operation, and both transports stay within the budget. |
| Http.SendWithRetryStatuses | src/http.rs:71-124 | For every stream of outcomes: a send is repeated exactly after a network error, 429, a 5xx other than 501, or an extra status, up to min(`retry_max`+1, 2^32-1) sends; the last outcome is returned; between sends it sleeps the Retry-After of a 429 or 503, else min(2^k, 2^32-1, cap) seconds. A request that cannot be cloned is sent once. |
| Http.StopsOnce | src/http.rs:79-111 | The stopping point is unique, so the contract of the engine determines the run. |
| Http.BackoffIsMin | src/http.rs:164-168 | The delay is the least of 2^attempt s, 2^32-1 s and the cap, in nanoseconds: the multiplication never saturates. |
| Http.BackoffMonotone | src/http.rs:164-168 | The delay never falls from one attempt to a later one and never exceeds the cap. |
| Http.CappedPowersClosed | src/http.rs:164-168 | The sum of the first n capped powers of two is 2^m-1+(n-m)·cap, m being the powers within the cap. |
| Http.TotalBackoff | src/http.rs:164-177 | Without Retry-After n retries under a whole-second cap sleep exactly the closed form. |
| Http.WorstCaseSleep | src/http.rs:71-114 | A run of the engine without Retry-After sends at most `retry_max`+1 times and sleeps the closed form for one less. |
| Auth.DecodeB64 | src/auth.rs:91-117 | The loop decodes whole groups of four in order and drops a shorter rest. |
| Auth.DecodedConcat | src/auth.rs:102-115 | Decoding distributes over concatenation at group boundaries. |
| Auth.NormalizeAndPad | src/auth.rs:77-81 | `-` becomes `+`, `_` becomes `/`, and the least number of `=` follows that fills the last group. |
| Auth.GroupIs | src/auth.rs:107-113 | The second byte of a group is missing exactly when its third character is `=`, and the third byte exactly when its fourth character is. |
| Auth.BytesAre | src/auth.rs:106-112 | The bytes of a group are the 24 bits of its four values, in 8-bit shifts. |
| Auth.Table | src/auth.rs:92-98 | The table runs over the letters, the digits, `+` and `/`; any other character counts as 0. |
| Auth.DecodesEncoding | src/auth.rs:76-117 | Normalising, padding and decoding undoes unpadded base64url (section 5 of RFC 4648) for all byte sequences, in 8-bit arithmetic. |
| Auth.SelectsPayload | src/auth.rs:71-74 | For a dot-free header and payload exactly the payload is selected, whatever follows. |
| Auth.PayloadIffDot | src/auth.rs:71-74 | The segment is missing if and only if the token has no `.`. |
| Auth.HasPayload | src/auth.rs:71-74 | In every token with a dot the segment selected is what stands between the first dot and the second one, or the end. |
| Auth.JwtExpiresAt | src/auth.rs:71-89 | The JSON parser is given the decoded bytes of what stands between the first dot and the second one, or the end; a token without a dot is `JwtMissingExp`. |
| Auth.ReadsEncodedClaims | src/auth.rs:71-89 | On a compact JWT (section 7.1 of RFC 7515) the bytes parsed are exactly the claims that were encoded into it. |
| Urls.JoinAssociative | src/config.rs:145-163 | Joining is associative on all strings, empty and all-slash ones included. |
| Urls.TrimKeepsHead | src/config.rs:155-162 | Exactly the slashes at the end are trimmed. |
| Urls.JoinShape | src/config.rs:145-163 | The base without its trailing slashes is followed by the path, with exactly one slash put in front of a non-empty path that has none. |
| Urls.UrlencodingLite | src/client.rs:513-524 | The loop produces the encoding that the next three rows are about. |
| Urls.EncodeRoundTrip | src/client.rs:513-524 | Percent-decoding (section 2.1 of RFC 3986) undoes the encoder on every byte string. |
| Urls.EncodeInjective | src/client.rs:513-524 | Different strings have different encodings. |
| Urls.EncodeWellEncoded | src/client.rs:513-524 | Only unreserved characters (section 2.3 of RFC 3986) and upper-case %HH are produced. |
| Urls.EncodeSnocIs | src/client.rs:513-524 | Byte by byte: letters, digits and `-_.~` stand for themselves, every other byte becomes `%` and its two upper-case digits. |
| Urls.ActionsUrl | src/client.rs:286-320 | The statements assemble the URL that the next two rows are about. |
| Urls.FreshQueryRoundTrip | src/client.rs:292-319 | On a base and path without `?`, a `?` and the query are appended, and parsing the query gives exactly the given pairs in order, and then one api-version if none was given. |
| Urls.DefaultUrl | src/client.rs:297-319 | Without given pairs exactly the bytes of `?api-version=6.0-preview` are appended. |
| Urls.QueryStringIs | src/client.rs:312-316 | Pairs are written `key=value`, encoded, with `&` between them. |
| Urls.ExistingQueryExtended | src/client.rs:300-318 | On any base and path whose join has a query, the pairs still to be appended follow those of the query if and only if there are none, or the query is empty or does not end in `?`. |
| Urls.TrailingQuestionMark | src/client.rs:307-311 | On the base `h?a?` and the empty path, which no caller passes, the api-version does not become a pair of its own. |
| Urls.PairsAlwaysAppended | src/client.rs:292-318 | On every base and every non-empty path that does not end in `?`, the query so far is followed by the given pairs and, if they have no api-version, the default one; when it contains the text `api-version=`, by the given pairs without any api-version. |
| Urls.WithoutKeyIsStable | src/client.rs:303-303 | The pairs retained are exactly those with other keys, in order. |
| Urls.ApiVersionsSent | src/client.rs:297-305 | The result has the api-versions of the query so far plus the given ones or else one, but none of the latter if the query contains the text `api-version=`; it has none at all if and only if that text is there and no such key. |
| Urls.SubstringHidesApiVersion | src/client.rs:300-305 | On the base `h?xapi-version=1` and every plain path the only pair sent has the key `xapi-version`. |
| Messages.ParseMessage | src/types.rs:293-342 | A success has the id and the statistics of the response and each of the four lists filtered from the batch; it fails exactly for another message type, a body that is not an array, or an entry with a bad envelope or with a known type and no readable job. |
| Messages.SplitConservesCount | src/types.rs:313-341 | The lengths of the four lists and the ignored entries add up to the batch. |
| Messages.FilterIsStable | src/types.rs:316-338 | Each list holds the payloads of all entries of its type that read as a job, at strictly increasing positions. |
| Messages.JobsOfConcat | src/types.rs:314-339 | The filters distribute over concatenation of batches. |
| Errors.MappedKinds | src/error.rs:157-242 | The kinds of a mapped error are exactly the seed, or else the first of the three exceptions that a JSON body names, and the kind of status 400, 401, 404 or 409; its status is the response's. |
| Errors.ContextPreserves | src/error.rs:84-123 | Any depth of context preserves every kind and the status. |
| Errors.TreeKinds | src/error.rs:95-113 | However deep an error is wrapped in contexts, kinds and statuses, its kinds are its own and those of the layers. |
| Errors.TreeStatus | src/error.rs:115-123 | Its status is that of the outermost layer with one, or its own. |
| Errors.RefreshIffUnauthorized | src/session.rs:204-221 | An attempt of any queue call looks like an expired token if and only if the queue request itself was answered 401. |
| Errors.AdminUnauthorizedIsNotExpiry | src/client.rs:497-499 | A 401 of an admin endpoint is `Unauthorized` at any depth of context, and never an expired queue token. |
| Errors.FailureKinds | src/session.rs:202-307 | A failed attempt has the kind of its wrong status and of a named exception, on 401 that of an expired token instead of the latter; a refusal of an admin endpoint the same without the expired token; any other failure has neither kind nor status. |
| Errors.CompletesIff | src/session.rs:202-307 | An attempt completes if and only if it was answered 204 (DELETE), 200 with a readable body or 202 (poll), or 200 with a readable body (acquire); any other answer is an error with its status, or without one if only the body was unusable. |
| Composition.BatchBecomesWork | src/listener.rs:258-310 | The calls for a parsed batch are one acquire of the request ids of all its JobAvailable payloads if any, its JobStarted and its JobCompleted payloads, each in batch order, and the assigned total. |
| Composition.ParsedIsDeleted | src/listener.rs:232-256 | The DELETE after a parsed batch in a run carries the id of its response, and exactly the work for that batch stands between the poll and the DELETE. |
| Composition.RefreshIffSomeSendUnauthorized | src/session.rs:320-338 | Through retries and error mapping, a queue call refreshes its session if and only if one of its sends was answered 401. |
| Composition.WireDecidesStep | src/session.rs:202-222 | For every wire a queue request takes its task to the refresh if and only if it was a first attempt and some send was answered 401, and to success if and only if the last send was answered 204 (DELETE), 200 with a readable body or 202 (poll), or 200 with a readable body (acquire); every send counts. A queue URL that does not parse ends the operation without a send or a refresh. |
| Composition.CachedExpiryIsClaim | src/client.rs:396-404 | In every run the expiry the cache is checked by is the `exp` of exactly the claims encoded into the cached token. |

## Left out

- HTTP, TLS, timeouts, headers, User-Agent: a request is an outcome the environment chooses.
- JSON, `Url`, `Uuid`, RFC 3339 and RFC 2822 dates, RSA signing: library behaviour; a batch entry comes with its parse result, `readExp` stands for the claims parser.
- The clock: time is an integer that never decreases. The expiry of an admin token is a function of its text; `CachedExpiryIsClaim` is about the one of `Auth.dfy`, for any reading of a text as UTF-8.
- Retry-After dates and the draining of responses: the header is an optional delay.
- `retry_wait_max` with fractions of a second: covered by `BackoffIsMin` and `BackoffMonotone`, not by the closed form.
- Message texts of errors: opaque; only kinds and statuses are modelled.
- Job payloads: reduced to the request id and the job id.
- `lastMessageId` in the poll URL: the cursor is passed to the server as a number; 0 stands for the missing parameter, as ids are positive.
- The DELETE URL (`src/session.rs:230-237`): left to the URL library; the server sees the id.
- `create_session`, `close`, `delete_session`: straight sequences of requests; a session starts as just created.
- CRUD calls for scale sets, groups and runners, JIT configuration, `ensure_labels`, `apply_default_label_types`, credential validation, metrics, tracing: easy members.
- `GitHubConfig::parse`, `github_api_url`, hosted-host detection: `Url` calls and an environment variable.
- Poisoned locks: the statistics lock never fails here.
- `set_system_info` and the lock on the client transport: the transport is fixed.
- Fairness of the mutexes: deadlock freedom and the bound on steps hold for every scheduler, but which waiter gets a lock is not modelled.
- ListenerLoop.Listener.RunWithStop: infinite runs are observed by their finite prefixes, because the loop has no end of its own.
- SessionClient.Runtime.QueueOperation: the three operations share one method, as their source differs only in the single attempt, and a wait for a taken mutex ends the observation.
- SessionClient.Runtime.Unwind: an error drops all guards of the operation at once, where it occurs; the source drops them one after the other on the way out, with no await in between.
- The ids that `acquire_jobs` returns (`src/listener.rs:275-281`): the source only logs their number, and acknowledges the message also when some ids were not acquired.
