# Verified model of odoo_mcp

This project models the server-side machinery of the Odoo MCP server and proves properties of it in Dafny 4.11:

- **Rate limiting**: the in-memory token bucket and the Valkey counter behind the `rateChecker` interface
  (`RateTrace.dfy`, `TokenBucket.dfy`, `ValkeyLimiter.dfy`).
- **The per-user read cache**: its key formats (`Keys.dfy`), the SCAN/DEL invalidation loop (`Invalidation.dfy`), the
  middleware for one user at a time (`SequentialCache.dfy`), the shared cache under concurrent requests of many users
  (`ConcurrentCache.dfy`), and the resolver of the Odoo uid (`UidResolver.dfy`).
- **User provisioning and login**: the hex/AEAD codec of stored API keys (`Crypto.dfy`), mapping rows, login and server
  choice (`Accounts.dfy`), provisioning as interleaved multi-step requests over two stores (`Provisioning.dfy`), and the
  admin handlers (`AdminHandler.dfy`).
- **Tool handlers**: guard order and what each call sends to Odoo (`Tools.dfy`), what Odoo executes for it
  (`OdooApi.dfy`), which model and method a request reaches (`Routing.dfy`), guarantees of whole runs (`ToolRuns.dfy`),
  the tools' names and the cache's sets (`ToolNames.dfy`), the load on Odoo when the cache's resolver takes part
  (`CachedLoad.dfy`), the truncation notice and paging of search_read (`SearchRead.dfy`), and scope injection of the
  OAuth broker (`Scopes.dfy`).

`dafny verify dfyconfig.toml` checks everything.

## Reading guide

Code that mutates state is a class or a method with a loop, proved against specification functions. Concurrent code is
a step system: a total `Next` function over actions, where an action that is not possible leaves the state as it is, so
every list of actions is a run and a lemma over all lists is a statement about every interleaving.

Times, clocks and tokens are reals; the bucket's floating-point rounding is not modelled. `rps >= 1` is what
`internal/config/config.go:182` enforces. Clock readings, nonces, Odoo's answers, bcrypt's and the token verifier's
verdicts, and SCAN's pages are parameters.

Assumptions, stated where they are used: one Odoo database per Valkey; the SHA-256 digest of the arguments identifies
them; JSON encoding of results has an inverse and is never empty; SCAN lists every key that stays present during the
whole iteration; an expired key counts as absent from its expiry on; distinct users have distinct Odoo uids, and one
server instance is told one of them (ServerInfo reports 0 when Odoo's answer has no uid, and users told 0 would share
the prefix `mcp:0:`); AES-GCM opens exactly what it sealed; Odoo returns all matches when the limit is omitted; one request
to Odoo is answered from one state of its database; the configured Odoo URL has no fragment or query; Odoo decodes the
path of a request, serves exactly two non-empty segments after `/json/2/`, and takes the keys of the body as the named
arguments of the method; and a tool call that does not succeed leaves Odoo's database as it was.

Where comments and code disagree, the code is modelled:

- `internal/odoo/client.go` says a limit of 0 means the server default; the tool description and the request builder
  (which omits the option) mean "no limit", and that is the model.
- `valkey_ratelimiter.go` calls the counter a sliding window; it is a fixed window per wall second, which is why the
  bound is `rps * (ceil(T) + 1)`.
- The middleware's comment lists four write tools; the code's set also holds `odoo_call`.
- `crypto.go` speaks of 32-byte keys; `aes.NewCipher` also takes 16 and 24, and so does the model.

Some properties do not hold as one might expect, and are stated with their exact condition:

- An answer from before a write can be served after the write's invalidation (`OverlapServesStale`), only in the way
  of `StaleOnlyFromOverlap`, and from a given state exactly under the condition of `StaleAfterWriteIff`.
- A failed recreate leaves a row without a password (`FailedRecreateOrphansRow`); `UnbacksIff` tells which faults do.
- The guards look at names, and names are put into the URL unescaped. `RoutedAsNamed` and `RunAsNamed` tell when a
  request reaches what it names, `GuardsSufficeIff` when the guards suffice, and `NamesNeedNotBePlain` and
  `GuardsBypassed` give calls for which they do not.
- The resolver of the cache contacts Odoo before the rate check (`UnresolvedIsUnbounded`); `OdooLoadValkey` counts those
  contacts, and `BoundHoldsIffSettled` tells when the limiter's bound holds without them.
- A missed invalidation leaves old answers behind: `CachedServer.Call` guarantees answers until one is missed and again
  after the next that works, and `CanServeOldIff`, which holds for every past step, is the exact condition here, too.
- A delayed script counts correctly exactly under the condition of `CountsAllIffWithinSecond`.

## Model

| member | source | states |
|---|---|---|
| TokenBucket.TokensAreLeastSlack | internal/guardrails/guardrails.go:105-122 | The lazily refilled, capped token count a request finds equals the minimum, over all earlier requests i, of rps + rps·(t_j − t_i) minus the admissions since i. |
| TokenBucket.ExactAdmission | internal/guardrails/guardrails.go:100-124 | Request j is admitted exactly when, from every earlier request i on, one more admission stays within rps + rps·(t_j − t_i). |
| TokenBucket.BucketObeysWindows | internal/guardrails/guardrails.go:100-124 | At most rps + rps·(t_j − t_i) admissions among requests i..j, for all i ≤ j of every sorted trace. |
| TokenBucket.GreedyIsOptimal | internal/guardrails/guardrails.go:100-124 | No set of admissions that obeys the window law admits more than the bucket on any prefix of any trace. |
| TokenBucket.SessionsIndependent | internal/guardrails/guardrails.go:100-124 | In any interleaved trace a session's decisions and bucket are those of running its own requests alone. |
| TokenBucket.LevelsBounded | internal/guardrails/guardrails.go:111-122 | Every bucket stays within 0..rps and is never ahead of the last request. |
| TokenBucket.BucketWindow | internal/guardrails/guardrails.go:100-124 | A session gets at most rps + rps·T admissions in any closed window of length T. |
| TokenBucket.BucketWindowIsTight | internal/guardrails/guardrails.go:100-124 | For every rate and window length some trace is admitted as often as that bound allows, so the bound cannot be improved. |
| TokenBucket.BucketMeetsInterface | internal/guardrails/guardrails.go:13-19 | The token bucket meets the common contract: at most 2·rps admissions in any closed second. |
| TokenBucket.VerdictIsExact | internal/guardrails/guardrails.go:100-124 | The verdict of an interleaved trace is the exact affordability test over the session's own requests. |
| TokenBucket.EarnedIsProduct | internal/guardrails/guardrails.go:112-113 | The earned tokens are elapsed seconds times rps. |
| TokenBucket.Bucket.Take | internal/guardrails/guardrails.go:111-123 | Refill by elapsed time, cap at rps, take one token if there is one. |
| TokenBucket.RateLimiter.BucketFor | internal/guardrails/guardrails.go:105-109 | A new session gets a full bucket of its own; other buckets are untouched. |
| TokenBucket.RateLimiter.Check | internal/guardrails/guardrails.go:100-124 | With mutable buckets behind the map, every check answers Allowed exactly when the request is affordable from every earlier request of its session in the whole history. |
| ValkeyLimiter.Valkey.Eval | internal/guardrails/valkey_ratelimiter.go:17-23 | The script increments the live counter or restarts an expired one, and sets the expiry only on the first increment. |
| ValkeyLimiter.ValkeyRateLimiter.Check | internal/guardrails/valkey_ratelimiter.go:50-64 | Allowed exactly while fewer than rps requests of the session came before in its wall second; a failed exchange is reported, and counts exactly when the script ran although its answer was lost. |
| ValkeyLimiter.StoreCounts | internal/guardrails/valkey_ratelimiter.go:17-23 | The counter of every used second is stored under its own key, holds all attempts of that second, and expires after the second ends and before the next one does. |
| ValkeyLimiter.ExpiryIsInvisible | internal/guardrails/valkey_ratelimiter.go:50-64 | The store with expiry gives the decisions of counters that never expire, on every trace. |
| ValkeyLimiter.AdmissionsPerSecond | internal/guardrails/valkey_ratelimiter.go:50-64 | Exactly min(attempts, rps) requests are admitted per session and wall second. |
| ValkeyLimiter.ValkeyWindow | internal/guardrails/valkey_ratelimiter.go:50-64 | Any closed interval of length T admits at most rps·(⌈T⌉ + 1) requests of a session. |
| ValkeyLimiter.ValkeyWindowIsTight | internal/guardrails/valkey_ratelimiter.go:50-64 | For every rate and window length some trace is admitted exactly rps·(⌈T⌉ + 1) times: the counter is no sliding window. |
| ValkeyLimiter.ValkeyMeetsInterface | internal/guardrails/guardrails.go:13-19 | The Valkey limiter meets the same contract: at most 2·rps in any closed second. |
| ValkeyLimiter.CounterSpace | internal/guardrails/valkey_ratelimiter.go:17-23 | At every instant only the counters of the current and the previous second of a session are live. |
| ValkeyLimiter.CountsAllIffWithinSecond | internal/guardrails/valkey_ratelimiter.go:17-23 | Without the link between key and execution time, a counter holds all attempts exactly when the last script runs less than a second after the first. |
| Keys.PrefixIffOwner | internal/cache/client.go:43-46 | A cache key starts with a user's prefix exactly when it is that user's. |
| Keys.CacheKeyInjective | internal/cache/client.go:43-46 | Cache keys are injective in uid, tool and digest, for any tool name. |
| Keys.RateKeyInjective | internal/guardrails/valkey_ratelimiter.go:52 | Rate-limit keys are injective in session and second, even when sessions contain colons. |
| Keys.DecimalReadsBack | internal/cache/client.go:45 | The printed uid reads back as the number, without leading zeros. |
| Keys.KeyFormats | internal/cache/client.go:40-46 | Cache keys start with `mcp:` and the uid, rate-limit keys with `ratelimit:` and the session. |
| Keys.LiteralGlobIsPrefix | internal/cache/client.go:98 | Matching a literal prefix followed by a star is the prefix test. |
| Keys.InvalidationPattern | internal/cache/middleware.go:196-198 | A user's invalidation pattern matches exactly that user's cache keys and no rate-limit key. |
| Invalidation.Invalidate | internal/cache/client.go:93-120 | With pages that repeat or reorder keys and a store that changes meanwhile: on success, and when only the answer of DEL is lost, every prefix key that stayed from the first to the last page is gone; nothing outside the prefix is removed, nothing is added, and a failed SCAN or an unapplied DEL removes nothing. |
| SequentialCache.OnlyOthersKeysChanged | internal/cache/middleware.go:194-198 | Expiry, eviction and other users' keys cannot make a user's entries wrong. |
| SequentialCache.CachedServer.ReadTool | internal/cache/middleware.go:81-152 | With any failing resolver, Get or Set, a read answers what the handler would answer now as long as no invalidation was missed; it stores exactly successful answers, and never an error. |
| SequentialCache.CachedServer.WriteTool | internal/cache/middleware.go:155-192 | A write acts and answers as without a cache; a successful one drops exactly the user's entries unless its resolver, SCAN or DEL fails, and a failed write drops none. |
| SequentialCache.CachedServer.Disturb | internal/cache/client.go:74-89 | Expiry, eviction and other users' traffic between calls keep the invariant. |
| SequentialCache.CachedServer.Call | internal/cache/middleware.go:47-79 | For every tool name, over the whole history of calls, the database is that of the server below the cache, and so are all answers unless a read came while an invalidation was missed; the next one that works makes the cache clean again. Names in neither set pass through. |
| SequentialCache.TenTools | internal/cache/middleware.go:14-30 | The two sets hold exactly the five reading and the five writing tools. |
| ToolNames.EachToolOnce | internal/cache/middleware.go:14-30 | Each tool is in exactly one of the sets. |
| ToolNames.CachedToolsRead | internal/cache/middleware.go:14-21 | Whatever is cached sends only search_read, search_count, read, fields_get and context_get. |
| ToolNames.MutatingToolsInvalidate | internal/cache/middleware.go:23-30 | Every tool that sends anything else drops the user's entries. |
| ConcurrentCache.InvHolds | internal/cache/middleware.go:81-192 | The invariant of the shared cache holds after every list of steps of any number of users' requests. |
| ConcurrentCache.StaleOnlyFromOverlap | internal/cache/middleware.go:131-189 | A value computed (by the first of its requests) before a user's write is served after that write's invalidation finished only if the read that filled it answered before the effect and stored after the scan began. |
| ConcurrentCache.OverlapServesStale | internal/cache/middleware.go:131-189 | Such an overlap does occur: a concrete run serves the old value after a finished invalidation. |
| ConcurrentCache.CanServeOldIff | internal/cache/middleware.go:102-149 | At any point of any run, some continuation serves a user an answer from before a given step exactly when such an answer is in a live entry or under way to its Set. |
| ConcurrentCache.StaleAfterWriteIff | internal/cache/middleware.go:131-189 | In particular, after a finished invalidation an answer from before the write can still be served exactly when a live entry or an answer under way is older than the write. |
| ConcurrentCache.BoundedStaleness | internal/cache/client.go:123-152 | Every hit is an answer Odoo gave to that very call, from one database or from those of its handler's two requests; its age, counted from the first, is below 30 s (300 s for fields_get and get_server_info, 3600 s for list_models) plus the delay between that request and Set, in every run. |
| ConcurrentCache.HitIffYoung | internal/cache/client.go:76-89 | In every run a Get of a stored entry is a hit, with that entry, exactly while it has been stored for less than that time. |
| ConcurrentCache.OthersKeepEntries | internal/cache/client.go:93-120 | An invalidation never removes another user's entry, in every run. |
| ConcurrentCache.PrefixFindsOwn | internal/cache/middleware.go:196-198 | The prefix selects exactly the user's own live entries of a store. |
| UidResolver.Resolver.Known | internal/server/server.go:106-113 | The first critical section on the shared fields is the step Begin: it returns the uid exactly when it is known. |
| UidResolver.Resolver.Learn | internal/server/server.go:120-124 | The second one is the step Publish: what ServerInfo told this request is remembered and returned, whatever it is. |
| UidResolver.InvHolds | internal/server/server.go:106-125 | Under every interleaving all remembered, pending and resolved uids are ones that ServerInfo reported, and a filled cache implies a known uid. |
| UidResolver.ResolverIsStable | internal/server/server.go:106-125 | `done` never reverts, successful resolves return reported uids, and an invalidation that begins after the instance filled an entry is never skipped for lack of a uid. |
| UidResolver.AnswersArePublished | internal/server/server.go:106-125 | Successful resolves return exactly the published uids, so they agree exactly when all published uids do. |
| UidResolver.OneUid | internal/server/server.go:106-125 | With a stable identity every successful resolve returns the same uid. |
| Crypto.SixteenDigits | internal/userstore/crypto.go:35-43 | The sixteen hex digits, written in lower case and read in either. |
| Crypto.HexRoundTrip | internal/userstore/crypto.go:35-43 | Hex decoding undoes encoding for every byte string. |
| Crypto.HexDecodeIsExact | internal/userstore/crypto.go:42-46 | Hex decoding accepts exactly the encodings, up to letter case. |
| Crypto.DecryptUndoesEncrypt | internal/userstore/crypto.go:19-70 | For every plaintext, nonce and valid key Decrypt returns what Encrypt was given; Encrypt fails exactly on an invalid key length and never gives the empty string. |
| Crypto.EncryptedLayout | internal/userstore/crypto.go:19-36 | The stored text is the hex of the 12-byte nonce followed by the sealed key; keys of 16, 24 and 32 bytes are accepted, and no others. |
| Crypto.DecryptIsExact | internal/userstore/crypto.go:42-70 | Decrypt accepts exactly the strings Encrypt can produce for that plaintext and key, up to the case of the hex digits. |
| Accounts.Middleware | internal/auth/middleware.go:127-281 | The cascade as it runs (header, OIDC, absent store, failing database, lookup, decryption, direct key, refusal) decides as `Login` does. |
| Accounts.LoginByToken | internal/auth/middleware.go:173-228 | A verified token is looked up by its email, whatever its subject, and by the subject only without an email; the row found decides between refusal, no credentials, an internal error and exactly its key, URL and database. |
| Accounts.LoginWithoutClaims | internal/auth/middleware.go:127-143 | An unverified token is taken as an Odoo API key if it works as one, and a header without a token is refused. |
| Accounts.StoredRowRoundTrip | internal/auth/middleware.go:181-228 | The row CreateUser stores gives a verified user exactly the submitted credentials and the user's own server. |
| Accounts.PerUserIsExact | cmd/odoo-mcp/main.go:181-203 | A request gets a per-user server with given credentials exactly when a verified user's row holds them, complete and decryptable; otherwise never. |
| Provisioning.UnbacksIff | internal/admin/handler.go:108-128 | An RPC fault, before or after its effect, takes away what backs a user exactly when it hits the only thing that does: a delete that took effect, or a recreation that did not, with no password and no other recreation of the user under way. |
| Provisioning.BackedStays | internal/admin/handler.go:108-128 | No step of any request unbacks a user, except such a fault: a delete leaves a recreation under way, and a recreation leaves a password. |
| Provisioning.RowsAreBacked | internal/admin/handler.go:108-149 | In every interleaving of creates, deletes, bootstraps and other faults, each mapping row's user has a Dex password or a request between its delete and its recreate; at quiescence rows are a subset of passwords. |
| Provisioning.FaultlessIsOrderly | internal/admin/handler.go:108-149 | Every run without RPC faults is one of these. |
| Provisioning.FailedRecreateOrphansRow | internal/admin/handler.go:113-122 | The run create, 201, create again, delete, fault ends with a row, without a password and with nothing under way. |
| Provisioning.CredentialsRoundTrip | internal/admin/handler.go:89-158 | After a 201 and until a delete of that user, whatever else runs or fails, every verified token with the user's email, whatever its subject (and every one without an email and with that subject) yields exactly the submitted URL, database and API key, and the per-user server. |
| Provisioning.PasswordsWereSubmitted | internal/dexclient/client.go:108-133 | In every run, faults included, each Dex password is one that some create or bootstrap of that run gave for that very user. |
| Provisioning.RowIffInserted | internal/userstore/store.go:81-99 | In every run, faults included, a user without a row has one later exactly when some step inserted it, answered or not, and no later step deleted it. |
| Provisioning.RefusedAfterDelete | internal/admin/handler.go:192-212 | After a delete, in every run, the user is refused exactly as long as no row inserted since then is kept. |
| AdminHandler.DexClient.CreatePassword | internal/dexclient/client.go:108-133 | Inserts a password unless it cannot be hashed or the email already has one; a broken RPC may or may not have taken effect, and may read as "already exists". |
| AdminHandler.DexClient.DeletePassword | internal/dexclient/client.go:146-161 | Removes a password or reports that there is none, or that the RPC broke. |
| AdminHandler.Store.CreateMapping | internal/userstore/store.go:81-99 | Inserts a row unless the id is taken or the database fails, with or without effect. |
| AdminHandler.Store.DeleteMapping | internal/userstore/store.go:102-114 | Removes a row or reports, in an error that holds the id, that there is none or that the database failed. |
| AdminHandler.Handler.CreateUser | internal/admin/handler.go:81-159 | For every body, old state and pattern of faults, both stores and the status are those of the request's own steps in the interleaved system, run without interruption. |
| AdminHandler.Handler.DeleteUser | internal/admin/handler.go:192-212 | 400, 204, 404 or 500 and the row removed; a failing database is answered 404 when its error or the id says "no rows". The Dex password stays. |
| AdminHandler.ReadsAsMissingIff | internal/admin/handler.go:199-206 | The error of a delete contains "no rows" exactly when its cause or the id does. |
| AdminHandler.Handler.BootstrapAdmin | cmd/odoo-mcp/main.go:279-313 | Does nothing once any user exists or when listing fails; otherwise, for every pattern of faults, it is its own steps in the interleaved system, and with working RPCs it stores the given password and one row without credentials, or nothing. |
| AdminHandler.BootstrapAlone | cmd/odoo-mcp/main.go:279-313 | The steps of the bootstrap leave the given password and the row without credentials, or nothing. |
| AdminHandler.AdminIsShared | cmd/odoo-mcp/main.go:181-203 | The bootstrap admin logs in without credentials and gets the shared server. |
| AdminHandler.CreateAlone | internal/admin/handler.go:108-158 | Without faults and interruption that comes to: password replaced, row inserted and 201, or the refusal with its status. |
| AdminHandler.CreateOutcomeSays | internal/admin/handler.go:81-159 | Which requests are answered 400, 401, 500 and 201, what the stores then hold field by field, and that the stored key decrypts to the submitted one. |
| AdminHandler.CreateUserLogin | internal/auth/middleware.go:181-228 | After a 201 the user, by email or by subject without an email, logs in with exactly the submitted credentials, and every other user as before. |
| Routing.RoutedAsNamed | internal/odoo/http_client.go:38-54 | The names go into the URL unescaped: a request reaches the model and the method it names exactly when both names are non-empty and free of `#`, `?`, `/`, `%` and control characters. |
| Routing.QueryIsNoPath | internal/odoo/http_client.go:38-54 | What follows a `?` in a name is no part of the path. |
| Routing.EscapesAreDecoded | internal/odoo/http_client.go:38-54 | An escaped dot in a name reaches the model with the dot. |
| Routing.SlashIsNotServed | internal/odoo/http_client.go:38-54 | A further slash in a name leads nowhere. |
| Tools.RefusedIffNotPassing | internal/tools/call.go:84-120 | The first failing guard in each tool's order refuses exactly the calls that do not pass all of them. |
| Tools.Merge | internal/odoo/http_client.go:226-229 | The merge loop lets every keyword argument win over what is there. |
| Tools.Client.PostSearch | internal/odoo/http_client.go:90-115 | The search body holds exactly the options that are set, and no limit or offset that is not positive. |
| Tools.Client.PostCall | internal/odoo/http_client.go:220-236 | Non-empty ids enter the body first, keyword arguments override them. |
| Tools.Client.PostServerInfo | internal/odoo/http_client.go:282-320 | The user is read exactly when the first request tells a uid. |
| Tools.ResolveSubtype | internal/tools/message_post.go:140-178 | The backward scan finds the last dot; a lookup is sent exactly when a module precedes it, and the id falls back to 1. |
| Tools.Guardrails.CheckRate | internal/guardrails/guardrails.go:77-79 | The answer is the real bucket limiter's verdict on the whole history of checks. |
| Tools.Guardrails.Check | internal/tools/call.go:84-120 | Rate, model and write mode are checked in this order, and the first that fails decides. |
| Tools.HandleSearchRead | internal/tools/search_read.go:46-130 | Its rate check, exactly the wanted requests, the refusal of the first failing guard, and the page with its notice. |
| Tools.HandleRead | internal/tools/read.go:28-75 | The same contract, with both arguments parsed before the guards. |
| Tools.HandleFieldsGet | internal/tools/fields_get.go:27-72 | The same contract. |
| Tools.HandleListModels | internal/tools/list_models.go:28-71 | The same contract, with no model to check; the names that contain the filter are returned in their order. |
| Tools.HandleServerInfo | internal/tools/server_info.go:21-53 | The same contract, with no model to check. |
| Tools.HandleCreate | internal/tools/create.go:14-95 | The same contract with the rate check before the arguments are parsed. |
| Tools.HandleWrite | internal/tools/write.go:14-111 | The same contract with two argument parses after the guards. |
| Tools.HandleUnlink | internal/tools/unlink.go:14-110 | The same contract; empty ids are refused and nothing is sent. |
| Tools.HandleCall | internal/tools/call.go:53-149 | The same contract; the write guard applies to every method that is not known to be read-only. |
| Tools.HandleMessagePost | internal/tools/message_post.go:52-137 | The same contract, with the subtype lookup and the chatter record of exactly the given model and id. |
| OdooApi.SearchIsExecuted | internal/odoo/http_client.go:90-115 | By the names of its arguments a search makes Odoo execute exactly the given domain, fields, limit (10 by default, none unless positive), offset and order, and a count of the same domain. |
| OdooApi.SearchIsAnswered | internal/tools/search_read.go:70-130 | The answer is the cut of the matches that limit and offset ask for, and the notice with its numbers. |
| OdooApi.FailureIsReported | internal/tools/write.go:77-89 | A failure of the main request is an error of the tool, and its success is none. |
| OdooApi.ReadIsExecuted | internal/odoo/http_client.go:143-157 | odoo_read makes Odoo read the given fields of the given ids. |
| OdooApi.FieldsGetIsExecuted | internal/odoo/http_client.go:239-250 | odoo_fields_get makes Odoo describe the model with the given attributes. |
| OdooApi.ListModelsIsExecuted | internal/odoo/http_client.go:253-262 | odoo_list_models makes Odoo search all of ir.model. |
| OdooApi.FilterKeeps | internal/tools/list_models.go:50-58 | The filter keeps every name that contains it, as often as it comes, and no other. |
| OdooApi.FilterInOrder | internal/tools/list_models.go:50-58 | It keeps their order. |
| OdooApi.ServerInfoIsExecuted | internal/odoo/http_client.go:282-320 | odoo_get_server_info makes Odoo tell its context and read the user it tells of. |
| OdooApi.CreateIsExecuted | internal/odoo/http_client.go:161-168 | odoo_create makes Odoo create one record with the given values. |
| OdooApi.WriteIsExecuted | internal/odoo/http_client.go:184-204 | odoo_write makes Odoo write the given values to the given ids. |
| OdooApi.UnlinkIsExecuted | internal/odoo/http_client.go:207-217 | odoo_unlink makes Odoo delete the given ids. |
| OdooApi.CallIsPassedOn | internal/odoo/http_client.go:220-236 | odoo_call passes on every keyword argument, and the ids unless a keyword argument has their name. |
| OdooApi.SubtypeIsLookedUp | internal/tools/message_post.go:140-178 | A dotted xmlid is looked up by what stands before and after its last dot; the id is the one found, or 1. |
| OdooApi.SubtypeIsDefault | internal/tools/message_post.go:140-156 | Without a module in front of a dot nothing is looked up, and the id is 1. |
| OdooApi.MessageIsCreated | internal/tools/message_post.go:61-100 | A message becomes a record of exactly the given text, target, type and subtype, with the defaults `comment` and `mail.mt_comment`. |
| ToolRuns.Serve | internal/tools/registry.go:22-34 | A whole run of calls through the registered handlers and a real bucket limiter sends and answers exactly what `Sent` and `Results` say for the limiter's verdicts. |
| ToolRuns.CallAsNamed | internal/odoo/http_client.go:38-54 | The requests of a call go where they say exactly when the names that the call gives are plain. |
| ToolRuns.SentByCalls | internal/server/server.go:83-88 | What a run sends is what its calls send, one by one. |
| ToolRuns.RunAsNamed | internal/odoo/http_client.go:38-54 | Everything a run sends goes where it says exactly when the calls that send anything give plain names. |
| ToolRuns.GuardsSufficeIff | internal/guardrails/guardrails.go:55-70 | The guards keep a call in order under every policy exactly when whatever it reaches is covered by the model and the method that it names, or is one of its tool's own fixed requests. |
| ToolRuns.CallInOrder | internal/tools/unlink.go:42-80 | With plain names no call reaches a mutating method in read-only mode, or a blocked model except in the fixed requests of list_models, get_server_info and message_post themselves; a delete call never sends empty ids. |
| ToolRuns.RunsInOrder | internal/guardrails/guardrails.go:55-70 | The same for every call of a whole run whose sending calls give plain names, whatever the rate checker answered. |
| ToolRuns.ReadOnlyRunsRead | internal/guardrails/guardrails.go:63-70 | In read-only mode no call of a run with plain names reaches a method other than the eight of odoo_call, search_read, read and context_get; so none of create, write and unlink. |
| ToolRuns.ReadOnlyCallIff | internal/tools/call.go:13-22 | In read-only mode an admitted, well-formed odoo_call of an unblocked model passes exactly when its method is one of the eight. |
| ToolRuns.ReadOnlyRefuses | internal/guardrails/guardrails.go:63-70 | In read-only mode odoo_create, odoo_write, odoo_unlink and odoo_message_post never pass. |
| ToolRuns.BlockedRefuses | internal/guardrails/guardrails.go:55-61 | No tool passes that names a blocked model, message_post included. |
| ToolRuns.RefusalOrder | internal/tools/create.go:20-60 | Bad arguments are found before the rate check, except by create, write and unlink; then the rate, the model and the write mode decide, in this order. |
| ToolRuns.WellFormedIff | internal/tools/message_post.go:57-65 | Which arguments each tool accepts: non-empty ids to unlink, a record and a text for a message. |
| ToolRuns.NamesNeedNotBePlain | internal/tools/call.go:108-120 | Without plain names it fails: a permitted call of a name that goes on after any plain model and method with `#` and any text without `%` reaches that method, and is out of order exactly when the model is blocked or the method mutates in read-only mode. |
| ToolRuns.GuardsBypassed | internal/guardrails/guardrails.go:55-70 | Two such calls, for every such text: a write to a blocked model in read-only mode, and a write to blocked users. |
| ToolRuns.BlockedContactIsExact | internal/guardrails/guardrails.go:55-61 | A blocked model is reached by some call with plain names exactly when it is one the tools use on their own account (two of the four only when the server is writable). |
| ToolRuns.SendsOnlyIfAdmitted | internal/guardrails/guardrails.go:72-79 | In every run each call whose handler sends anything made a rate check of its own, and that check was let through. |
| ToolRuns.ReachingIsAdmitted | internal/guardrails/guardrails.go:72-79 | So in any window handlers reach Odoo for no more calls of a session than the rate checker admitted. |
| ToolRuns.OdooLoadBucket | internal/guardrails/guardrails.go:100-124 | With the token bucket, and so without the cache, at most rps + rps·T calls of a session reach Odoo in any window of length T. |
| CachedLoad.OdooLoadValkey | internal/server/server.go:72-89 | With Valkey, in every interleaving of calls with the resolver's steps, a session reaches Odoo at most rps·(⌈T⌉ + 1) times in any window, plus the times its resolver asks; handlers are dated by their rate checks, the resolver by its asking. |
| CachedLoad.ArrivalGoesOn | internal/cache/middleware.go:60-97 | The five reading tools resolve before their handlers, the five writing tools do not. |
| CachedLoad.LookupGoesOn | internal/cache/middleware.go:101-131 | A hit ends a read without a rate check and without a contact; a miss hands it to its handler. |
| CachedLoad.FailedAskGoesOn | internal/cache/middleware.go:92-97 | When ServerInfo fails a read goes on to its handler, and a write is left without invalidation. |
| CachedLoad.HandledGoesOn | internal/cache/middleware.go:166-182 | After its handler a successful write resolves for the invalidation; a failed one is over. |
| CachedLoad.AskedUnresolved | internal/server/server.go:106-119 | Every contact of the resolver belongs to a request that passed the first critical section, in an earlier step, while the uid was unknown. |
| CachedLoad.OnceSettled | internal/server/server.go:106-125 | Once the uid is known and no request that found it unknown is yet to ask, the limiter alone bounds what reaches Odoo from then on. |
| CachedLoad.BoundHoldsIffSettled | internal/server/server.go:106-125 | From any run on, the limiter's bound holds for all that may follow, all sessions and all windows, exactly when that is so. |
| CachedLoad.PendingExceeds | internal/server/server.go:113-115 | A request that is yet to ask, after the uid became known, lets its session reach Odoo rps + 1 times at one instant. |
| CachedLoad.UnresolvedIsUnbounded | internal/cache/middleware.go:92-97 | From any run in which the uid is not known, for every rate and every n, n different reads of one session can reach Odoo at one instant, without any further rate check. |
| CachedLoad.FreshInstanceIsUnbounded | internal/cache/middleware.go:92-97 | In particular from the start of an instance on. |
| SearchRead.SearchAndRead | internal/tools/search_read.go:70-129 | The page for the effective limit and offset, a count exactly when the page is full, and a notice exactly when the count worked and there are more matches. |
| SearchRead.LimitArgument | internal/tools/search_read.go:70-73 | Without a limit argument the limit is 10; a given one is cut towards zero. |
| SearchRead.PageIsCut | internal/odoo/http_client.go:97-102 | A page is the cut of the list by limit and offset; no positive limit means the whole rest. |
| SearchRead.NoticeSays | internal/tools/search_read.go:119-127 | The notice holds the number returned, the number of matches, the limit and the offset. |
| SearchRead.NoticeMeansTruncated | internal/tools/search_read.go:107-127 | A page is a contiguous part of the matches; a notice means a strict part; no notice after a working count means all of them exactly when no positive offset skipped anything. |
| SearchRead.PagingRebuildsAll | internal/odoo/http_client.go:90-115 | Concatenating pages by offset until a short page rebuilds the whole match list. |
| Scopes.ContainsScope | cmd/mcpoauth/main.go:269-276 | Finds a scope exactly when it is one of the fields. |
| Scopes.AddScopes | cmd/mcpoauth/main.go:182-193 | The fields are the missing required scopes in reverse list order, then the original fields; the original text stays verbatim at the end; a complete scope is unchanged. |
| Scopes.Authorize | cmd/mcpoauth/main.go:182-193 | For every requested scope the result holds openid, email and profile: those missing, profile first, then the requested fields; a complete scope is unchanged. |
| Scopes.CompletionIsIdempotent | cmd/mcpoauth/main.go:182-193 | Completing a completed scope changes nothing. |
| Scopes.CompletionCounts | cmd/mcpoauth/main.go:184-193 | Nothing is dropped and each missing required scope is added exactly once. |

## Left out

- HTTP, gRPC, PostgreSQL and Valkey transport, TLS, JSON syntax, signal handling, logging and audit entries.
- JWT verification, bcrypt, AES and SHA-256 internals: an uninterpreted verifier, a flag, an abstract AEAD and digests.
- Floating-point rounding of tokens and Go's integer conversion of floats outside the int range.
- Clock skew between server and Valkey: the key's second is taken to be the second in which the script runs, except in
  `CountsAllIffWithinSecond`.
- Bracket classes of Valkey's MATCH patterns, which no pattern of this program contains.
- Faults of the cache and of the resolver in the runs of `ConcurrentCache`, except a Get that fails and requests that
  stop at some step.
- ToolRuns.OdooLoadBucket: dates a call by its rate check, since nothing bounds the time from there to the sending; and
  it speaks of one limiter, while the server is built anew, with a limiter of its own, for every session of a user with
  credentials (`cmd/odoo-mcp/main.go:181-203`), so nothing bounds a user's sessions together.
- CachedLoad.OdooLoadValkey: dates what handlers send by their rate checks, too, and speaks of one server instance; calls
  that other instances make in the same session only make the shared counter stricter, but each instance has a resolver
  of its own.
- What a proxy or Odoo's router makes of dot segments, of repeated and trailing slashes (such as `ir.rule/read/#`), and
  of spaces in a query; all of them need names that are not plain or, for `.` and `..`, that no Odoo model or method has.
- Several Odoo databases in one Valkey, and configuration changes while entries are cached.
- Listing users and mappings, random passwords, the registration endpoint and metadata endpoints: easy members.
- The concurrent cache, provisioning and `CachedLoad` are step systems on values, so goroutine-level aliasing is not
  modelled there.
