# A verified model of a caching HTTP proxy

The proxy is a C++ server built on Poco. Its clients' GET requests go through one static LRU cache: a request looks its
key up, tests the entry for freshness, asks the origin with If-None-Match or If-Modified-Since when the entry is stale,
and either extends and replays the entry or fetches and stores a new one. This project models that life cycle and
proves what it keeps over whole runs, under every interleaving of the worker threads. It also covers the connection
protocol around it (CONNECT tunnel, graceful stop, request numbers) and the log line assembler.

`dafny verify dfyconfig.toml` verifies the whole project.

## Modules

| module | about |
|---|---|
| `Http`, `CacheControl`, `CacheKey`, `Freshness` | headers and their copying; the Cache-Control reader and its grammar; the cache key and its decoder; entries, lifetimes, expiry |
| `Proxy` | the handlers of all workers over one cache, a heap of entries and a clock, as a machine of small steps; `Story` is the same run with a history kept for the proofs |
| `CacheInvariant`, `Reuse`, `ExpiryBound`, `Credit`, `Sequential`, `Staleness` | what every reachable state keeps; which events must precede a replay; how far expiry can run ahead, and of which check; what a single thread makes of it; how stale an answer can be |
| `Handler`, `Replies` | one request from start to end, as imperative code over a mutable cache, its specification, and the proof that a run of the machine with one request alone ends in that specification; and what that specification means for client and cache, by header names and statuses |
| `Overlap`, `Scenarios` | runs from the empty cache that meet the bound on expiry, for a pool of any size; requests that show that the assumptions of the staleness result are needed |
| `RequestIds`, `GracefulStop`, `Tunnel`, `AixLog` | one protocol each |

The classes with `modifies` clauses (`HttpMessage`, `StringStream`, `CacheResponse`, `ProxyServerCache`,
`ProxyRequestHandler`, `OutputSocket`, `Log`) follow the C++ code step by step and are proved against specification functions
of the same file; the laws are lemmas about those functions.

## What is assumed of the libraries

- Header names are compared without case. `add` appends a value, `get` returns the first, `set` overwrites the first, and
  `setContentType("")` erases the header. A cookie's text survives being parsed and printed. Only the order of the values
  of one name is observed.
- `LRUCache::add` stores a copy made with the copy constructor and replaces an entry of the same key; `Evict` may drop any
  set of keys at any time.
- `getDate` throws a Poco exception when the header is missing or unreadable; `stod` throws a standard exception, which
  `handleRequest` does not catch. Both, and the parsing of dates, are parameters (`Lib`), so every result holds for any
  parser; only `HeuristicNeverApplies` assumes that the empty text is not a date.
- A default `Timestamp` is the instant of construction. `Timespan::seconds()` is the seconds-of-minute part, with C++
  division, which truncates.
- Inserting a stream buffer into a stream swallows a read failure, so a body that was cut short looks complete.
- The clock does not go back while the proxy runs: `Tick` only adds. Poco's Timestamp is a wall clock that can be set
  back, which the bounds on expiry and `StaleStaysStale` then do not cover.
- Every access to a field and every `+=` is atomic. `sendBytes` sends the whole chunk or throws.

The results about keys assume URIs as an absolute request URI has them (`WellFormed`: a path that is empty or starts with
'/' or '?', and a host free of both).

The staleness results assume further, and say so in `Honest` and `StrongValidators`: URIs whose hosts do not end in a
digit, bodies read to their end, a Date no later than receipt, an origin that answers a GET with what it holds at that
instant and 304 only while the validator still matches, and validators that identify status and body.

## Where the code and its comments disagree

The model follows the code.

- `validated` says that the expiry becomes the current time plus the lifetime; it adds the lifetime to the old expiry
  (src/ProxyServerCache.cpp:324-326). The code is the stricter of the two exactly when the entry has expired by then
  (`ValidatedVersusComment`), which on one thread it always has (`SequentialRunRefinesComment`). Workers that overlap
  make it the laxer one: n of them add n lifetimes (`OverlapMultipliesLifetime`, `BoundIsMet`).
- must-revalidate is described as revalidating once stale (src/ProxyServerCache.cpp:123). The expiry of such an entry is
  never assigned, so it starts out stale and is no hit before its first 304 (`FirstHitIff`).
- The comment on lifetimes promises a tenth of Date minus Last-Modified (src/ProxyServerCache.cpp:207). That branch parses
  the Expires text, which is empty there (`HeuristicNeverApplies`). And any Cache-Control line, even without max-age,
  disables Expires (`CacheControlDisablesExpires`).
- handleRequest promises that a failing request leaves all objects unmodified (src/ProxyRequestHandler.cpp:97-98). A
  failure after the store or the extension leaves the cache changed (`FailureCanChangeTheCache`; `ChangesIff` says exactly
  when), and a max-age that stod rejects escapes the handler altogether (`EscapesIff`).
- A log severity is said to reset the metadata (src/logging/aixlog.hpp:1064). It does so only when it differs from the
  one in force (`SeverityResetsIff`).

Promised laws that hold only under a condition are given with that condition: distinct URIs have distinct keys
(`SharedKeyIff`), stored bodies are complete (`CachedBodyIsCompleteIff`), the content type survives copying
(`ChainKeepsContentTypeIff`), request ids are unique (`UniqueIffNoOverlap`), tunnels are faithful
(`TunnelIsFaithfulIff`), log lines keep the type they are written under (`TypesArePureIff`), negative lifetimes never give
a hit (`NegativeLifetimeHitsIff`). A graceful shutdown meets no write but one (`OnlyRejectionOverlaps`, `RejectionCanOverlap`).

## Model

| member | source | states |
|---|---|---|
| Http.CopyResponseObj | src/ProxyServerCache.cpp:25-46 | The loops leave the destination as `CopyOnto` says, whatever it held before |
| Http.CopyValues | src/ProxyServerCache.cpp:25-46 | One copy sets the status and appends each name's values to those already there; cookies are appended twice, once as headers and once through addCookie |
| Http.CopyContentType | src/ProxyServerCache.cpp:45 | Onto a destination without one, all Content-Type values are copied, unless the first is empty, in which case none is |
| Http.CopyMultiplicity | src/ProxyServerCache.cpp:35-42 | One copy adds each cookie twice as often as the source has it |
| Http.ChainConserves | src/ProxyServerCache.cpp:25-46 | Any number of copies keeps the status and the value list of every name other than Set-Cookie and Content-Type |
| Http.ChainMultipliesCookies | src/ProxyServerCache.cpp:35-42 | After n copies each cookie occurs exactly 2^n times as often: none is lost, none invented |
| Http.ChainKeepsContentTypeIff | src/ProxyServerCache.cpp:45 | Content-Type survives copying if and only if its first value is not the empty string |
| Http.ChainLosesEmptyContentType | src/ProxyServerCache.cpp:45 | In the failing family the header is gone altogether |
| Http.HitRepeatsCookies | src/ProxyServerCache.cpp:305-316 | Through constructor, add and replay, a client of a hit gets each cookie eight times and a client of a miss twice; all other value lists and the status agree |
| CacheControl.StringStream.Peek | src/ProxyServerCache.cpp:94 | Peeking at the end sets eof, and on a stream that is no longer good sets fail |
| CacheControl.StringStream.Get | src/ProxyServerCache.cpp:95 | Takes one character of a good stream |
| CacheControl.StringStream.GetLine | src/ProxyServerCache.cpp:99 | Takes everything up to a comma and drops the comma, or everything to the end and sets eof; at the end it also sets fail |
| CacheControl.SkipSpaces | src/ProxyServerCache.cpp:94-96 | Terminates and changes nothing of what remains but the spaces in front of its first piece |
| CacheControl.NextDirective | src/ProxyServerCache.cpp:94-99 | Yields the next comma-separated piece without leading spaces, also when a trailing comma leaves an empty one |
| CacheControl.GetCacheControlHeaders | src/ProxyServerCache.cpp:77-116 | The stream loop terminates and equals the grammar: split at commas, strip leading spaces, cut at the first '=', last duplicate wins; the empty text gives the empty map |
| CacheControl.IsCacheableResp | src/ProxyServerCache.cpp:125-137 | False if and only if the first Cache-Control line says no-store or private, in a piece between commas |
| CacheControl.SplitCuts | src/ProxyServerCache.cpp:98-99 | The pieces contain no comma and joined by commas give back the text |
| CacheControl.SplitJoin | src/ProxyServerCache.cpp:98-99 | Splitting inverts joining, for all lists of comma-free pieces |
| CacheControl.PrintedDirective | src/ProxyServerCache.cpp:94-109 | A printed directive with any padding is read back as its name and value |
| CacheControl.RoundTrip | src/ProxyServerCache.cpp:91-110 | Printing any list of directives, with any spaces after each comma, and parsing it gives exactly its last-wins map |
| CacheControl.LastWinsNames | src/ProxyServerCache.cpp:105-108 | The names of that map are exactly the names listed |
| CacheControl.CollectedNames | src/ProxyServerCache.cpp:92-110 | The names found in any text are exactly those of its pieces |
| CacheControl.PrintedStorable | src/ProxyServerCache.cpp:125-137 | A printed header is refused by the cache if and only if it lists no-store or private |
| CacheControl.StorableIff | src/ProxyServerCache.cpp:125-137 | The same for an arbitrary response: refused if and only if some piece of its first Cache-Control line names one of the two |
| CacheControl.SaysIff | src/ProxyServerCache.cpp:84-112 | A name other than the empty one is among the directives if and only if a piece of the first cache-control line says it |
| CacheControl.EmptyTextIsEmpty | src/ProxyServerCache.cpp:84-89 | No line, or an empty one, gives no directives at all |
| CacheControl.TrailingComma | src/ProxyServerCache.cpp:92-109 | A trailing comma adds exactly the empty directive, also to the empty text |
| CacheControl.LaterLinesAreIgnored | src/ProxyServerCache.cpp:84-85 | A second Cache-Control line never changes what is read, even if it forbids storing |
| CacheKey.NumberOfDecimal | src/ProxyServerCache.cpp:18 | Reading the printed port gives the port |
| CacheKey.DecodeMakeKey | src/ProxyServerCache.cpp:16-23 | A decoder recovers host, port and path from the key of every well-formed URI whose host does not end in a digit |
| CacheKey.KeyIsInjective | src/ProxyRequestHandler.cpp:40-50 | Such URIs with the same key are equal, and the key fixes the host, port and path of the request that is sent |
| CacheKey.TargetIs | src/ProxyRequestHandler.cpp:105-106 | The request goes to the URI's host and port, for its path, or for / if that is empty |
| CacheKey.SharedKeyIff | src/ProxyServerCache.cpp:16-23 | For all well-formed URIs: two share a key if and only if their paths agree and one host continues the other with the first digits of its port |
| CacheKey.ShiftedKeys | src/ProxyServerCache.cpp:17-19 | A shared key forces that shape |
| CacheKey.ShiftsShareKey | src/ProxyServerCache.cpp:17-19 | That shape forces a shared key |
| CacheKey.AddressesCollide | src/ProxyServerCache.cpp:16-23 | The digit condition is needed: 10.0.0.1 port 8080 and 10.0.0.180 port 80 share one entry |
| Freshness.CacheResponse.ReadDirectives | src/ProxyServerCache.cpp:187-244 | Settles lifetime, no-cache and must-revalidate as `Lifetime` says, or throws what stod throws |
| Freshness.CacheResponse.Blank | src/ProxyServerCache.cpp:181-183 | Members before the constructor's body; an unassigned timestamp is the current time |
| Freshness.CacheResponse.FromResponse | src/ProxyServerCache.cpp:181-269 | The constructor yields the entry `Build` describes, or its exception, including the branches that leave the expiry unassigned |
| Freshness.CacheResponse.Copy | src/ProxyServerCache.cpp:305-316 | The copy constructor keeps every field and copies the headers once more |
| Freshness.CacheResponse.IsValidResponse | src/ProxyServerCache.cpp:272-302 | Fresh if and only if not no-cache, not without lifetime, and the clock is before the expiry |
| Freshness.CacheResponse.Revalidated | src/ProxyServerCache.cpp:321-328 | Adds one lifetime to the expiry, unless there is no lifetime, and changes nothing else |
| Freshness.CacheResponse.GetResponse | src/ProxyServerCache.cpp:355-358 | Replaying copies the cached response onto the client's |
| Freshness.SentinelIff | src/ProxyServerCache.cpp:206-206 | For all spans: seconds() is -1 if and only if the span is negative and its whole seconds are 1 modulo 60; it is so for Timespan(-1, -1) |
| Freshness.BuildFailsIff | src/ProxyServerCache.cpp:154-194 | The constructor throws a Poco exception if and only if the Date cannot be read, and a standard one if and only if it can and max-age is rejected by stod; otherwise Date, body and headers are the response's |
| Freshness.LifetimeIs | src/ProxyServerCache.cpp:187-244 | The lifetime of every entry, by header: max-age in seconds, or none, under any Cache-Control line; else Expires less Date if it can be read; else none |
| Freshness.HitIff | src/ProxyServerCache.cpp:245-328 | For every response, number n of 304s and instant: a hit if and only if the first Cache-Control line does not say no-cache, the lifetime F is not the sentinel, and the clock is before Date + (n+1)*F, or, under must-revalidate, before construction + n*F |
| Freshness.UnreadableExpiresNeverHits | src/ProxyServerCache.cpp:215-226 | Without Cache-Control, an Expires that cannot be read never gives a hit, whatever Date and clock |
| Freshness.ExpiryAfter | src/ProxyServerCache.cpp:321-328 | After n validations the expiry is exactly n lifetimes on and nothing else changed |
| Freshness.FirstHitIff | src/ProxyServerCache.cpp:245-301 | A stored entry is a hit before its first 304 if and only if it is neither no-cache nor must-revalidate, has a lifetime other than the sentinel, and its age by Date, which is negative for a Date in the future, is below that lifetime |
| Freshness.ExplicitExpiry | src/ProxyServerCache.cpp:187-252 | max-age m >= 0 gives expiry Date + m; Expires at or after Date, without Cache-Control, is the expiry |
| Freshness.NegativeLifetimeHitsIff | src/ProxyServerCache.cpp:245-301 | An entry with a negative lifetime F is a hit after n validations if and only if it is neither no-cache nor must-revalidate, F is no sentinel, and the clock is before Date + (n + 1)*F |
| Freshness.NoLifetimeNeverHits | src/ProxyServerCache.cpp:245-301 | So it is never a hit once its Date has passed, after any number of validations |
| Freshness.NegativeLifetimeCanHit | src/ProxyServerCache.cpp:219-252 | The condition on Date is needed: with Date 100 s and Expires 90 s ahead the entry is a hit 50 s later |
| Freshness.NoneIsNoHit | src/ProxyServerCache.cpp:282-301 | Neither value that stands for no lifetime ever gives a hit, whatever the Date and the clock |
| Freshness.CacheControlDisablesExpires | src/ProxyServerCache.cpp:189-206 | With a Cache-Control line and no max-age there is never a hit, whatever Expires, Date and the clock say |
| Freshness.HeuristicNeverApplies | src/ProxyServerCache.cpp:229-242 | Without Cache-Control and Expires there is never a hit, whatever Date and the clock say: Last-Modified supplies no lifetime |
| Freshness.ValidatedVersusComment | src/ProxyServerCache.cpp:321-328 | For every entry and instant: every hit of the code is one of the commented rule if and only if the entry has expired by then or can never be a hit; the two rules agree if and only if it expires at that very instant or can never be a hit |
| Proxy.StoryIsTheRun | src/ProxyRequestHandler.cpp:91-220 | Keeping the history does not influence the run |
| CacheInvariant.StepStaysTracked | src/ProxyRequestHandler.cpp:40-220 | Every step of any worker, eviction or failure keeps the invariant on heap, map, tasks and replies |
| CacheInvariant.StoryIsTracked | src/ProxyRequestHandler.cpp:40-281 | The invariant holds in every reachable state |
| CacheInvariant.StoryIsSourced | src/ProxyRequestHandler.cpp:53-75 | Every entry in the heap, mapped or not, was made from an answer received in this run by a GET for its URI |
| CacheInvariant.CacheIsGenuine | src/ProxyRequestHandler.cpp:63-75 | In every reachable state the entry under a key has the status and the body, as far as read, of one 200 answer received to a GET for a URI with that key, naming neither no-store nor private, and its headers are two copies on |
| CacheInvariant.CachedBodyIsCompleteIff | src/ProxyRequestHandler.cpp:63-72 | In every reachable state, under all interleavings, a cached body is complete if and only if the answer it came from, an event of the run, was read to its end |
| CacheInvariant.ExtensionIsLocal | src/ProxyRequestHandler.cpp:247-251 | Extending an entry already replaced or evicted changes no mapped entry; extending a mapped one changes only its own expiry |
| CacheInvariant.OneWritePerRequest | src/ProxyRequestHandler.cpp:91-220 | Under every interleaving a request writes to the entries at most once, and not at all if it is no GET |
| CacheInvariant.KeysChangeByStores | src/ProxyRequestHandler.cpp:72 | A key changes its entry only by a store under that very key, of a new entry |
| Reuse.NewlyGranted | src/ProxyRequestHandler.cpp:166-182 | A worker comes to replay or extend an entry only by its own check that finds it valid now, by a 304 to its question, or by extending after that 304 |
| Reuse.TasksAreGranted | src/ProxyRequestHandler.cpp:164-194 | For every worker about to extend or replay an entry, in every reachable state, an event of the run is its passed check or its 304, and it has been busy with that request since |
| Reuse.ReuseIsWarranted | src/ProxyRequestHandler.cpp:164-198 | For every reply from the cache there are two events of one and the same request of one worker: first a check of that entry, valid at that instant, or a 304 to its question about it, then the reply; no-cache and no-lifetime entries always need the 304, and an entry without validator is only replayed fresh |
| Reuse.StaleStaysStale | src/ProxyRequestHandler.cpp:245-278 | Whatever happens to other entries, a stale entry stays stale and unchanged until a 304 of its own, and no request whose check comes after that point is answered from it; also when an uncacheable refetch leaves it in the map |
| ExpiryBound.CheckKeepsBound | src/ProxyServerCache.cpp:282-295 | A check keeps the bound, as it adds a waiter only when the entry has expired |
| ExpiryBound.ExtensionKeepsBound | src/ProxyServerCache.cpp:321-328 | An extension keeps the bound, as the lifetime it adds is paid for by the waiter it removes |
| ExpiryBound.StepKeepsBounds | src/ProxyRequestHandler.cpp:164-188 | Every step of any worker keeps the bounds of all entries |
| ExpiryBound.StoryIsBounded | src/ProxyRequestHandler.cpp:164-188 | They hold in every reachable state |
| ExpiryBound.ExpiryIsBounded | src/ProxyServerCache.cpp:272-328 | Under every interleaving, expiry + pending*F <= c + N*F for an anchor c, the instant of a pending failed check or the entry's credit; N is the most workers that ever overlapped on the entry |
| ExpiryBound.OverlapWithinPool | src/proxy_server.cpp:78 | N is at most the number of threads in the pool |
| ExpiryBound.ExpiryWithinPool | src/ProxyServerCache.cpp:321-328 | On n threads an entry's expiry is at most n lifetimes after its credit |
| ExpiryBound.CreditIsPast | src/ProxyServerCache.cpp:245-252 | An entry's credit is its Date, or else an instant that has passed |
| Credit.WaiterFoundStale | src/ProxyRequestHandler.cpp:169-174 | For whoever is revalidating an entry, in every reachable state, an event of the run is its own check that found the entry stale |
| Credit.StoryIsCredited | src/ProxyServerCache.cpp:282-328 | In every reachable state an entry's credit is its Date, the instant it was put in under must-revalidate, or the instant of a check that found it stale and whose worker then extended it; and no extension follows a later check |
| Credit.HitsStayWithinPool | src/ProxyServerCache.cpp:282-287 | On n threads a hit without a 304 at t has t < c + n*F, for c the instant of the latest check, an event of the run, that found the entry stale before its worker extended it, or at first its Date, or the instant it was put in under must-revalidate |
| Sequential.EntryIsValidated | src/ProxyServerCache.cpp:321-328 | In every reachable state, under all interleavings, an entry is what was stored with one lifetime added for each 304 the run applied to it |
| Sequential.ValidatedWhenExpired | src/ProxyRequestHandler.cpp:169-182 | On one thread each 304 is applied at or after the expiry that the earlier ones had given the entry |
| Sequential.SequentialRunRefinesComment | src/ProxyServerCache.cpp:282-328 | For every run on one thread and every entry: the expiry is E0 + n*F for the n 304s applied to it, at most the last of their instants plus F, and every hit is a hit of the commented rule replayed on the same 304s |
| Overlap.OverlapMultipliesLifetime | src/ProxyServerCache.cpp:321-328 | From any state with an expired entry and n idle workers, a run in which all find it stale before the first is answered adds n lifetimes, where the comment's rule gives one from now |
| Overlap.BoundIsMet | src/ProxyRequestHandler.cpp:164-188 | For every n a run from the empty cache, on n threads, makes an entry's expiry exactly n lifetimes past its credit, which is the present: the bound c + n*F is met |
| Overlap.CommentIsExceeded | src/ProxyServerCache.cpp:321-328 | For n >= 2 such an entry is a hit at an instant at which the commented rule would have let it expire |
| Staleness.ValidatorSurvives | src/ProxyRequestHandler.cpp:225-258 | The validator sent is the one the origin sent, through three copies; status and body too are the origin's |
| Staleness.ConfirmationHolds | src/ProxyRequestHandler.cpp:245-251 | A 304 means that the origin holds, at that instant, what the entry holds |
| Staleness.FreshIsRecent | src/ProxyServerCache.cpp:282-287 | A fresh entry is what the origin held less than N lifetimes ago |
| Staleness.StepStaysVouched | src/ProxyRequestHandler.cpp:161-281 | Every step under an honest origin keeps entries, tasks and replies vouched for |
| Staleness.HonestStoryIsVouched | src/ProxyRequestHandler.cpp:161-281 | So does every run |
| Staleness.BoundedStaleness | src/ProxyRequestHandler.cpp:161-199 | Under every interleaving each answer to a GET is what the origin held for that very target within the request, or less than N lifetimes before the freshness check |
| Staleness.SequentialStaleness | src/ProxyRequestHandler.cpp:161-199 | With one worker the window is a single lifetime: checked < p + F |
| Handler.ProxyServerCache.Add | src/ProxyRequestHandler.cpp:72 | Stores a new copy under the key, drops what is evicted, and shares no object between entries |
| Handler.ProxyServerCache.Get | src/ProxyRequestHandler.cpp:164 | Returns the shared entry itself, or null exactly when the key is absent |
| Handler.ProxyRequestHandler.StoreResponse | src/ProxyRequestHandler.cpp:63-75 | Stores if and only if the request is a GET, the status is 200, isCacheableResp says so and the entry can be built; otherwise the cache is unchanged |
| Handler.ProxyRequestHandler.RemoteReq | src/ProxyRequestHandler.cpp:40-89 | Cache, client response, body sent and exception, for every answer or failure of the network |
| Handler.ProxyRequestHandler.Respond | src/ProxyRequestHandler.cpp:184-193 | Replays the item without changing the cache |
| Handler.ProxyRequestHandler.Revalidate | src/ProxyRequestHandler.cpp:225-275 | Asks with the cached ETag, or else the cached Last-Modified, if there is one; extends the item if and only if it asked and the answer is 304, and touches nothing but its expiry |
| Handler.ProxyRequestHandler.UpdateCacheItem | src/ProxyRequestHandler.cpp:223-281 | Confirmed: only the item is extended and the client's response untouched; otherwise what the full request does |
| Handler.ProxyRequestHandler.HandleCached | src/ProxyRequestHandler.cpp:168-193 | The branch for a GET whose key is cached |
| Handler.ProxyRequestHandler.Dispatch | src/ProxyRequestHandler.cpp:99-209 | The try block as a whole |
| Handler.ProxyRequestHandler.HandleRequest | src/ProxyRequestHandler.cpp:91-220 | The whole request over the mutable cache equals the function `Handle`, with Poco exceptions turned into status 400 and others escaping |
| Handler.OneChangeAtMost | src/ProxyRequestHandler.cpp:99-218 | One request makes at most one change, under its own key: one extension after a 304 or one add after the body was read; cut short earlier it makes none |
| Handler.ChangesIff | src/ProxyRequestHandler.cpp:63-88 | The cache changes if and only if the request extends an entry by a lifetime that counts or adds what was not there; a request that changes it fails if and only if sending failed, and one that fails otherwise leaves it unchanged |
| Handler.EscapesIff | src/ProxyServerCache.cpp:155-162 | An exception escapes the handler's catch clause if and only if a storable answer arrives with a readable Date and a max-age that stod rejects; then nothing is stored or sent |
| Handler.OnlyGetsChangeTheCache | src/ProxyRequestHandler.cpp:114-156 | POST and all other methods leave the cache as it was |
| Handler.FailureCanChangeTheCache | src/ProxyRequestHandler.cpp:97-98 | The strong guarantee is not met: a failing request can fill the cache |
| Handler.RemoteEnds | src/ProxyRequestHandler.cpp:40-89 | The machine's fetch, run alone, ends as `Remote` says |
| Handler.PingEnds | src/ProxyRequestHandler.cpp:223-281 | So does its revalidation |
| Handler.CheckEnds | src/ProxyRequestHandler.cpp:166-194 | So does the freshness check and what follows it |
| Handler.RunIsSound | src/ProxyRequestHandler.cpp:72 | In every reachable state each key has an entry of its own, so the next result applies to it |
| Handler.SoloRunIsHandleRequest | src/ProxyRequestHandler.cpp:91-220 | For every such state, request and script of answers, the machine's run of one request alone ends with the cache and the reply of `HandleRequest`, and no other worker touched |
| Replies.OriginValidatorIsAsked | src/ProxyRequestHandler.cpp:225-258 | In every reachable state an entry is asked about with the first ETag the origin sent, or, if it sent none, its first Last-Modified, or, with neither, not at all |
| Replies.HitIsReplayed | src/ProxyRequestHandler.cpp:168-193 | A fresh entry reaches the client whole: body, status, the value list of every header after the client's own, cookies twice; the cache does not change |
| Replies.ConfirmedIsReplayed | src/ProxyRequestHandler.cpp:169-193 | So does a stale one with a validator when the answer is 304, and its expiry moves by its lifetime, if it has one |
| Replies.OriginIsRelayed | src/ProxyRequestHandler.cpp:40-89 | Any other request gets the origin's status and headers in the same way, and the body as far as it was read |
| Replies.FailsIff | src/ProxyRequestHandler.cpp:210-218 | The client gets no body if and only if asking, fetching or sending fails; it then gets status 400, unless the exception escapes |
| Replies.AnswerIsStored | src/ProxyRequestHandler.cpp:63-75 | Every 200 to a GET that goes to the origin, whose first Cache-Control line says neither no-store nor private and whose entry can be built, is stored under the key, with its body as read, its headers two copies on, and the expiry of its constructor; all other keys stay, evictions aside |
| Replies.NothingElseIsStored | src/ProxyRequestHandler.cpp:63-75 | Without such an answer the cache keeps its keys and entries, but for the expiry of a confirmed one |
| Replies.MissThenHit | src/ProxyRequestHandler.cpp:61-72 | Of two consecutive requests, a miss that stores and a hit, the clients get the same body, status 200 and the same headers, but each cookie twice and eight times |
| Scenarios.StoredAnswerIsReplayed | src/ProxyRequestHandler.cpp:161-194 | After one GET a GET with the same key gets the stored body while it is fresh, whatever the origin would answer |
| Scenarios.StoredBodyIsCompleteIff | src/ProxyRequestHandler.cpp:63-72 | A stored body is complete if and only if the origin's body was read to its end |
| Scenarios.TruncatedBodyIsReplayed | src/ProxyRequestHandler.cpp:63-72 | A body whose transfer was cut is replayed as if it were complete |
| Scenarios.AnotherServerAnswers | src/ProxyServerCache.cpp:16-23 | A client of one address is given another address's answer |
| RequestIds.RunIsConsistent | src/ProxyServerConnection.cpp:141-144 | In every reachable state, stamped requests = request_id + connections between stamp and increment, and ids strictly rise within a connection |
| RequestIds.Consecutive | src/ProxyServerConnection.cpp:141-144 | Without overlap the ids are 0, 1, 2, ... in order |
| RequestIds.OverlapDuplicates | src/ProxyServerConnection.cpp:141-144 | With any overlap some id is issued twice |
| RequestIds.UniqueIffNoOverlap | src/ProxyServerConnection.cpp:136-144 | All ids differ if and only if no two connections were ever between stamp and increment together |
| RequestIds.AloneCountsUp | src/ProxyServerConnection.cpp:88 | A single connection gets 0, 1, 2, ... |
| RequestIds.TwoConnectionsCollide | src/ProxyServerConnection.h:58 | The mutex belongs to one connection, so two connections can issue the same id |
| GracefulStop.GracefulRunIsConsistent | src/ProxyServerConnection.cpp:320-356 | In every state of a graceful run the mutex is held by exactly who is in its section, the flag precedes the shutdown, and no request is served under the mutex on a shut socket |
| GracefulStop.ShutdownNeverOverlapsService | src/ProxyServerConnection.cpp:340-355 | While a request or tunnel is served under the mutex the socket is not down, and the stopping thread's next step cannot take it down |
| GracefulStop.OnlyRejectionOverlaps | src/ProxyServerConnection.cpp:241-245 | The only write a graceful shutdown can meet is the 400 to a malformed request, sent after unwinding has released the mutex |
| GracefulStop.RejectionCanOverlap | src/ProxyServerConnection.cpp:241-245 | And a graceful run exists in which it does meet it |
| GracefulStop.ServesOn | src/ProxyServerConnection.cpp:123-255 | A connection that is not stopped serves the next request after each one, also a malformed one; another exception ends it |
| GracefulStop.ServesFirst | src/ProxyServerConnection.cpp:123-134 | The first request is served |
| GracefulStop.StopIsSignalled | src/ProxyServerConnection.cpp:320-323 | The flag is set if and only if a stop of either kind was called |
| GracefulStop.NoRequestBegins | src/ProxyServerConnection.cpp:123-134 | Once the flag is set no request begins: what is served later was being served when it was set |
| GracefulStop.LoopWindsDown | src/ProxyServerConnection.cpp:123-255 | After the flag is set the loop moves at most four more times, in any interleaving |
| GracefulStop.NoDeadlock | src/ProxyServerConnection.cpp:130-132 | Whoever waits for the mutex finds it free or its holder able to release it |
| GracefulStop.AbortInterruptsService | src/ProxyServerConnection.cpp:323-338 | An aborting stop can shut the socket under a request being served |
| Tunnel.Relay | src/ProxyServerConnection.cpp:36-79 | The loop delivers exactly `Output` of the rounds and stays open exactly while none closed it |
| Tunnel.OutputIsDelivered | src/ProxyServerConnection.cpp:50-78 | That output, by socket result: idle polls are waited out, chunks passed on or dropped, and a failing read, an empty chunk or a throwing send ends it |
| Tunnel.StillOpenIff | src/ProxyServerConnection.cpp:50-78 | The loop is open if and only if no read failed, no chunk was empty and no send threw |
| Tunnel.WholeChunksInOrder | src/ProxyServerConnection.cpp:258-303 | What is sent is, in order, a selection of the whole chunks received |
| Tunnel.FaithfulIff | src/ProxyServerConnection.cpp:283-288 | Output equals input if and only if every chunk received was sent: one whose write poll times out is dropped |
| Tunnel.NothingAfterClose | src/ProxyServerConnection.cpp:50-78 | After a close or an error no later round has any effect |
| Tunnel.OutputGrows | src/ProxyServerConnection.cpp:50-78 | One more round adds its chunk if the loop is open and the chunk is forwarded, and nothing otherwise |
| Tunnel.InputGrows | src/ProxyServerConnection.cpp:50-78 | One more round takes its chunk if the loop is open, and nothing otherwise |
| Tunnel.Undisturbed | src/ProxyServerConnection.cpp:199-205 | A step of the other thread on the shared sockets leaves this one's stream as it was |
| Tunnel.DirectionsAreIndependent | src/ProxyServerConnection.cpp:199-205 | Two threads over two shared sockets, under every schedule of half rounds, arrivals and closes: each direction has written just the output of its own rounds, and all that arrived is what it took, holds, or still has to read |
| Tunnel.TunnelIsFaithfulIff | src/ProxyServerConnection.cpp:258-303 | In every reachable state all that arrived is written on, in hand or waiting, in order, if and only if no chunk was dropped by a write poll or a failing send |
| Tunnel.TunnelCanDrop | src/ProxyServerConnection.cpp:283-288 | A run in which a byte arrives, is read, and is gone since the write poll timed out |
| Tunnel.IdlePollChangesNothing | src/ProxyServerConnection.cpp:276-300 | In every reachable state a read poll that times out leaves everything as it is |
| Tunnel.ReadTakesFromFront | src/ProxyServerConnection.cpp:258-281 | A read takes bytes off the front of what waits, at most as many as asked, as there are and as the buffer of 65336 or 131072 holds |
| Tunnel.WriteIsWholeOrNothing | src/ProxyServerConnection.cpp:283-295 | A write puts the whole chunk on the other socket or nothing, and only a throwing send ends the loop |
| Tunnel.LoopEndsIff | src/ProxyServerConnection.cpp:50-78 | In every run a loop has ended if and only if one of its events was a failing read, a read of a drained and closed socket, or a throwing send |
| Tunnel.JoinNeedsBothCloses | src/ProxyServerConnection.cpp:199-209 | The connection's thread is past the join only if both loops saw a close or an error |
| Tunnel.JoinIsPassedIff | src/ProxyServerConnection.cpp:199-209 | Its next two steps take it past the join if and only if both have |
| AixLog.Log.Deliver | src/logging/aixlog.hpp:555-564 | The loop over the sinks offers the line to each by its own filters |
| AixLog.Log.Flush | src/logging/aixlog.hpp:548-571 | sync delivers or suppresses a nonempty buffer and empties it |
| AixLog.Log.Overflow | src/logging/aixlog.hpp:573-588 | A newline or EOF flushes, any other character is appended |
| AixLog.Log.StreamSeverity | src/logging/aixlog.hpp:1067-1089 | A different severity flushes first, then resets type and condition; the same one does nothing |
| AixLog.Log.StreamType | src/logging/aixlog.hpp:1093-1102 | Sets the type of the current line |
| AixLog.Log.StreamConditional | src/logging/aixlog.hpp:1157-1166 | Sets the condition of the current line |
| AixLog.NothingIsLostOrRelabelled | src/logging/aixlog.hpp:548-588 | For every event sequence the characters fed are, in order, those flushed and those in the buffer, each under the severity in force when it was written |
| AixLog.SinksGetTheirSelection | src/logging/aixlog.hpp:555-564 | Each sink has exactly the flushes, in order, that pass its type and severity filters while the condition is true |
| AixLog.LineIsDeliveredIff | src/logging/aixlog.hpp:548-588 | After any events that leave no line begun: a line with its severity, type, condition and text reaches a sink, once and under them, if and only if it is not empty, the condition is true, the severity is at least the sink's, and the types agree or one is All |
| AixLog.SeverityEndsLineIff | src/logging/aixlog.hpp:1067-1086 | A different severity sends the begun line on under the old one; the same severity changes nothing |
| AixLog.DeliveredLinesAreNotEmpty | src/logging/aixlog.hpp:551-551 | No sink ever gets an empty line |
| AixLog.SeverityResetsIff | src/logging/aixlog.hpp:1061-1086 | Setting a severity leaves type and condition reset if and only if it differs from the one in force or they were reset already |
| AixLog.SeverityNeedNotReset | src/logging/aixlog.hpp:1061-1086 | A run in which a type set before a severity outlives it |
| AixLog.TypesArePureIff | src/logging/aixlog.hpp:1093-1102 | For every event sequence: at every point each character has left, or would leave, under the type it was written under, if and only if no other type is ever set while the buffer is not empty |
| AixLog.TypeIsNotPure | src/logging/aixlog.hpp:1093-1102 | A run in which that condition fails: characters written as normal are delivered as special |

## Left out

- Sockets, sessions, TLS, the thread pool and server startup: their results and failures are nondeterministic events.
- LRU order, capacity and time: eviction drops arbitrary keys.
- Reading dates, numbers and cookies from text: parameters, or taken to be faithful.
- The width of Poco's 64-bit spans and timestamps and of `long`: unbounded integers here.
- Copying a POST's body and forwarding its cookies: no effect on the cache.
- Unused members of CacheResponse and ProxyServerCache (getExpires, getEtag, getLastModified, hasNoCacheDirective, expired, setExpired, setMaxFreshness and the text fields they read).
- Log sinks, formats, colours, tags, timestamps, and adding or removing sinks while the log is used.
- Data races on plain fields below the atomicity stated above, and an entry's heap memory after its last reference is gone.
- The bytes of error responses, and headers the server itself adds to a reply.
- Order of headers across different names, and the exact text of a cookie after Poco's parsing.
- CacheIsGenuine: says "the body as far as it was read", because remoteReq does not notice a transfer that is cut short; CachedBodyIsCompleteIff gives the exact condition.
- DecodeMakeKey: for hosts that do not end in a digit, because makeKey puts no separator before the port; SharedKeyIff covers all hosts.
- BoundedStaleness: the window is N lifetimes, N the workers that overlapped on the entry, because `validated` adds instead of restarting; SequentialStaleness has the single lifetime.
