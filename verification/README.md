# Formal model of go-webserver-template

This project models, in Dafny, the parts of the web-server template that carry
state or string logic, and proves what they keep over every run or input.
`dafny verify dfyconfig.toml` checks all of it.

| file | what it models |
|---|---|
| `Onion.dfy` | middleware closures around a handler, and the trace of a request through them |
| `Routing.dfy` | routers over one mux as values; the lexical reading of a registration history |
| `GoSlice.dfy`, `RouterObjects.dfy` | the same routers as objects whose chains are slices over growable arrays |
| `Cache.dfy` | the atomic timed map, its history laws, and the cache as an object |
| `CacheMachine.dfy` | any number of goroutines over one cache, one lock step at a time |
| `Pipeline.dfy`, `PipelineObjects.dfy` | Recover, AccessLog, the error handler and net/http's response |
| `HeaderLog.dfy` | the sorted header attributes of an access-log line |
| `EnvKey.dfy` | the environment-name callback of the configuration loader |
| `Lifecycle.dfy` | `run`: main, signals and three listener goroutines |
| `Mail.dfy` | recipient and retry loops over an arbitrary transport |
| `Basics.dfy` | the option type |

## Main results

- **Router.** Every sequence of `Use`, `Group`, `SetErrorHandler`, `Handle` and
  `HandleFunc` calls on any routers, done on slices that append in place and
  grow to any capacity, leaves the state that the value semantics gives
  (`RouterObjects.Execute`), with no array shared by two routers that either
  could write to. That state can be read off the history of calls alone
  (`Routing.RoutersAreLexical`, `Routing.MuxIsLexical`), so early wrapping at
  registration and late wrapping at each request equal one lexical interpreter
  (`Routing.ServesLexically`).
  `Routing.RequestTrace` spells out the trace, including short-circuits, panics
  and `Recover`. Without `slices.Clone` sibling groups overwrite each other's
  middleware as soon as the parent slice has spare capacity
  (`RouterObjects.SiblingsWithoutClone`).
- **Cache.** Every schedule of lock steps is linearizable to an atomic timed map
  (`CacheMachine.Linearizable`), with every event of its history owned by one
  operation, and the times and the order of operations are those of the steps
  of the schedule (`CacheMachine.OperationsAreReal`, `CacheMachine.RealTimeOrder`).
  A `Get` hits exactly when the latest `Set` was not followed by a sweep with a
  strictly later cutoff, never misses within the expiration, and returns nothing
  older than the expiration plus the time since the last sweep
  (`CacheMachine.GetGuarantees`); that bound is attained. There is no deadlock
  (`CacheMachine.EveryoneCanReturn`).
- **Response pipeline.** The client's status is determined for every handler
  program, error tree and panic, with and without access log
  (`Pipeline.EndToEndStatus`). The property "the logged status is the one the
  client gets" is false of the code for interim codes: `responseWriter` treats
  the first `WriteHeader` as final, so after a 103 every later status is
  dropped, 200 is sent and 103 is logged (`Pipeline.InterimIsRecordedAsFinal`).
  It holds exactly when the first status asked for is not an interim one
  (`Pipeline.LoggedIsCommitted`). "AccessLog changes nothing the client sees" is
  false for the same reason; `Pipeline.AccessLogIsTransparent` says exactly when
  it holds. A host or path that the metrics library refuses as a label makes
  AccessLog panic after the handler (`Pipeline.RefusedLabels`).
- **Environment names.** The two overlapping replacements equal a one-pass
  transducer on every name; the keys it can produce, the names it confuses and
  the paths it can express are characterised exactly. The escaping scheme does
  not round-trip when a later segment starts with an underscore or an inner
  segment is empty, and only then (`EnvKey.RoundTrip`, `EnvKey.RoundTripFails`).
- **Lifecycle.** For every interleaving of signals, listener failures and the
  two-step `cancel()` call on a reassigned variable, the effects of `run` are
  one fixed sequence for each way it can end (`Lifecycle.EffectsOfRun`), and
  what ends the wait and what cuts a Shutdown short is characterised exactly
  (`Lifecycle.LeavesWaitIff`, `Lifecycle.GivesUpIff`). The
  database is closed only after every Shutdown call has returned, so only a
  request on a server whose Shutdown was cut short can outlive it
  (`Lifecycle.DatabaseOutlivesListeners`).
- **Mail.** Every transport behaviour leaves an orderly log of dials from which
  the result can be read (`Mail.Mailer.SendToAll`).

Where the code and its comments disagree, the code is followed: the comment at
internal/config/config.go:169-172 speaks of camel case variables, but the
callback lowers every letter, so only lower-case keys can be set
(`EnvKey.KeysProduced`).

## What stands for the outside

Clock readings, the result of each dial, address parsing, the bytes accepted by
each write, the outcome of each setup step, the behaviour of each middleware and
handler on a request, whether the metrics library refuses a request's host or
path as a label value (its lookup then panics before counting), and the form of
`http.CanonicalHeaderKey` are parameters or free choices of an action. The other
label values, a status number and a method that net/http has checked, are taken
to be accepted, and calls of the logger are taken to return. A `Shutdown` call
that returns without an error has left no request in flight. Pattern matching in
the mux is equality of patterns, and registering a taken pattern panics without
storing anything. A captured `*Router` is represented by the router's position
in the order of creation, and the callback that `Group` runs by the calls that
follow it. Goroutine steps are atomic at the granularity of one lock operation,
one clock reading, one map access or one counter increment.

## Model

| member | source | states |
|---|---|---|
| GoSlice.Append | internal/server/router/router.go:43 | the result holds the old contents and the new elements; the array is written only when the capacity suffices, and the old slice keeps its contents |
| GoSlice.Clone | internal/server/router/router.go:50 | same contents, in an array that is new or that the clone can never write to |
| RouterObjects.Router.SetErrorHandler | internal/server/router/router.go:37-39 | changes this router's handler and nothing else |
| RouterObjects.Router.Use | internal/server/router/router.go:41-47 | appends to the one chain of this kind of router; the other chain and the error handler stay |
| RouterObjects.Router.Group | internal/server/router/router.go:49-52 | the sub-router starts with the parent's route chain, error handler and mux, no global chain, and no array it could write to in common with the parent |
| RouterObjects.Router.HandleFunc | internal/server/router/router.go:54-64 | registers the handler bound to this router, wrapped in its route chain, or panics when the pattern is taken |
| RouterObjects.Router.Handle | internal/server/router/router.go:66-71 | the backward loop builds the route chain around the handler, first middleware outermost |
| RouterObjects.Router.BuildForRequest | internal/server/router/router.go:73-79 | the backward loop builds the current global chain around the mux |
| RouterObjects.Site.ChainsAreSeparate | internal/server/router/router.go:41-52 | an array in common to a chain of one router and a chain of another is empty, with capacity zero on both sides: neither can write to it |
| RouterObjects.Site.Use | internal/server/router/router.go:41-47 | on the heap, Use changes this router as the value step says and leaves the state of every other router as it was |
| RouterObjects.Site.Group | internal/server/router/router.go:49-52 | on the heap, Group adds a router and leaves the others as they were |
| RouterObjects.Site.ServeHTTP | internal/server/router/router.go:73-80 | serving from the heap state gives the trace of the value semantics, with the error handler read at that moment |
| RouterObjects.Execute | internal/server/router/router.go:37-71 | any sequence of calls on any routers, with any slice growth, leaves exactly the state of the value semantics |
| RouterObjects.SiblingsWithClone | internal/server/router/router.go:50 | two groups of one parent keep their own middleware, whatever spare capacity there is |
| RouterObjects.SiblingsWithoutClone | internal/server/router/router.go:50 | without the clone the first group ends up with the second group's middleware exactly when there is spare capacity |
| Routing.RoutersAreLexical | internal/server/router/router.go:37-52 | all fields of every router from the history alone: global chain as all Uses on the root, route chain as the parent's scope at the Group call plus later Uses, error handler as the last one set or the parent's at the Group call |
| Routing.MuxIsLexical | internal/server/router/router.go:54-71 | a pattern is in the mux exactly when some call registered it, and then wrapped in the middleware in scope at the first such call; Handle stores the plain handler, HandleFunc one that reports its errors to the router it was called on |
| Routing.ServesLexically | internal/server/router/router.go:54-80 | eager wrapping plus per-request wrapping serves every request like one lexical interpreter over global chain and route scope |
| Routing.RequestTrace | internal/server/router/router.go:49-80 | the trace of any request on the root router, matched or not: entries in registration order, then, if nothing stops it, the handler and, exactly for a failing HandleFunc route, its router's current error handler; closings in reverse, with panics and Recover |
| Routing.UseAfterRoute | internal/server/router/router.go:41-47 | middleware added after a route wraps it when added to the root and not when added to a group |
| Onion.WellNested | internal/server/router/router.go:66-80 | for chains of any length and any mix of behaviours: nothing past a short-circuit runs, exits are in reverse order, and a panic drops exactly the exits up to the nearest Recover |
| Onion.ServerStack | internal/server/server.go:124-136 | under the installed middleware, with or without AccessLog, no panic leaves the server, and a request is either finished by every layer or rescued by Recover; AccessLog itself may panic after the handler |
| TimedMap.HoldsLatest | internal/cacher/cacher.go:47-54 | after any history a key is present exactly when its latest Set was not swept away, with that value and time |
| TimedMap.HitIff | internal/cacher/cacher.go:62-73 | a Get hits exactly when the latest Set was not followed by a sweep with a strictly later cutoff |
| TimedMap.FreshHits | internal/cacher/cacher.go:47-84 | a Get within the expiration of the latest Set returns its value |
| TimedMap.StalenessBound | internal/cacher/cacher.go:45-73 | a hit is no older than the expiration (or zero) plus the time since the last sweep or the start |
| TimedMap.StalenessIsTight | internal/cacher/cacher.go:45-73 | an entry of exactly that age can be returned |
| CacheObject.Cache.Get | internal/cacher/cacher.go:62-73 | answers from the map without looking at the age, counts one hit or one miss, changes no entry |
| CacheObject.Cache.Set | internal/cacher/cacher.go:75-84 | replaces the entry of one key with the value and the time, and keeps the map the replay of its history |
| CacheObject.Cache.Sweep | internal/cacher/cacher.go:47-54 | for every iteration order, deleting while ranging leaves exactly the entries at or after the cutoff |
| CacheMachine.LocksStep | internal/cacher/cacher.go:47-84 | every step keeps writers apart from readers and from each other |
| CacheMachine.RefinesAtomicMap | internal/cacher/cacher.go:41-84 | every step is a stutter or one atomic operation on the abstract map, at a time no earlier than the one before |
| CacheMachine.Linearizable | internal/cacher/cacher.go:41-84 | under every schedule the effects form a history of the atomic map in clock order; each finished operation is one event between its call and its return; there are as many such events as operations finished, so no two share one; every event belongs to a finished operation or to exactly one in progress |
| CacheMachine.NoHalfSweep | internal/cacher/cacher.go:47-64 | a goroutine holding the read lock sees the atomic map, never a sweep in progress |
| CacheMachine.CountersAgree | internal/cacher/cacher.go:62-73 | the hit counter is the number of Gets told a value and the miss counter the number of those told none, each with the Gets that counted and still hold the lock; with no reader left they are exactly the finished Gets |
| CacheMachine.OperationsAreReal | internal/cacher/cacher.go:41-84 | the clock is the start plus what has passed; every finished operation was called with this request, took the lock, read the clock or looked up, and returned, at steps of its own, and its times are the clock at exactly those steps: taken <= event <= released |
| CacheMachine.RealTimeOrder | internal/cacher/cacher.go:62-84 | an operation that returned before another was called comes before it in the history |
| CacheMachine.GetGuarantees | internal/cacher/cacher.go:41-84 | for every finished Get of every schedule: the exact hit condition; by the clock at which the operations took and released the lock, a hit when it ends within the expiration of the latest Set's beginning, and no value older than the expiration plus the time since the beginning of any earlier sweep or the start |
| CacheMachine.GetsShareTheLock | internal/cacher/cacher.go:63-64 | two Gets waiting while nobody writes can hold the lock together |
| CacheMachine.EveryoneCanReturn | internal/cacher/cacher.go:47-84 | no deadlock: from every reachable state all operations in progress can return without new calls and without time passing |
| CacheMachine.AnyoneCanStart | internal/cacher/cacher.go:62-84 | in every reachable state an idle goroutine can start any operation, after which all can return |
| Pipeline.FirstHttpCode | internal/server/server.go:87-91 | the search finds the first *HTTPError of the error tree in depth-first order |
| Pipeline.RecorderOutcome | internal/server/middleware/accesslog.go:22-38 | first status recorded, at most one WriteHeader forwarded, length equal to the bytes accepted, panic exactly on an invalid first code |
| Pipeline.LoggedIsCommitted | internal/server/middleware/accesslog.go:58-113 | logged status equals the client's exactly when the first status is not interim; logged length equals the bytes sent |
| Pipeline.InterimIsRecordedAsFinal | internal/server/middleware/accesslog.go:22-29 | a concrete request on which the access log changes the response and logs 103 |
| Pipeline.CommittedStays | internal/server/middleware/recover.go:18-23 | after a status is committed nothing changes it and nothing panics |
| Pipeline.EndToEndStatus | internal/server/server.go:84-136 | the client's status for every request, with and without access log, from the handler's steps, the first *HTTPError code of the returned error or 500, and the panics of the handler and of the metrics calls |
| Pipeline.SilentHandler | internal/server/server.go:84-122 | a handler that sends nothing: 500 and a rescue for a panic, 200 for a return, and for an error the first *HTTPError code of its tree, or 500 when there is none, the host is refused or the code is invalid |
| Pipeline.SpeakingHandler | internal/server/middleware/accesslog.go:22-38 | a handler that sends something: a write first means 200, a final code itself, an invalid one 500; an interim code means nothing without AccessLog, and 200 (or 500 for a panic before any write) with it |
| Pipeline.FinalCodesStatus | internal/server/router/router.go:54-60 | when the first status asked for is not interim, whatever comes later: that status if the handler did anything, else the first *HTTPError code of the error, or 500, else 500 for a panic and 200 for a return; 500 for a code net/http refuses |
| Pipeline.AccessLogIsTransparent | internal/server/middleware/accesslog.go:55-100 | exactly when AccessLog changes nothing: the status agrees if and only if nothing was decided and both configurations end alike, or what was decided is what AccessLog lets through; the interim codes agree if and only if there is at most one; Recover is needed alike if and only if the refused codes and final panics coincide; and the whole answer agrees if and only if all three hold |
| Pipeline.TransparentWhenFirstIsFinal | internal/server/middleware/accesslog.go:55-73 | with labels the metrics library accepts and a first status that is not interim, AccessLog changes nothing on the wire but the number of WriteHeader calls |
| Pipeline.RefusedLabels | internal/server/middleware/accesslog.go:90-99 | a refused host or path label loses the log line and appends Recover's text; the status changes exactly when the handler did nothing |
| PipelineObjects.ResponseWriter.WriteHeader | internal/server/middleware/accesslog.go:22-29 | only the first call is recorded and forwarded, later ones change nothing; a panic of the inner writer comes after the status is recorded |
| PipelineObjects.ResponseWriter.Write | internal/server/middleware/accesslog.go:31-38 | an unwritten response gets 200 first; then exactly the bytes the inner writer accepts are counted |
| PipelineObjects.Server.ThroughAccessLog | internal/server/middleware/accesslog.go:56-115 | counts and logs a request only when handler, error handler and the label lookup of line 96 all return; the error counter of server.go:85 rises only when its label is accepted |
| PipelineObjects.Server.ServeHTTP | internal/server/middleware/recover.go:17-25 | each request is answered as the pipeline says, and request count plus recovered panics stays the number of requests |
| PipelineObjects.Server.ServeAll | internal/server/server.go:124-136 | the same conservation over any sequence of requests; the error counter is the number of requests whose handler returned an error after no refused status and with an accepted host |
| HeaderLog.Sort | internal/server/middleware/accesslog.go:82 | a sorted permutation |
| HeaderLog.HeaderAttrs | internal/server/middleware/accesslog.go:78-87 | every header key once, in increasing order, with its own values joined |
| HeaderLog.OrderDoesNotMatter | internal/server/middleware/accesslog.go:78-87 | the line is the same for every iteration order of the map |
| HeaderLog.FirstDifference | internal/server/middleware/accesslog.go:82 | keys are ordered by the first character at which they differ, a proper prefix first |
| HeaderLog.Joined | internal/server/middleware/accesslog.go:86 | the joined value holds every value whole and in order, one separator between each two, and nothing else |
| EnvKey.DecodeIsOnePass | internal/config/config.go:168-177 | on every name, past the prefix GO_ where there is one, a run of n separators becomes n/2 underscores and a dot when n is odd |
| EnvKey.KeysProduced | internal/config/config.go:173-177 | a key can be produced exactly when it has no upper case and no dot before a dot or underscore |
| EnvKey.DecodeCollision | internal/config/config.go:173-177 | two names give one key exactly when, past GO_, they agree up to letter case and dots for underscores |
| EnvKey.RoundTrip | internal/config/config.go:168-178 | decoding GO_ and the encoded path returns the path exactly for the expressible paths |
| EnvKey.NamesAreUpper | internal/config/config.go:168-178 | encoded names hold no lower-case letter and no dot |
| EnvKey.RoundTripFails | internal/config/config.go:168-178 | two different paths share the name GO_A___B, which is read as a_.b |
| Lifecycle.SetupInOrder | main.go:129-196 | the setup steps run in order, mail only when enabled; the first failure is the last step tried; a run past its setup has done them all |
| Lifecycle.EffectsOfRun | main.go:129-289 | the exact sequence of Shutdown calls and deferred calls for each way run can end, whatever signals and listeners do; the database is closed exactly when it was opened, and the deadline is the clock at the reassignment of cancel plus the configured timeout |
| Lifecycle.ShutdownDeadlines | main.go:272-287 | every Shutdown call of every run carries the clock at the reassignment of cancel plus the configured timeout |
| Lifecycle.LeavesWaitIff | main.go:201-269 | main can pass its wait exactly when a signal came or a listener read cancel before its reassignment and called it |
| Lifecycle.LeavesWaitOnlyOnCause | main.go:201-269 | main passes its wait only after a signal or after the listener of a configured server read the first cancel and called it |
| Lifecycle.GivesUpIff | main.go:272-287 | a Shutdown can give up exactly when the configured time since the reassignment is over or a listener read cancel after it and called it |
| Lifecycle.LateFailureCutsShort | main.go:234-287 | a listener that fails while another server is being shut down ends that Shutdown's grace at once |
| Lifecycle.CutShortOnlyOnCause | main.go:272-287 | a Shutdown has given up only if the configured time since the reassignment is over or the listener of a configured server read cancel after it and called it |
| Lifecycle.DatabaseOutlivesListeners | main.go:149-157 | once any listener was started, the database is closed only while run is returning and after the Shutdown call of every configured server has returned, either with no request left in flight or cut short, never both: only requests on a server cut short can outlive the database |
| Lifecycle.OutsideIsFree | main.go:130-286 | at any time a signal can come, the setup step being tried can fail, and a listener can fail exactly once, from its start until its server is told to shut down |
| Lifecycle.RunCanFinish | main.go:129-289 | from every reachable state run can still return without cutting a further Shutdown short |
| Mail.Mailer.Retry | internal/mail/mail.go:137-149 | dials one recipient with the given content until delivery, cancellation or the last try, and nobody else |
| Mail.Mailer.Send | internal/mail/mail.go:115-150 | no body, a bad sender and a bad recipient are reported exactly then and in this order, with nothing dialled; otherwise the retry loop |
| Mail.Mailer.SendToAll | internal/mail/mail.go:85-113 | the log is orderly and explains the result: nil exactly when everyone was served; otherwise who stopped it and why; every dial carries the given content |
| Mail.Mailer.SendHTMLEmail | internal/mail/mail.go:85-93 | the same, with the body as HTML and no text |
| Mail.Mailer.SendTXTEmail | internal/mail/mail.go:95-103 | the same, with the body as text and no HTML |
| Mail.Mailer.SendMultipartEmail | internal/mail/mail.go:105-113 | the same, with both bodies |
| Mail.ServedIsPrefix | internal/mail/mail.go:85-113 | the recipients served are a prefix of the list, each once |
| Mail.NobodyBehind | internal/mail/mail.go:85-150 | nobody behind the recipient that stopped the sending is dialled; without tries nothing is dialled and only an empty list succeeds |

## Left out

- `http.ServeMux` precedence, wildcards and conflicts between different patterns; routes are registered before requests are served concurrently, since the original does not synchronise them.
- Ticker delivery and the choice in the sweeper's `select`: the time since the last sweep is a hypothesis of the staleness bound, and the sweeper's exit is not claimed.
- Overflow of `time.Duration` and of the counters: times and counts are unbounded integers.
- Letter case outside ASCII in `strings.ToLower`, and koanf's own splitting of keys at dots.
- Response headers, the contents of error pages (any code without a page gets the page for 500), and the notification sent for codes above 499.
- `RealIP`, `RealHost` and `SecretKeyHeader` beyond passing a request on or answering it: their header lookups are short first-match loops.
- Connection hijacking, content-length checks and other reasons for net/http to accept fewer bytes: the accepted count is a parameter of each write.
- Building the mail message beyond the checks that can fail, the database wrapper, the HTTP client, certificates, logger set-up, templates and static files.
- Fairness: `run` can always return and every cache operation can always finish, but that a scheduler makes them do so is not claimed.
- The preference of `sync.RWMutex` for waiting writers: the machine lets a Get take the lock while a writer waits, so its schedules include all real ones.
