# Verified model of the credential helper's core

The credential helper is a short-lived client process that answers one credential request, and a long-lived
agent process that caches responses behind a unix socket. This project models the parts of it that carry
logic and proves what they guarantee, for all inputs and all runs.

- `Glob`, `HelperConfig`: the glob matcher of the configuration file and the selection of a helper.
- `Agent`, `AgentSafety`, `AgentShutdown`, `AgentTimers`, `AgentProgress`, `AgentLiveness`, `AgentService`,
  `AgentPruning`, `AgentRuns`: one agent process as interleaved atomic steps of its goroutines (main, accept, idle timer, prune, any number of
  connection handlers), sequentially consistent, with timers that deliver no stale tick after a Reset (Go 1.23
  and later; go.mod names 1.24).
  `handleShutdown` is six steps: compare-and-swap, write, Reset, write, Reset, close.
- `Deployment`: any number of such processes sharing the lock file and the socket path, with crashes.
- `MemCache`, `Protocol`, `CacheHistory`, `CacheSystem`, `CacheCalls`: the in-memory cache, the request/response protocol with
  the request record that `handleConn` reuses, the client cache on top of it, and all interleavings of any
  number of clients with prunes and breaking connections.
- `Text`, `Challenge`, `ChallengeRoundTrip`: byte strings and the `WWW-Authenticate` parser.
- `OciKeys`, `Foreground`, `ForegroundRuns`: from a URI to registry, repository and cache key, and the client process over
  the cache of `CacheSystem`.
- `LookupChain`, `OciAuth`: the secret lookup chain, and the derivation of registry credentials with its memo.

`dafny verify dfyconfig.toml` checks everything.

## What the proofs found

Some properties one would expect hold only under a condition. The model keeps the code as it is; the exact
conditions are proved.

- A connection accepted after the shutdown channel is closed and before the main loop leaves `select` is never
  received: the accept goroutine stays in its send, `Serve` never returns, the lock is never released and no
  successor can start (`AcceptCanGetStuck`, `StuckForEver`, `StuckAgentBlocksSuccessors`). This is the only way
  for a shutdown to fail once its clients are gone: every run that comes to rest has returned from `Serve`
  exactly when no connection is in hand-over and none can be accepted any more (`ServeReturnsIff`).
- `handleConn` evaluates `a.idleTimeout` before it calls `Reset`. With the two as separate steps, a request
  racing with a shutdown re-arms the idle timer with the configured timeout. That can happen exactly when this
  timeout is positive (`IdleWakeupIff`) and a handler has read it before the shutdown wrote it and not yet
  reset the timer (`CanStrandIff`), and it delays `Serve` by at most that timeout (`ServeReturnsAfterTimeout`).
  The parameter `split` of the agent model tells whether the two are separate; the liveness results hold
  either way.
- A message that omits a field gets the value an earlier message of the connection left. This is visible exactly
  under the condition `CarriesOver` (`ReuseInvisibleIff`, `ReuseCanShow`).
- The challenge parser goes on after an unquoted value exactly when the byte after the separator that ends the
  value is a comma (`BareEndsParseUnlessComma`), so a plain comma stops it (`ParsePrinted`). The challenge
  `Bearer ` without parameters parses to one empty pair (`EmptyChallenge`).
- A second `deriveAuthConfig` on the same resolver returns the bare docker entry when that entry is found and not
  empty; its empty exchange method is then refused by `Exchange` unless it carries a registry token, whatever
  method is configured (`SecondCallAgreesIff`, `LaterExchangeRefusedIff`). A configured authenticator that once
  has nothing to say is replaced by a docker entry found then and not asked again (`EveryCall`).
- `deriveRepository` tests for the path `/v2` behind a check for the prefix `/v2/`; that test can never succeed
  (`VersionTestIsRedundant`).

## Model

| member | source | states |
|---|---|---|
| `Glob.GlobMatch` | config/config.go:96-126 | true exactly when the candidate can be cut so that each star takes some string and every other byte itself; at most (pattern length + 1)(candidate length + 1) loop rounds |
| `Glob.MatchesIffAccepts` | config/config.go:96-126 | the cut-based meaning and the recursive one used by the loop invariant coincide |
| `Glob.LeftmostIsEnough` | config/config.go:111-122 | forgetting every restart point but the last star's loses no match |
| `HelperConfig.FindHelper` | config/config.go:31-66 | the least entry matching under the declarative glob meaning decides; null helper when nothing matches; error exactly when a nameless entry comes no later than the first match or that match names an unregistered helper |
| `AgentSafety.InvStep` | agent/service.go:74-280 | every step of every goroutine and of the environment keeps the agent's invariant |
| `AgentSafety.InvReachable` | agent/service.go:74-280 | the invariant holds in every state of every run |
| `AgentShutdown.ReachableIsSafe` | agent/service.go:83-140 | the channel is closed at most once, the wait count is the number of live goroutines, the lock is released only with the listener closed and every handler done |
| `AgentShutdown.NoAddWhileWaiting` | agent/service.go:83-140 | once the main goroutine waits nothing is added to the wait group and no handler starts |
| `AgentShutdown.NegativeDurationsDisable` | agent/service.go:96-121 | a negative idle timeout never shuts down, a negative prune interval never prunes |
| `AgentService.IdleExitMeansShutdown` | agent/service.go:96-105 | with a timeout that is not negative the idle goroutine never ends without a shutdown |
| `AgentService.IdleAgentShutsDown` | agent/service.go:96-105 | left alone for that timeout an agent has started a shutdown or still has a step to take |
| `AgentService.RequestKeepsAlive` | agent/service.go:164-166 | a request that restarts the waiting idle timer keeps the agent from an idle shutdown for the whole timeout, in any run |
| `AgentService.StartKeepsAlive` | agent/service.go:86 | nor does an idle shutdown come before the timeout has passed since the start |
| `AgentService.ShutdownRequestsAreServed` | agent/service.go:171-183 | by the time the handler of a shutdown request has moved on a shutdown has started |
| `AgentService.OnlyAskedOrIdle` | agent/service.go:246-251 | without a shutdown request only the idle timeout shuts the agent down, and a negative one never does |
| `AgentService.ConnectionsAreKept` | agent/service.go:123-140 | no connection is lost: each one accepted is in hand-over, about to get its handler, or has it |
| `AgentService.ConnectionsLast` | agent/service.go:150-163 | a connection lasts until its client hangs up or sends a malformed message |
| `AgentService.RequestsAreAnswered` | agent/service.go:150-198 | a handler with a request reads no other and does not end before its client has taken the response |
| `AgentService.NoSilentEnd` | agent/service.go:150-163 | unless the client hangs up a handler ends only after a response, also to a malformed message |
| `AgentService.NoConnectionAfterFailure` | agent/service.go:272-280 | after a failing accept no connection is handed over any more |
| `AgentPruning.TicksPrune` | agent/service.go:107-121 | with an interval that is not negative every tick received before a shutdown is followed by a prune |
| `AgentPruning.PruneComesUp` | agent/service.go:107-121 | the prune goroutine waits no longer than the interval for its tick |
| `AgentPruning.PruneExitMeansShutdown` | agent/service.go:110 | the prune goroutine ends only after a shutdown has started |
| `AgentPruning.PrunesAreSpaced` | agent/service.go:107-121 | a scheduled prune starts no earlier than the interval after the one before, forced ticks included |
| `AgentPruning.NoPruneAfterShutdown` | agent/service.go:113 | once a shutdown has started no scheduled prune starts |
| `AgentShutdown.PruneWakeup` | agent/service.go:107-121 | after the shutdown's Reset the prune goroutine is never left waiting, although reading the interval and Reset are separate steps |
| `AgentTimers.IdleWakeup` | agent/service.go:246-262 | after the shutdown's Reset the idle goroutine can be left waiting only by a split re-arm with a positive timeout, and no longer than that timeout |
| `AgentTimers.StrandedBy` | agent/service.go:164-166 | the one step that leaves it waiting is the Reset of a handler holding a positive timeout |
| `AgentTimers.CanStrandIff` | agent/service.go:164-166 | some run leaves it waiting exactly when it already is, or still receives while such a handler is pending |
| `AgentShutdown.WinnerCanStep` | agent/service.go:246-262 | an unfinished shutdown can always take its next statement |
| `AgentShutdown.QuiescentIff` | agent/service.go:74-140 | the exact states of a shutdown in which no step of the agent is enabled |
| `AgentShutdown.QuiescentCases` | agent/service.go:74-140 | then the lock is released with wait count zero, or a handler waits on its client, or the accept goroutine is stuck, or a split re-arm strands the idle goroutine |
| `AgentShutdown.StuckForEver` | agent/service.go:272-280 | a stuck accept goroutine stays stuck whatever happens, so the lock is never released |
| `AgentProgress.RankFalls` | agent/service.go:74-280 | once a shutdown has started every step of the agent or of a finishing client lowers a rank |
| `AgentProgress.ShutdownRunsAreBounded` | agent/service.go:74-280 | in any run from the start of a shutdown the agent and its finishing clients take at most rank many steps, and five more per request or connection that arrives |
| `AgentProgress.SettledCases` | agent/service.go:74-140 | where such a run ends: released, accept stuck, or idle goroutine stranded by a split re-arm |
| `AgentProgress.ServeReturns` | agent/service.go:74-140 | with no connection in hand-over and none accepted any more, any run is bounded; where it settles Serve has returned and the lock is released unless a re-armed idle timer is waited for, and where it stays settled for the configured timeout in any case |
| `AgentProgress.ServeReturnsAfterTimeout` | agent/service.go:96-105 | once the configured timeout has passed no re-arm keeps Serve from returning |
| `AgentProgress.CanSettle` | agent/service.go:74-140 | a settled state can be reached from every state of a shutdown |
| `AgentLiveness.GetStuck` | agent/service.go:272-280 | a connection in hand-over can always be left without a receiver |
| `AgentLiveness.CanGetStuckIff` | agent/service.go:123-140 | the accept goroutine can get stuck exactly when a connection is in hand-over or, in runs that accept more, the listener still takes one |
| `AgentLiveness.RestIsReached` | agent/service.go:74-140 | from every state of a shutdown a state is reachable in which nothing more happens however long the clock runs |
| `AgentLiveness.ServeReturnsIff` | agent/service.go:74-140 | every run of a shutdown that comes to rest has released the lock exactly when no connection is in hand-over, or none can be any more, for every configuration |
| `AgentRuns.AcceptCanGetStuck` | agent/service.go:123-140 | for every configuration a run that leaves the accept goroutine stuck |
| `AgentRuns.IdleTimeoutShutsDown` | agent/service.go:96-105 | for every timeout that is not negative a run in which the idle goroutine shuts the agent down just when it has passed |
| `AgentRuns.FirstPrune` | agent/service.go:84-121 | for every interval that is not negative a run that prunes at once |
| `AgentRuns.IdleTimerCanBeRearmed` | agent/service.go:164-166 | for every positive timeout a run that re-arms the forced idle timer |
| `AgentRuns.IdleWakeupIff` | agent/service.go:246-262 | no shutdown leaves the idle goroutine waiting exactly when the timeout is not positive or read and Reset are one step |
| `AgentRuns.StrandedDelays` | agent/service.go:96-105 | until the clock reaches the re-armed timer Serve does not return, whatever happens short of another request |
| `Deployment.InvStep` | agent/service.go:36-72 | start-up, serving, exit and crash of any process keep the tie between lock, socket path and processes |
| `Deployment.MutualExclusion` | agent/internal/lockfile/lockfile_unix.go:12-20 | at most one process is between lock acquisition and release |
| `Deployment.TryLockIff` | agent/internal/lockfile/lockfile_unix.go:12-20 | an attempt to lock gets the lock exactly when nobody holds it, and takes it from nobody |
| `Deployment.FreshProcessServes` | agent/service.go:36-72 | whenever nobody holds the lock any fresh process can start, bind the path and serve, whatever was left there |
| `Deployment.CrashFreesTheLock` | agent/internal/lockfile/lockfile_unix.go:12-20 | a crash frees the lock and leaves the socket at its path |
| `Deployment.FailedRemovalIff` | agent/service.go:53-62 | a failing removal of a left-over socket goes unnoticed; binding then works exactly when the path is free, and a failed start gives the lock back |
| `Deployment.OnlyTheHolderTouchesTheSocket` | agent/service.go:53-62 | every change of the socket path is made by the lock holder |
| `Deployment.ClosingUnlinksItsOwnSocket` | agent/service.go:83-84 | a closing listener unlinks its own socket while the lock is still held, never a successor's |
| `Deployment.ReleaseComesLast` | agent/service.go:264-270 | the lock is released with the path gone, the listener closed and no goroutine live |
| `Deployment.DialReachesTheHolder` | cache/socketcache.go:22-39 | whoever dials the path reaches the serving lock holder or a dead process |
| `Deployment.ListeningIsUndisturbed` | agent/service.go:36-72 | no other process disturbs the path or the lock of a listening agent |
| `Deployment.SuccessorCanBind` | agent/service.go:53-62 | the left-over socket of a dead agent does not keep a successor from listening |
| `Deployment.StuckAgentBlocksSuccessors` | agent/internal/lockfile/lockfile.go:9-31 | a stuck agent that is not killed keeps every successor from getting the lock |
| `MemCache.MemCache.Retrieve` | cache/memcache.go:22-32 | the stored response or a miss |
| `MemCache.MemCache.Store` | cache/memcache.go:34-43 | the map with the entry under its key, unchanged for an empty key or expiry |
| `MemCache.MemCache.Prune` | cache/memcache.go:45-63 | survivors parse and were unexpired at the start, removed entries unparsable or expired at the end, all else unchanged |
| `MemCache.StoredIsWellFormed` | cache/memcache.go:34-43 | a store keeps entries under their own non-empty key and touches no other key |
| `Protocol.ConnHandler.Round` | agent/service.go:150-198 | one round merges the message into the reused record and acts as the pure handler on the result |
| `Protocol.ConnHandler.Serve` | agent/service.go:142-199 | replies, cache and clock over a whole connection up to the first malformed message, prunes removing and keeping what the cache's prune promises |
| `Protocol.EffectiveIsLastPresent` | agent/service.go:146-151 | field by field the effective request is the last value present |
| `Protocol.EffectiveNeverPresent` | agent/service.go:146-151 | a field never sent has its zero value |
| `Protocol.RoundAgrees` | agent/service.go:171-183 | a round with the reused record acts like one with a fresh record, or its reply already differs |
| `Protocol.ReuseInvisibleIff` | agent/service.go:146-183 | reuse is invisible over a connection exactly when no message carries a value over, for any interference by others |
| `Protocol.SelfContainedStreams` | cache/socketcache.go:50-53 | streams as the clients send them get the same replies and cache states either way |
| `Protocol.ReuseCanShow` | agent/service.go:146-151 | a concrete stream on which the replies differ |
| `Protocol.SocketCache.Retrieve` | cache/socketcache.go:42-77 | through the protocol, the answer of the agent's map, or an error when the connection breaks; the map unchanged |
| `Protocol.SocketCache.Store` | cache/socketcache.go:80-106 | through the protocol, the effect of a store on the agent's map; when the connection breaks an error, with that effect exactly when the agent got the request |
| `Protocol.FiltersAgree` | cache/socketcache.go:42-45 | the client-side filters answer as the agent would |
| `Protocol.HandleFrame` | agent/service.go:170-198 | only a store under its own key or a prune changes the cache; which requests get which kind of reply |
| `Protocol.NullIsEmpty` | agent/service.go:201-232 | a null payload reads as an empty key or entry, a missing one is an error |
| `Protocol.AnswersByReply` | cache/socketcache.go:57-77 | the client takes a hit, a miss and a success for what they are and anything else for an error |
| `Protocol.Dial` | cache/socketcache.go:22-39 | the first successful attempt within the timeout, an error only when every attempt fails |
| `CacheHistory.LookupsReturnLatestStore` | cache/memcache.go:22-43 | in a legal history a lookup returns the latest store not removed by a prune and misses exactly when there is none |
| `CacheHistory.LookupsAreFresh` | cache/memcache.go:45-63 | after a completed prune a response was stored later or unexpired when it began |
| `CacheSystem.InvReachable` | agent/service.go:201-244 | cache, calls and history stay tied in every interleaving |
| `CacheSystem.Linearizable` | cache/socketcache.go:42-106 | every interleaving of any number of clients, prunes and breaking connections is equivalent to a legal history of one atomic map whose lookups and stores are one-to-one with the executed calls, each between invocation and return and with the call's answer; a failed call has at most one effect |
| `CacheCalls.CallFailsIff` | cache/socketcache.go:42-106 | a call that returns fails exactly when it needed the agent and its connection is broken |
| `CacheCalls.OnlyBreaksFailCalls` | cache/socketcache.go:42-106 | at any point of any run the connection of a failed call has been broken before; without breaks no call fails |
| `CacheCalls.FailedCallsMayTakeEffect` | agent/service.go:150-198 | the agent may still execute the request of a call whose connection has broken |
| `CacheCalls.CallsCanReturn` | agent/service.go:142-244 | from every state each call in progress can be executed and answered, a running prune notwithstanding |
| `CacheSystem.RealTimeOrder` | cache/socketcache.go:42-106 | a call invoked after a point of the run at which another has succeeded takes effect after it |
| `CacheSystem.RetrieveReturnsLatestStore` | cache/socketcache.go:42-77 | a retrieve returns the latest executed store for its key not removed by a prune, and misses exactly without one |
| `CacheSystem.HitsComeFromStores` | cache/socketcache.go:42-106 | a hit is the response of an executed store call for the same key |
| `CacheSystem.RetrieveIsFresh` | agent/service.go:107-121 | in every run a response handed out after a prune was stored later or unexpired when that prune began |
| `Challenge.ParseWWWAuthenticate` | authenticate/oci/oauth.go:99-114 | an error exactly without the Bearer prefix; each round leaves a strictly shorter suffix; the result of the recursive reading |
| `Challenge.ConsumeToken` | authenticate/oci/oauth.go:127-134 | splits at the first separator and consumes it |
| `Challenge.ReadParam` | authenticate/oci/oauth.go:148-162 | one parameter as the pure functions read it |
| `ChallengeRoundTrip.UnquoteEscaped` | authenticate/oci/oauth.go:136-146 | an escaped value is read back exactly when it has no line break |
| `ChallengeRoundTrip.UnquoteSpelled` | authenticate/oci/oauth.go:136-146 | text in which each character is spelled in any way a quoted string has for it is read back |
| `ChallengeRoundTrip.ConsumePrintedBare` | authenticate/oci/oauth.go:127-134 | an unquoted value takes the following separator with it |
| `ChallengeRoundTrip.BareEndsParseUnlessComma` | authenticate/oci/oauth.go:103-134 | whatever follows an unquoted value, the parse goes on exactly when the byte after the consumed separator is a comma |
| `ChallengeRoundTrip.ParsePrinted` | authenticate/oci/oauth.go:99-162 | the pairs recovered are exactly those up to and including the first unquoted value with only a comma behind it, last duplicate winning |
| `ChallengeRoundTrip.RoundTrip` | authenticate/oci/oauth.go:99-162 | with every value quoted or followed by a separator of its own, printing and parsing gives back all pairs |
| `ChallengeRoundTrip.CollectTakesLast` | authenticate/oci/oauth.go:105-111 | a key gets the value of its last occurrence |
| `ChallengeRoundTrip.NoEqualsSign` | authenticate/oci/oauth.go:116-125 | without an equals sign everything after the scheme is one key with an empty value |
| `ChallengeRoundTrip.NamelessParameter` | authenticate/oci/oauth.go:155-162 | a parameter without a name yields an empty pair and its value is not read |
| `ChallengeRoundTrip.UnreadableQuoteEnds` | authenticate/oci/oauth.go:136-146 | a quoted value that cannot be read counts as empty and ends the parse |
| `ChallengeRoundTrip.EmptyChallenge` | authenticate/oci/oauth.go:103-111 | a challenge without parameters yields one empty pair |
| `OciKeys.DeriveRepositoryIff` | authenticate/oci/oci.go:497-549 | for every URI: an error exactly without https and a host, a repository exactly from the pull endpoints of that host and as named in them, ignored otherwise |
| `OciKeys.VersionTestIsRedundant` | authenticate/oci/oci.go:509-519 | the test for the bare version endpoint decides nothing and its second half never succeeds |
| `OciKeys.ReadingIsUnique` | authenticate/oci/oci.go:522-548 | the three endpoint forms never overlap; name and suffix are determined |
| `OciKeys.UnescapeEscape` | authenticate/oci/oci.go:140-150 | host and query escaping can be read back |
| `OciKeys.EscapeKeepsIff` | authenticate/oci/oci.go:140-150 | exactly the text without bytes to escape is left as it is |
| `OciKeys.KeyOfPlainNames` | authenticate/oci/oci.go:140-152 | the key as it is written, for such names |
| `OciKeys.ReadKeyOfKeyFor` | authenticate/oci/oci.go:140-152 | registry and repository can be read back from a cache key |
| `OciKeys.CacheKeysAreSound` | authenticate/oci/oci.go:127-153 | equal non-empty keys exactly for the same registry and repository |
| `OciKeys.ScopeNamesRepository` | authenticate/oci/oci.go:177 | the scope of an exchange asks for pull access to exactly the derived repository |
| `Foreground.Run` | cmd/root/root.go:98-146 | a hit prints the cached response and changes nothing; a miss or a failed retrieve prints and stores what the resolver got; fatal exactly when the resolver or the store fails |
| `Foreground.CachedResponsesAreForTheSameScope` | cmd/root/root.go:98-146 | in every run of any number of clients over the agent's cache, calls, prunes and breaks interleaved, a response printed from the cache came from an earlier exchange with the same registry for the same scope |
| `Foreground.OtherResponsesAreFresh` | cmd/root/root.go:118-137 | every other line prints the latest exchange for its URI, or the empty response where no authentication is needed |
| `Foreground.PrintsOnce` | cmd/root/root.go:98-146 | a client prints at most once, and exactly once unless it aborts, whatever became of its calls to the agent |
| `ForegroundRuns.UndisturbedClient` | cmd/root/root.go:98-146 | from every reachable state a client that nobody disturbs prints the cached response and asks nobody, or prints and stores what the registry gave |
| `OciAuth.Resolver.DeriveAuthConfig` | authenticate/oci/oci.go:407-495 | an authenticator with something to say decides; else each field is what the chain has for its own binding or what the docker entry says, with the configured method and a placeholder for the missing name of a found password |
| `OciAuth.DeriveMeans` | authenticate/oci/oci.go:407-495 | the derivation the laws below are about answers by these fields |
| `OciAuth.ChoiceIff` | authenticate/oci/oci.go:270-299 | when an exchange uses the registry token, the basic flow, the OAuth flow, or is refused |
| `OciAuth.LayerIsNoopIff` | authenticate/oci/oci.go:459-492 | when layering leaves a docker entry as it is |
| `OciAuth.SecondCallAgreesIff` | authenticate/oci/oci.go:447-454 | two calls agree exactly without a non-empty docker entry or when layering leaves it as it is |
| `OciAuth.SecondCallDiffersUnderAuto` | authenticate/oci/oci.go:587-595 | never for a found, non-empty entry under the default method |
| `OciAuth.EveryCall` | authenticate/oci/oci.go:407-495 | over any sequence of calls with any challenges and from any authenticators, which calls the authenticator decides, which ones layer and which return the bare docker entry |
| `OciAuth.LaterExchangeRefusedIff` | authenticate/oci/oci.go:270-299 | for any configured method and any earlier calls, exactly when an exchange is refused |
| `LookupChain.Chain.Find` | authenticate/internal/lookupchain/lookupchain.go:40-69 | by the entries as written: the first malformed or successful one decides, with the variable, the keyring secret, the static text or the token its fields name for the binding; else not found exactly when nothing failed |
| `LookupChain.SourceForMeans` | authenticate/internal/lookupchain/lookupchain.go:90-126 | which entries decode, and to which source |
| `LookupChain.AskMeans` | authenticate/internal/lookupchain/lookupchain.go:174-277 | what an entry answers, read off its fields |
| `LookupChain.FindMeans` | authenticate/internal/lookupchain/lookupchain.go:40-69 | the search the laws below are about answers by the entries as written |
| `LookupChain.FirstDecisiveDecides` | authenticate/internal/lookupchain/lookupchain.go:45-53 | the first undecodable or successful entry decides |
| `LookupChain.NotFoundIff` | authenticate/internal/lookupchain/lookupchain.go:54-68 | otherwise not found exactly when no source failed; else all failures in order |
| `LookupChain.LookupConcat` | authenticate/internal/lookupchain/lookupchain.go:40-69 | the answer of a concatenation from the answers of its parts |
| `LookupChain.IrrelevantEntriesDoNotMatter` | authenticate/internal/lookupchain/lookupchain.go:174-183 | decodable entries of other bindings can be inserted or deleted |
| `LookupChain.DefaultDecodesBack` | authenticate/internal/lookupchain/lookupchain.go:90-126 | a marshalled canonical source decodes back to itself |
| `LookupChain.Default` | authenticate/internal/lookupchain/lookupchain.go:436-462 | built-in chains decode back to their canonical sources |

## Left out

- Network, SDKs and token exchange bodies (`basicToken`, `oauthToken`, the challenge request, s3, gcs, gar, azstorage, github, Google credentials): foreign services; a registry's answer is an arbitrary response.
- `url.Parse`, JSON, base64 and `time.Parse`: URI components, a lossless codec and a partial expiry parser are taken as given; JSON field names are matched case-sensitively.
- The failures of a lookup are listed without the names of their sources, and how Google credentials turn a token type into a token is given.
- Strings: a string is a sequence of bytes. Multi-byte white space is not trimmed, ill-formed UTF-8 inside a quoted parameter is copied rather than replaced, and an escape such as `\u00e9` stands for one character.
- The context of `Serve` is never cancelled, as in the program itself.
- A request or reply that breaks off in the middle counts as lost; what a client prints always reaches standard output.
- `SocketCache.Prune`: it talks to standard input and output, not to the connection; prunes come from the schedule or a prune request.
- Abstract sockets (a path starting with `@`) and the Windows lock: the deployment model is about socket files and exclusive unix locks.
- Process identities are never reused in `Deployment`, and files are changed by agents only.
- Canonicalisation of a source updates the caller's value in place; the model returns the canonical value.
- `authForHost`: a function of the environment that yields an entry without exchange method, nothing, or an error.
- `locate`, installer, setup commands, logging, the fallback factory and Bazel rules: environment plumbing.
