# Verified model of the service's composition root

Dafny 4.11 models of the hardest behaviour of `go-rest-api-service-template`, and proofs of what that behaviour
promises. `dafny verify dfyconfig.toml` checks everything; nothing here runs the service.

## What is modelled

| modules | part of the service |
|---|---|
| `Mirrors` | N replicas, one stored value each mirrors in memory: fatal first load, reload ticker, change signals that may be lost, repeated or late, and reloads that overlap because nothing serialises them |
| `Denylist`, `RevokedAccessTokens` | the `revoked_tokens` table statement by statement, the background sweep, and the two in-memory sets (remote and local) every access token is looked up in |
| `ApiEndpoints`, `RecordOrder`, `Generator`, `SqlReader` | the migration-row generator: map walk, widths, sort, quoting, padding; and an independent reader of the SQL it prints (character string literals of section 5.3 of ISO/IEC 9075-2) |
| `ConfigLists`, `EnvFile`, `EnvRoundTrip`, `ConfigLayers` (over `Strings`, `Utf8`) | the identity-provider and key-file lists, the `.env` loader, and how flag, `.env` file and process environment combine |
| `Lifecycle`, `LifecycleRuns`, `Build`, `BuiltApps` | `Run`, `stopOnError`, concurrent `Shutdown` callers behind a `sync.Once`, the HTTP server's stop channel, and `AppBuilder.Build` with the Apps it returns |
| `Middleware`, `Chains`, `Reach` | `Chain`, every gate of the API, the two limiter stages with their exemptions, the chains `initHTTPServer` builds, and what a request must bring to get through each |

Where the source changes things step by step the model does too (`SliceIDPVar`, `Environment`, `Configs`,
`RevokedSet`, `RevokedTokens`, the generator's loops, the sweeper), each method proved against a function, and the
promises proved about that function. What is concurrent is a state machine over labelled steps, and the theorems
quantify over every run. Clocks, queries, UUIDs, JWT verification, authorization and the limiter are parameters: the
results hold for all of them.

## Where the code and its own words differ

The model follows the code; each of these is a lemma.

- A mirror's staleness is not bounded by the reload interval alone but by one interval and two query timeouts, and
  that bound is reached (`Mirrors.BoundIsReached`). `authn.go:94-101` and `tokenlifetimes.go` name the interval.
- A replica's own write can be undone by a reload that read the row before it (`Mirrors.OwnWriteCanBeUndone`);
  one further reload keeps a mirror fresh exactly when no outdated answer is in flight (`Mirrors.StaysFreshIff`).
- The check on the reload interval compares it with the shortest access token, not with that bound: what it is for
  follows when the query timeout fits in the margin too (`RevokedAccessTokens.RevokedWithinTheShortestLife`).
- "Every lookup already carries the same `expires_at > NOW()` predicate" (`revokedtokens.go:26-29`): `RevokeChain` does
  not. The sweep is unseen when each row carries its token's own expiry, rotations carry it over, and tokens are spent
  and chains revoked before it (`Denylist.OwnExpirySweepsUnseen`); the callers check that in a statement of its own, so
  the expiry can pass in between. Runs in which a sweep shows are in `Denylist.SweepsCanBeSeen` and
  `Denylist.AnEarlierSweepShows`, and `Denylist.SweepsUnseenIff` is the exact condition. For one revoked chain it can
  be told from the table and the run: all its rows live, or it is over and the token presented was the first of it to
  expire (`Denylist.LiveChainIff`, `Denylist.FirstToExpireIff`); only where an expired row was written over since does
  it take the tables that earlier sweeps would have left (`Denylist.ARewriteShows`).
- A refresh that races another on one token, or the revocation of its chain, hands out a successor that no walk
  reaches (`Denylist.RotationIsFollowedIff`).
- "(Path, Method) is unique per operation" (`main.go:203-204`) fails for a path whose methods are spelt both `get` and
  `GET`: the output then depends on the order of the map (`Generator.SpeltTwiceHasTwoOutputs`).
- "A failed first load is logged, not fatal" (`ratelimit.go:153-154`): it is fatal, and the model has it so.
- `DEBUG` in the environment is described as a shorthand for `log.level=debug`; only the flag is
  (`ConfigLayers.OnlyItsOwnField`, `ConfigLayers.DebugFlagIff`).
- A `Shutdown` that comes before `Run` has started the server does not prevent the start
  (`LifecycleRuns.ServesAfterTeardown`), and an order to stop sent before the server's goroutine waits for it is lost:
  ten seconds later the database is closed under a listening server (`LifecycleRuns.UnheardStopServesOn`).
- `stopOnError` and `Shutdown` both shut the telemetry down (`LifecycleRuns.TelemetryTwiceIff`), and `Shutdown` waits
  for pprof's clients without the time limit it gives the API server (`LifecycleRuns.HeldUntilProfileEnds`).
- A server that cannot bind stops itself and nothing else: `Run` waits on, serving nothing, until a signal or a
  `Shutdown` (`LifecycleRuns.BindFailureServesNothing`).
- `SkipDatabase` and `SkipTelemetry` never lead to an App: if no phase before fails, the seeded administrator's check
  queries a nil pool and the server reads a nil telemetry (`Build.BuiltHasBoth`). Such a panic does not go through
  `stopOnError`, so a telemetry that is there is not flushed (`Build.SkippedDatabasePanics`, `Build.FlushedIffFailed`).
- Requests refused for their body (413, 415) are charged to no limiter stage (`Chains.ChargedIff`).

## Model

| member | source | states |
|---|---|---|
| Mirrors.BoundedStaleness | internal/core/usecase/token_lifetimes_mirror.go:206-268 | in every run, whatever signals are lost, repeated or reordered and however reloads overlap, a serving replica answers from a valid value the store really held at one instant at most (failures + 1)(interval + timeout) + timeout ago |
| Mirrors.BoundIsReached | internal/config/authn.go:94-104 | for every interval and timeout some run with no failure and no lost message makes a mirror exactly that old, so no smaller bound, the interval included, holds |
| Mirrors.ApplyKeepsInv | internal/core/usecase/rate_limits_mirror.go:202-290 | every step of every replica keeps the invariant: every snapshot installed or in flight was the store's content at its instant, and the ticker is on time |
| Mirrors.ServingStays | internal/app/tokenlifetimes.go:94-144 | short of the replica stopping, no failed reload, signal or rejected answer unloads a loaded mirror |
| Mirrors.Converged | internal/app/tokenlifetimes.go:125-144 | once the last write is older than the bound, every serving replica's mirror is the store, whatever the message history was |
| Mirrors.StaysFreshIff | internal/app/ratelimit.go:301-324 | a mirror equal to the store stays equal through every run without a write if and only if no outdated answer is still in flight |
| Mirrors.OwnWriteCanBeUndone | internal/core/usecase/token_lifetimes.go:119-178 | a concrete run: a replica writes, reloads and serves its own value, and then serves the old one again |
| Mirrors.OnlyInstallsChange | internal/core/usecase/token_lifetimes_mirror.go:206-233 | only an answer that is installed changes what a replica serves: a failed, refused or unfinished reload keeps the last good copy, and loses no other answer |
| Mirrors.SignalFreshens | internal/app/tokenlifetimes.go:125-144 | another replica's announcement can bring the store's value here at once, with no tick between; the echo of one's own does nothing |
| Mirrors.WriteFreshens | internal/core/usecase/token_lifetimes.go:119-178 | a replica's own write can be served by it at once |
| Mirrors.AnnouncedStays | internal/app/ratelimit.go:301-324 | over every run a replica's announcement is there to be delivered, late or again, exactly when it was made, and none is delivered that was not |
| Mirrors.TimeCanPass | internal/core/usecase/token_lifetimes_mirror.go:213-268 | from every state that satisfies the invariant some run lets time pass, a refused answer being dropped as a failed reload, so no bound holds by stopping the clock |
| Denylist.TipIsQueried | internal/adapter/driven/repositorypg/revoked_tokens.go:334-357 | the walk along successors ends at exactly what the recursive query selects: the successor, itself without a row, of some row of the walk; a cycle ends it with none |
| Denylist.SweepsUnseenIff | internal/app/revokedtokens.go:21-33 | for every table and run of the repository's statements, sweeps placed anywhere change no answer and no row a lookup can return, if and only if no write but an expired one meets an expired row, no single-use token meets one, and no chain walk meets one unless it starts at one, comes to nothing and, whatever was swept before, has come to nothing |
| Denylist.ChainSafeIff | internal/adapter/driven/repositorypg/revoked_tokens.go:334-357 | that condition on a chain walk holds if and only if every table an earlier or present sweep can have left gives the walk the same tip |
| Denylist.LiveChainIff | internal/adapter/driven/repositorypg/revoked_tokens.go:334-357 | after a run sweeps are unseen in, and unless the presented token's row is expired and its chain over, revoking the chain keeps them unseen if and only if every row of the walk is live |
| Denylist.FirstToExpireIff | internal/adapter/driven/repositorypg/revoked_tokens.go:334-357 | where it is expired and over and no write met an expired row of the walk, they stay unseen if and only if at every moment of the run some row of the walk was expired only when the presented token's was |
| Denylist.ARewriteShows | internal/adapter/driven/repositorypg/revoked_tokens.go:157-197 | a run in which a rotation met the expired row: the presented token was the first to expire, and a sweep shows |
| Denylist.Simulation | internal/adapter/driven/repositorypg/revoked_tokens.go:380-402 | under those conditions every table that earlier sweeps can have left answers every further statement, chain walks included, as the table never swept |
| Denylist.ASweepShows | internal/adapter/driven/repositorypg/revoked_tokens.go:316-377 | at the first step that breaks them some placement of sweeps gives a different answer or row |
| Denylist.OwnExpirySweepsUnseen | internal/core/usecase/authn.go:970-1018 | with each token's own expiry on its row, carried over by rotations, and tokens spent and chains revoked before it, sweeping anywhere is unobservable: the chain of a live row is wholly live |
| Denylist.SweepsCanBeSeen | internal/app/revokedtokens.go:23-29 | three runs in which a sweep shows: a second revocation with a later expiry, a token consumed at its expiry, and, every row carrying the token's own, a chain revoked at its expiry |
| Denylist.AnEarlierSweepShows | internal/adapter/driven/repositorypg/revoked_tokens.go:334-357 | a run in which the sweep at the time of the walk would not show and an earlier one does, so no condition on that moment's table alone is enough |
| Denylist.RevokedIsNeverAccepted | internal/app/revokedtokens.go:21-33 | a token revoked, rotated or spent is never accepted again, through any statements, sweeps and passing of time |
| Denylist.RevokedChainIsOver | internal/adapter/driven/repositorypg/revoked_tokens.go:303-377 | after RevokeChain no token on the walk from the one presented, the unspent tip included, is ever accepted again, and the walk has no tip left |
| Denylist.RotationIsFollowedIff | internal/adapter/driven/repositorypg/revoked_tokens.go:157-197 | a rotation's successor is what the walk finds exactly when the token had no row; otherwise no walk from any token reaches it |
| Denylist.NilIsRefused | internal/adapter/driven/repositorypg/revoked_tokens.go:119-172 | a statement is refused for a nil id and for nothing else, and then changes nothing |
| Denylist.FoundIff | internal/adapter/driven/repositorypg/revoked_tokens.go:255-301 | a lookup finds a row before its expiry and not at it, and a reload lists the access tokens' among those |
| Denylist.FirstWordStays | internal/adapter/driven/repositorypg/revoked_tokens.go:119-253 | the first revocation, rotation or use of a token is what every lookup finds until its expiry, through any statements and sweeps: with its kind, its instant and its successor; an access token is in every reload's list, and spending it answers that it was spent |
| Denylist.SpentOnce | internal/adapter/driven/repositorypg/revoked_tokens.go:198-253 | of any attempts to spend a token before it expires the first is told it was first, exactly when the token had no row, and no later one is |
| Denylist.ChainRevocationTells | internal/adapter/driven/repositorypg/revoked_tokens.go:303-377 | the tip that RevokeChain answers with is found revoked outright from then until the expiry given |
| Denylist.SweepsConserve | internal/adapter/driven/repositorypg/revoked_tokens.go:380-402 | over any interleaving of racing sweeps, rows removed in total plus rows left equal rows at the start plus rows inserted |
| Denylist.RowsAreYoung | internal/app/revokedtokens.go:12-34 | if rows expire within `life` of insertion and a sweep succeeds every `every`, every row present was inserted within the last `life + every` |
| Denylist.RevokedTokens.DeleteExpired | internal/adapter/driven/repositorypg/revoked_tokens.go:380-402 | deletes exactly the expired rows and returns their number |
| Denylist.StartSweeper | internal/app/revokedtokens.go:35-89 | the loop at startup and on every tick until cancelled: the table is what everyone else's statements, interleaved with this loop's successful sweeps, leave; nothing is swept when the interval is not positive |
| Denylist.SweptAtEachWake | internal/app/revokedtokens.go:35-89 | right after each wake of the loop whose statement succeeds, the first at startup included, no expired row is left |
| Denylist.CancelEnds | internal/app/revokedtokens.go:67-89 | once cancelled the loop sweeps no more |
| Denylist.SweeperIsUnseen | internal/app/revokedtokens.go:21-33 | where everyone else's statements are safe, they all see what they would with no sweeper anywhere, however often this one ran or failed |
| RevokedAccessTokens.RevokedSet.constructor | internal/core/usecase/revoked_access_tokens.go:57-76 | both sets start empty |
| RevokedAccessTokens.RevokedSet.Contains | internal/core/usecase/revoked_access_tokens.go:192-206 | a token is revoked when either set holds it |
| RevokedAccessTokens.RevokedSet.Add | internal/core/usecase/revoked_access_tokens.go:215-231 | the local set gains the token, whatever it held; the remote set and the counters do not change |
| RevokedAccessTokens.RevokedSet.Reload | internal/core/usecase/revoked_access_tokens.go:233-261 | after an answer the set holds exactly what was answered and what this replica revoked that has not expired; a failure keeps both sets and counts |
| RevokedAccessTokens.RevokedSet.PruneLocal | internal/core/usecase/revoked_access_tokens.go:263-292 | only expired local entries go, and the map is kept when all are live |
| RevokedAccessTokens.LocalRevocationSurvives | internal/core/usecase/revoked_access_tokens.go:57-76 | on the revoking replica the token is refused at once and for ever, even if answers of queries older than the revocation land later |
| RevokedAccessTokens.RevokedEverywhere | internal/app/revokedaccesstokens.go:51-80 | in every run, a token whose revocation is older than the staleness bound is expired or held by the set that every serving replica consults, once loaded with the answer it mirrors and through later failures, logouts and passing of time |
| RevokedAccessTokens.RevokedWithinTheShortestLife | internal/config/authn.go:338-360 | under an interval the configuration accepts, with no failed reload and twice the query timeout below the margin, a revocation as old as the shortest access-token lifetime is honoured by the set every replica consults |
| RevokedAccessTokens.AcceptedIff | internal/config/authn.go:338-360 | a reload interval is accepted exactly when it is positive and every permitted access token, of two minutes or more, outlives it |
| ApiEndpoints.QuoteReads | cmd/apiendpoints/main.go:252-261 | a quoted text followed by anything but a quote reads back as itself, and the reader stops right after it |
| ApiEndpoints.QuoteInjective | cmd/apiendpoints/main.go:259-261 | different texts have different literals |
| ApiEndpoints.PrintThenParse | cmd/apiendpoints/main.go:219-249 | for any non-empty rows with any texts and any widths, an independent SQL reader gets exactly the raw values back, in order, one statement ended by one semicolon |
| ApiEndpoints.PrintInjective | cmd/apiendpoints/main.go:219-249 | under the same widths, different lists of rows print differently |
| RecordOrder.LeTransitive | cmd/apiendpoints/main.go:205-210 | the comparator orders records transitively |
| RecordOrder.CmpIsLexicographic | cmd/apiendpoints/main.go:205-210 | the comparison of two texts is the lexicographic one: decided where they part, an end coming first |
| RecordOrder.SortedIsUnique | cmd/apiendpoints/main.go:186-210 | a list of records without ties has exactly one sorted arrangement |
| RecordOrder.SortFunc | cmd/apiendpoints/main.go:205-210 | the result is sorted and a permutation |
| RecordOrder.QuotedOrderIff | cmd/apiendpoints/main.go:205-210 | comparing two quoted texts agrees with comparing the raw ones if and only if neither goes on, past the other's end, with a character below the apostrophe |
| RecordOrder.SortedRawly | cmd/apiendpoints/main.go:205-210 | rows whose paths and methods hold no character below the apostrophe come out in raw (path, method) order |
| Generator.CollectPath | cmd/apiendpoints/main.go:129-183 | walking one path's methods in any order records each endpoint that is not excluded once, with its own or a fresh id, and widens every column by it; a bad id stops it |
| Generator.Generate | cmd/apiendpoints/main.go:94-250 | the program panics exactly when some endpoint's id does not parse, and otherwise prints a sorted arrangement of all endpoints under the widest columns |
| Generator.SameText | cmd/apiendpoints/main.go:186-204 | any two walks of the maps give the same widths, records and text, given ids and no two rows tied |
| Generator.OneOutputIff | cmd/apiendpoints/main.go:138-204 | for every specification, the output is a function of it alone if and only if some id does not parse, so that it only ever panics, or every endpoint has its own id and no path has two different rows under one upper-cased method |
| Generator.MissingIdHasTwoOutputs | cmd/apiendpoints/main.go:138-140 | an endpoint without an id lets a specification with no bad one have two outputs, by two draws of version 7 UUIDs |
| Generator.DrawShows | cmd/apiendpoints/main.go:138-140 | every id drawn shows: no order of the maps and no arrangement of ties prints under one endpoint's other draw what another prints under the first |
| Generator.SpeltTwiceHasTwoOutputs | cmd/apiendpoints/main.go:203-204 | a specification with `get` and `GET` on one path, both with UUIDs for ids, has two different outputs, whatever else `uuid.Parse` and `unicode.ToUpper` do |
| Generator.OutputReadsBack | cmd/apiendpoints/main.go:110-250 | whatever is printed reads back as exactly the endpoints' rows, each once, in sorted order |
| Generator.OutputColumns | cmd/apiendpoints/main.go:129-183 | an SQL reader gets out of every output one row for each operation not left out, and no other: its id, parsed or drawn, its summary, its description, its method in upper case, its path and TRUE, in these columns |
| Generator.SkippedIff | cmd/apiendpoints/main.go:101-136 | left out is GET, however spelt, on one of eight paths, and nothing else |
| Generator.ColumnWidths | cmd/apiendpoints/main.go:113-172 | before the padding each column is as wide as its title or as the most bytes in it, whichever is more, the method counted as it is spelt |
| Utf8.RuneLenIsLeast | cmd/apiendpoints/main.go:148-166 | the bytes counted for a rune are the fewest that UTF-8 can hold it in |
| Generator.LineLengthIff | cmd/apiendpoints/main.go:148-181 | a row is never shorter than the columns, and exactly as wide if and only if each field's runes, apostrophes counted twice, fit its column |
| Generator.RowsLineUp | cmd/apiendpoints/main.go:212-249 | without apostrophes every printed row has the same length, although widths are bytes and padding counts runes |
| ConfigLists.SliceIDPVar.Set | internal/config/functions.go:172-202 | clears the receiver and leaves the entries of the pieces before the first bad one, and success exactly when there is none |
| ConfigLists.SliceIDPVar.String | internal/config/functions.go:147-169 | the entries with `#` between fields and `,` between entries |
| ConfigLists.RoundTripIff | internal/config/functions.go:147-202 | `Set(String(l))` gives `l` back if and only if `l` is not empty, every field is trimmed and without a comma, and only secrets hold a `#` |
| ConfigLists.SetNormalises | internal/config/functions.go:172-202 | after a successful `Set`, printing and setting again gives the same list |
| ConfigLists.SetSucceedsIff | internal/config/functions.go:172-202 | `Set` succeeds if and only if every comma-separated piece holds at least five `#` |
| ConfigLists.PartsInOrder | internal/config/functions.go:174-199 | the six parts of a piece go to the six fields in their order, each trimmed, the last one with all its `#` |
| ConfigLists.FailedSetKeepsPrefix | internal/config/functions.go:172-202 | a failed `Set` leaves exactly the parsed pieces before the first with fewer than five `#` |
| ConfigLists.AdditionalPublicKeyFilesList | internal/config/authn.go:423-436 | the trimmed pieces that are not blank, in order |
| ConfigLists.KeyFilesByPiece | internal/config/authn.go:423-436 | piece by piece: a blank one gives no path, any other itself trimmed |
| ConfigLists.KeyFilesRoundTripIff | internal/config/authn.go:423-436 | a list joined by commas comes back if and only if each path is trimmed, not empty and without a comma |
| Strings.TrimDropsEnds | internal/config/functions.go:187-199 | trimming takes off all that is to be cut at both ends and nothing else |
| EnvFile.Environment.constructor | internal/config/functions.go:318-321 | the environment the process was given |
| EnvFile.Environment.Setenv | internal/config/functions.go:368-373 | refuses an empty key, one with `=` or NUL, and a value with NUL; else only that key changes |
| EnvFile.Environment.SetEnvVarFromFile | internal/config/functions.go:318-383 | more than one file, one that cannot be opened, a line too long or a pair that cannot be set is an error, after the lines before it took effect |
| EnvFile.LinesAreCut | internal/config/functions.go:343-346 | a text is cut into exactly the lines it was written from, blank ones included, and whether or not the last one is ended; only an unended last line with nothing on it is none |
| EnvFile.LoadMeansLast | internal/config/functions.go:340-375 | a load succeeds exactly when no line stops it; then each key holds what its last assignment gave it and every other key is unchanged |
| EnvFile.LastPutIsLast | internal/config/functions.go:340-375 | that last assignment is a line that assigns the value, with no later line for the key |
| EnvFile.FailedLoadKeepsPrefix | internal/config/functions.go:370-380 | a failed load leaves the environment of the lines before the one that stopped it |
| EnvFile.AddsNothingIff | internal/config/functions.go:343-359 | a line can be added anywhere in any file with no effect if and only if it is within the scanner's limit and a comment or without `=` |
| EnvRoundTrip.PairLineIff | internal/config/functions.go:343-370 | the line `K="V"` assigns V to K if and only if K is trimmed, not empty, no comment, without `=` and NUL, V is trimmed, without outer quotes and NUL, and the line is short enough |
| EnvRoundTrip.BlankKeepsQuote | internal/config/functions.go:363-367 | quotes are cut before spaces, so a quote after a blank stays in the value |
| EnvRoundTrip.FileRestores | internal/config/functions.go:318-383 | writable pairs written as lines are restored over any environment, a later one of a key winning |
| EnvRoundTrip.EveryEndingRestores | internal/config/functions.go:318-383 | and so are pairs written with either line ending, the last line ended or not |
| EnvRoundTrip.FileRoundTripIff | internal/config/functions.go:318-383 | a list of pairs with distinct keys survives being written and loaded if and only if every pair is writable |
| ConfigLayers.Configs.constructor | internal/app/configs.go:78-85 | the fields as the command line left them |
| ConfigLayers.Configs.HandleSpecialFlags | internal/app/configs.go:297-357 | version wins over the others, help ends the load, and otherwise debug rewrites the log level and nothing else |
| ConfigLayers.Configs.ParseEnvVars | internal/app/configs.go:63-76 | every field becomes what GetEnv gives for its own name and value |
| ConfigLayers.Configs.LoadConfigs | internal/app/configs.go:78-98 | the order of the stages: flags, then the `.env` file, then the environment read over every field; an early end leaves the environment as far as it got |
| ConfigLayers.Layering | internal/config/functions.go:248-314 | a setting is the `.env` value if assigned there, else the process value if there, else the flag's; a value that does not parse gives the flag's and not the next layer's |
| ConfigLayers.ReadAs | internal/config/functions.go:248-314 | kind by kind what a variable's text is read as: a text as it is, a scalar by its parser, a provider list piece by piece if each has its five `#`; and what is not there or does not parse leaves the value there was |
| ConfigLayers.OnlyItsOwnField | internal/config/log.go:48-53 | a process variable changes no field but those of its name, and never whether the load succeeds |
| ConfigLayers.DebugFlagIff | internal/app/configs.go:351-354 | the level ends as `debug` exactly when the top layer that names it says so, or when none does and -debug was given without -version |
| Lifecycle.InvKept | internal/app/app.go:156-347 | every step of every interleaving keeps the invariant over Run, the once-guard, the body's progress, the server and the log |
| LifecycleRuns.ServingImpliesLoaded | internal/app/app.go:156-184 | in every reachable state the server is started, and so can listen, only after every enabled mirror completed its first load, in order |
| LifecycleRuns.LoadedByName | internal/app/app.go:163-181 | by name: the denylist is loaded first, then the rules, then the lifetimes, and all the process keeps before the server is started |
| LifecycleRuns.RunFailsIff | internal/app/app.go:219-231 | Run returns an error if and only if a first load failed and no cancellation came before that was judged, and a process whose load failed never starts its server |
| LifecycleRuns.TeardownOnceInOrder | internal/app/app.go:242-347 | whoever calls Shutdown, the body's steps are taken at most once, in order, the channel closed after all of them; no caller returns earlier |
| LifecycleRuns.TeardownByName | internal/app/app.go:242-347 | by name: what has been torn down is always the beginning of the list the source goes through, less what the process does not have, and all of it once a Shutdown returned |
| LifecycleRuns.TeardownDepends | internal/app/app.go:242-347 | the channel comes after everything, the telemetry after everything else, mail after the database, and the limiters, notifiers, subscriber, throttle and pprof between the wait for the server and the cache |
| LifecycleRuns.ShutdownNeedsBoth | internal/app/app.go:330-343 | in an App put together by hand, not by Build, a Shutdown returns only if it has a database and a telemetry |
| LifecycleRuns.DrainedBeforeClosed | internal/app/app.go:255-263 | past the wait, a server is still listening only if the ten seconds ran out |
| LifecycleRuns.CacheClosedBetween | internal/app/app.go:255-333 | the cache is closed only once the server is down or its ten seconds are over, and before the database |
| LifecycleRuns.StopHeardIff | internal/adapter/driving/http/server/http.go:115-165 | short of a bind failure, the server drains if and only if the order to stop found its goroutine receiving or already stopping; unheard, the wait always times out |
| LifecycleRuns.SpawnedFirstIff | internal/app/app.go:184-200 | the server is started before anything is torn down if and only if the body had not begun at that step |
| LifecycleRuns.TelemetryTwiceIff | internal/app/app.go:219-239 | the telemetry is shut down at most twice, and twice exactly when a failed load ended Run and a teardown got that far too |
| LifecycleRuns.EveryRunEnds | internal/app/app.go:156-201 | with n other callers of Shutdown and p profiles asked of pprof every run, under every schedule, is at most 3n + 2p + 32 steps |
| LifecycleRuns.RestsOnlyServingOrEnded | internal/app/app.go:188-200 | no deadlock: nothing can move only when Run has returned, while it waits with no stop asked for, or while pprof's Shutdown waits for a client, and but for that no caller is left inside Shutdown |
| LifecycleRuns.HeldUntilProfileEnds | internal/app/app.go:313-318 | once the body has called pprof's Shutdown it and every caller stay there until the client taking a profile is done, with no time limit |
| LifecycleRuns.NoProfileAfterwards | internal/app/app.go:313-318 | past that step no profile is being taken and none begins |
| LifecycleRuns.ServesAfterTeardown | internal/app/app.go:184-200 | a reachable state: Run has returned no error, everything is torn down, the server is listening |
| LifecycleRuns.UnheardStopServesOn | internal/adapter/driving/http/server/http.go:119-145 | the same state reached with no caller but Run, by a signal just after the start |
| LifecycleRuns.BindFailureServesNothing | internal/adapter/driving/http/server/http.go:85-113 | a reachable state at rest: the server could not bind and has stopped itself, Run waits on, and the wait of a later Shutdown would be over at once |
| LifecycleRuns.BindFailureIsFinal | internal/adapter/driving/http/server/http.go:85-113 | a server that could not bind never serves in any run |
| Build.Stop | internal/app/builder.go:148-154 | the phase's error is returned even when stopOnError returns none |
| Build.BuildApp | internal/app/builder.go:109-252 | Build returns an App exactly when no phase stops it; else the first that does decides between its error and its panic, and nothing later is run; after a skipped database or telemetry later phases meet a nil pointer |
| Build.BuiltByName | internal/app/builder.go:109-252 | by name: the phases a build that succeeds has gone through, in order, and which result was made, given or skipped |
| Build.FirstErrorIsReturned | internal/app/builder.go:109-252 | with nothing skipped and no panic, the build fails exactly when a phase it runs does, with the error of the first |
| Build.SkippedTelemetryEnds | internal/app/services.go:93-136 | where a build that skipped the telemetry ends, by what it was given instead: the repositories, services and handlers refuse it; mail, a cache and the server panic on it |
| Build.SkippedDatabaseEnds | internal/app/repositories.go:11-27 | one that skipped the database ends at the repositories with an error, or with repositories given in a panic |
| Build.BuiltHasBoth | internal/app/seededadmin.go:27-34 | an App that Build returns has a database and a telemetry: with the database skipped the build has stopped by the seeded administrator's check, with the telemetry skipped by the server |
| Build.SkippedDatabasePanics | internal/app/builder.go:184-188 | with the database skipped and repositories given, a build whose configs and telemetry did not fail panics, its telemetry unflushed |
| Build.FlushedIffFailed | internal/app/builder.go:148-154 | told from the verdict and the log alone: the telemetry is flushed exactly once when an error was returned and its phase had run or been given one, with one line that says why, and never after a panic or for an App |
| BuiltApps.BuiltAppHasBoth | internal/app/app.go:330-343 | so the database and the telemetry that the teardown uses without asking are there in every App that Build returns |
| BuiltApps.BuiltAppEndsOnlyDraining | internal/adapter/driving/http/server/http.go:147-165 | no step from any state brings the process of a built App with mail down, but the server's failure to drain |
| BuiltApps.BuiltAppServesAfterTeardown | internal/app/app.go:184-200 | every App that Build returns has a run that ends with everything torn down and the server listening |
| Middleware.Chain | internal/adapter/driving/http/middleware/middlewares.go:74-83 | the loop builds the handler in which the first element listed is outermost |
| Middleware.ChainServes | internal/adapter/driving/http/middleware/middlewares.go:74-83 | that nest of closures treats every request stage by stage in the order listed, exemption wrapper included |
| Middleware.CredentialsIff | internal/adapter/driving/http/middleware/middlewares.go:457-477 | a header is accepted exactly with the scheme Bearer, in any case, one space, and a token that is not blank, which is what follows it, trimmed |
| Middleware.BearerIff | internal/adapter/driving/http/middleware/middlewares.go:463-471 | the scheme is Bearer letter by letter, each in either case |
| Chains.ServeAPIIsExpected | internal/app/server.go:76-146 | for every request, wiring, limiter and state the whole nest behaves as the order written out: body, pre-auth limiter, preflight, route |
| Chains.InitHTTPServer | internal/app/server.go:76-283 | the common slice grown step by step, the seven chains and the mux, put together as closures, serve every request from every state as the order written out says |
| Chains.ExemptIsUncharged | internal/adapter/driving/http/middleware/ratelimit_exempt.go:84-127 | an exempt request touches neither stage and is answered as if rules were off |
| Chains.ChargedIff | internal/app/server.go:135-220 | exactly what a request is charged: a preflight before CORS can answer it, and post-auth if and only if pre-auth admitted it and every gate of a metered route passed it |
| Chains.ChargesAreBounded | internal/app/server.go:165-220 | over any sequence of requests the post-auth stage is never entered more often than the pre-auth stage admitted |
| Chains.RulesOffIsStripped | internal/app/ratelimit.go:227-235 | with rules off every chain is the one with rules on without its limiter stage, not with one that does nothing |
| Chains.RulesOffIsUncharged | internal/app/ratelimit.go:227-235 | with rules off, no request changes the limiter's state or charges |
| Chains.MeIsAccessIff | internal/app/server.go:170-211 | the access and /me chains treat a request alike from a state if and only if membership would not refuse it |
| Chains.NoProjectIsMe | internal/adapter/driving/http/middleware/project_membership.go:54-72 | the access and /me chains are the same for requests with no project id, or one that is not an id |
| Chains.AccessIsLogoutAnd | internal/app/server.go:170-199 | what the access chain lets through is exactly what the logout chain does that is not revoked, of an active account and of a member, and arrives as the same request |
| Chains.LogoutAdmitsMore | internal/app/server.go:170-199 | a request that reaches its handler through the access chain does so through logout's from the same state, charged alike |
| Chains.AccessPassesIff | internal/adapter/driving/http/middleware/middlewares.go:448-604 | a request passes the access chain's gates if and only if its token verifies and, where the denylist is kept, is not denied, and its account is active, granted the action (HEAD counting as GET) and a member of the project if there is one; a lookup that fails refuses, and a personal access token is not looked up in the denylist |
| Chains.RevokedReachesNothing | internal/adapter/driving/http/middleware/middlewares.go:530-567 | where the denylist is kept, a request with a denied access token to a route behind the access chain reaches neither its handler nor the post-auth limiter, whatever the rest of the wiring |
| Reach.ResetReachedIff | internal/app/server.go:226-229 | told from the request and the services alone: a password reset reaches its handler, as the same request with its claims, if and only if it is not refused ahead of its route, brings a token that verifies as and calls itself a password-reset one, and its account is granted the action |
| Reach.RefreshReachedIff | internal/app/server.go:215-220 | a refresh does if and only if the same holds with a refresh token, and the post-auth limiter lets it through |
| Reach.VerificationReachedIff | internal/app/server.go:231-238 | a verification does with a verification token alone, no grant being asked |
| Reach.LogoutReachedIff | internal/app/server.go:194-199 | a logout does with an access token, denied or not, of an account of any standing that is granted the action, past the post-auth limiter |
| Reach.AccessReachedIff | internal/app/server.go:165-181 | any other route does with an access token that is not denied, of an active account that is granted the action and is in the project if there is one, past the post-auth limiter |
| Reach.MeReachedIff | internal/app/server.go:205-211 | the /me routes do with the same less the membership |
| Reach.OpenReachedIff | internal/app/server.go:240-254 | an open route asks for nothing past what is asked of every request |
| Reach.AccessAnswered | internal/adapter/driving/http/middleware/middlewares.go:448-604 | the whole answer to a request behind the access chain, status and revocation code, by the first thing that is wrong with it, in the order of the source |

## Left out

- RecordOrder.SortFunc: does not model slices.SortFunc sorting in place, only that it yields some sorted permutation, with ties in any order; it works on a sequence.
- Generator.Generate: does not model decoding the JSON file, how UUIDs are drawn (any of version 7 may come, and two draws are not assumed to differ) or a failed write to standard output.
- Mirrors.BoundedStaleness: assumes one clock, a ticker that fires within its interval of the last attempt's end, and queries that end within their timeout; the skew between database and replicas is not modelled.
- Denylist.StartSweeper: does not model the ticker's own clock; when it wakes, and what reached the table since, are its input.
- ConfigLayers.Configs.LoadConfigs: stops before validation, which only ranges over the values read and may rewrite the log levels `ctrace` and `cfatal`.
- Build.BuildApp: takes a query on a nil pool to panic, as pgx does not check for one; `SkipMigrations`, which sets a field nothing reads, is left out.
- LifecycleRuns.DrainedBeforeClosed: does not model an established listener that fails to accept, only a bind or TLS set-up that fails.
- LifecycleRuns.TeardownOnceInOrder: takes which optional resources exist as fixed, although the pprof server's field is set by a goroutine of its own; the mail library is not part of this model, so a skipped mail service may or may not bring a start or a teardown down.
- Strings are sequences of Unicode scalar values, so files and headers that are not valid UTF-8 are not modelled.
- The rate-limit algorithms, their rules, buckets, shared store and fail modes: the limiter is an arbitrary function of its state.
- Denylist.SweepsUnseenIff: takes each statement as atomic and one clock for all, and leaves out the user a row names, which no statement selects by.
- The grace window in which a refresh is answered with the successor already handed out, and the login throttle.
- Access evaluation behind CheckAuthz, account and membership queries, and JWT verification: arbitrary functions.
- Response bodies and headers: the transport middlewares are stages that pass every request on.
- The mux: an arbitrary function from a request to its route and project id.
- File settings, which GetEnv opens while reading them, and the per-field range checks of each Validate.
- The memoised notification client and replica id, the connection pools, migrations, mail, health and telemetry pipelines.
- reconcileResourceUsage, which Run calls first and whose failures it ignores.
