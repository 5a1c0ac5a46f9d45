# PoolX: verified models of its core algorithms

PoolX keeps a pool of proxy nodes and port profiles and compiles them into one
configuration for the Mihomo kernel; its zashboard client shows connections and their
history. This project models the parts with the most state, branching and arithmetic as
Dafny, proves each loop or mutating object equal to a specification function, and proves
the properties those parts exist for about the specification.

| Files | Part |
|---|---|
| `UniqueNames`, `MihomoRenderer`, `FinalConfig`, `Routing`, `RoutingProof`, `PreviewProof`, `NamesProof`, `Failures`, `Crashes` | the config compiler and the profile preview |
| `RateLimit`, `RateLimitProof`, `RedisCommands`, `RedisFlight`, `RedisOvershoot` | the sliding-log limiters, in memory and on Redis |
| `Versions`, `VersionOrder`, `SemVer`, `Releases`, `Hyphens`, `HyphensProof` | the updater's version order |
| `WorkerPool`, `WorkerPoolProof` | the node-test worker pool |
| `History`, `HistoryKeys`, `HistoryProof`, `Connections`, `ConnectionsProof`, `HistoryOfRuns` | connection history and the snapshot diff |
| `Migration`, `MigrationProof`, `MigrationSteps`, `Downgrades` | the schema migration scheduler |
| `Import`, `ImportProof`, `ImportChoice` | import preview and import |
| `RuntimeLog` | the runtime log buffer and its reader |
| `IpLabels`, `IpLabelsProof` | source-address labels and their cache |
| `Tags` | tag normalisation |
| `Workspace`, `WorkspaceProof`, `WorkspaceForm`, `WorkspaceRuns`, `WorkspacePreview`, `WorkspaceUnique` | saving, deleting and previewing port profiles, concurrently |
| `RuntimeOfSaved`, `RuntimeStart` | from the stored profiles to the runtime |
| `Outcomes`, `Sequences`, `Orders`, `GoText`, `JsMaps` | shared vocabulary: sequences, sorting, Go string functions, JavaScript's Map |

Run `dafny verify dfyconfig.toml`.

## How the code is modelled

- Code that updates a struct, a map or a `Map` is a class or a method with loops; its
  `ensures` equates the new state with a function of the old one. The lemmas speak of that
  function and of runs built from it. The worker pool is a state machine over its
  goroutines' steps; concurrent saves and imports are interleavings of their atomic parts.
- JSON, YAML, regular expressions, address parsing and network matching, the network
  itself and the clock are parameters: arbitrary deterministic functions or event fields.
  Where a result needs more (settings survive their column, SQL and Go lower-case alike),
  the lemma says so in its `requires`.
- Strings are sequences of Unicode scalar values. `GoText` writes out `TrimSpace`,
  `FieldsFunc`, `Split`, `Join`, `%d` and `Atoi` with its 64-bit range.
- A Go panic is an outcome of its own (`Crashed`), a JavaScript exception is `Throws`.

## What the proofs found

- **Two limiters, two clocks.** The in-memory limiter subtracts whole Unix seconds, the
  Redis one truncates elapsed time. They can disagree by less than a second;
  `LimitersAgreeIff` gives the exact condition and `LimitersCanDisagree` a run.
- **Window and expiration.** The comment at `server/internal/pkg/common/constants.go:92`
  asks for windows no longer than the key expiration. The sweeper tolerates one second
  more, and no more than that.
- **Whole seconds.** The in-memory bound counts Unix seconds. In real time it holds for
  intervals of `1000*(duration-1)+1` milliseconds and no longer ones
  (`MemoryRealTimeBound`, `RealTimeBoundIsSharp`).
- **A limit of zero** still lets the first request of a fresh key through in memory; on
  Redis every request then ends in a server error (`ZeroLimitDiffers`, `LimitersAgreeIff`).
- **Redis commands.** Requests that look at an empty list before one of them writes are
  all let through. With at most `k` allowed requests of a key in flight a window sees up to
  `limit + 2(k - 1)`, and no more (`FlightBound`, `FlightBoundIsSharp`): late writes leave a
  list longer than the limit with an old entry at its end, which lets a second wave pass.
- **git-describe shapes.** A pre-release whose identifiers look like `5.gabc` ranks above
  its own release, against section 11 of Semantic Versioning 2.0.0 (`BelowOwnReleaseIff`).
- **Hyphens** inside identifiers separate like dots (`ParseHyphenated`). A version with one
  is misordered against some version, except when its first hyphenated identifier opens
  with digits beyond the range of int, which the parser keeps as text (`OrderedRightIff`).
- **nil metadata.** Node metadata that decodes to nothing makes both renderers assign into
  a nil map. The compiler only decodes the first node it meets with a given id
  (`FragmentCrashesIff`, `RenderCrashesIff`, `NullMetadataCrashes`).
- **Failed initializer.** If it leaves rows behind, the next Apply takes the database for
  an initialised one and never completes the base (`BaseStaysWholeIff`, `TaintedForGood`).
- **Downgrades.** An older application that succeeds lowers the version row; the next
  migration committed is then one committed before. Nothing else makes one run twice
  (`AppliedOnceIff`).
- **Concurrent saves.** Names and mixed ports are checked before the transaction, without
  a lock, so two saves can bring the same to two profiles (`SideBySideCollide`);
  `ApartIffNeverOvertaken` says exactly when that happens.
- **Name check.** It compares the database's `lower` with Go's `ToLower`; names on which
  these differ can be stored twice (`NameCheckSoundIff`).
- **Order of nodes.** The preview keeps the chosen order, the runtime orders nodes by key:
  they agree exactly when the chosen ids ascend (`RuntimeServesSaved`).
- **Unknown nodes.** A chosen id that names no node is left out by the compiler and fails the
  preview. Starting and reloading store a preview of every enabled profile and so refuse,
  after storing the earlier ones; the status page counts the listeners as if all was well
  (`StartsIff`, `SnapshotsUpToFailure`).
- **Deleted nodes** leave every profile's choice. The saved profile then previews as its
  payload without them, and the payload as sent no longer previews (`SavedPreviewsAsSent`).
- **Include flag.** A profile created with the flag off is stored with it on: an insert
  takes the column default for a false value (`server/internal/model/port_profile.go:25`,
  `FlagStoredIff`).
- **load-balance.** The group builder tests the stored strategy text untrimmed in one of
  its two tests; after workspace normalisation the difference cannot arise.
- **Mixed address families.** Looking up an address throws exactly when nothing names or
  matches it and a network of the other family comes before every network covering it
  (`LookupThrowsIff`, `ForeignNetworkBars`).

## Model

| member | source | states |
|---|---|---|
| RoutingProof.RenderSucceedsIff | server/internal/pkg/runtimeconfig/mihomo_final.go:41-157 | Rendering succeeds exactly when the list is non-empty, every included profile has a node and readable settings, the first occurrence of every node id decodes to an object, and no two endpoints coincide. |
| RoutingProof.RoutingPreserved | server/internal/pkg/runtimeconfig/mihomo_final.go:41-157 | In every compiled config each host and port of an included profile leads, through listener, group name and proxy names, to the strategy that profile's settings describe and to its node metadata in its node order; every other endpoint leads nowhere. |
| RoutingProof.RouteExistsIff | server/internal/pkg/runtimeconfig/mihomo_final.go:41-157 | An endpoint leads somewhere exactly when an included profile has its port for one of the three protocols and its trimmed host, or the loopback address for a blank one. |
| RoutingProof.ConfigKeepsInput | server/internal/pkg/runtimeconfig/mihomo_final.go:124-157 | The config carries the LAN flag, controller and secret it was given and the trimmed mode, or rule. |
| NamesProof.ConfigNames | server/internal/pkg/runtimeconfig/mihomo_final.go:60-97 | Groups carry the names reserved in turn for the profiles' trimmed names, and proxies, one for the first node of each id in order, those reserved for the nodes' names. |
| Failures.RenderRefused | server/internal/pkg/runtimeconfig/mihomo_final.go:41-122 | The compiler refuses for the first thing wrong with the first included profile that is not in order: no nodes, unreadable settings, the first new node that cannot be decoded, or the first endpoint taken already. |
| RoutingProof.ExitsAreOwnNodes | server/internal/pkg/runtimeconfig/mihomo_final.go:77-95 | When equal ids carry equal metadata, as rows of one table do, exit k is the metadata of the profile's own node k, up to the name. |
| RoutingProof.NodesEmittedOnce | server/internal/pkg/runtimeconfig/mihomo_final.go:60-97 | One proxy per distinct node id however many profiles share it, one group per included profile, and names unique within each of the two namespaces. |
| RoutingProof.ViewsDescribeListeners | server/internal/pkg/runtimeconfig/mihomo_final.go:98-157 | The reported listeners are the configured ones, one each, with profile, protocol, host, port and group, ordered by port and then name. |
| RoutingProof.KeyInjective | server/internal/pkg/runtimeconfig/mihomo_final.go:98-103 | The collision key host:port determines both host and port, so only real collisions are rejected. |
| FinalConfig.RenderFinalMihomoConfig | server/internal/pkg/runtimeconfig/mihomo_final.go:41-157 | The nested loops over profiles, nodes and listeners, mutating their maps, compute the left-to-right fold the routing results are about, failures and the nil-map crash included. |
| UniqueNames.NameTable.Reserve | server/internal/pkg/runtimeconfig/mihomo_final.go:159-176 | The allocation loop terminates, by the used names still ahead, and returns a name and a table equal to the specification's. |
| UniqueNames.Reserved | server/internal/pkg/runtimeconfig/mihomo_final.go:159-176 | From any table the returned name was free, and the table gains exactly that name. |
| NamesProof.ReservedIs | server/internal/pkg/runtimeconfig/mihomo_final.go:159-176 | A free name is handed out as it is; a taken one with the least free number past the one last given, which is remembered. |
| NamesProof.NumberedInTurn | server/internal/pkg/runtimeconfig/mihomo_final.go:159-176 | Reserving one base name again and again numbers it 2, 3 and so on. |
| NamesProof.CandidateIs | server/internal/pkg/runtimeconfig/mihomo_final.go:159-185 | A name is the trimmed base with a dash for each of the six unsafe characters, nothing else changed, or poolx for a blank one. |
| UniqueNames.NextFree | server/internal/pkg/runtimeconfig/mihomo_final.go:168-175 | The number chosen is the first past the remembered index whose name is free. |
| UniqueNames.AheadShrinks | server/internal/pkg/runtimeconfig/mihomo_final.go:168-175 | The termination measure: stepping over a taken numbered name leaves strictly fewer taken names ahead, because decimal printing is injective. |
| UniqueNames.NamesPairwiseDistinct | server/internal/pkg/runtimeconfig/mihomo_final.go:159-176 | Over any sequence of reservations from any starting table no name is handed out twice and none was taken before. |
| UniqueNames.Candidate | server/internal/pkg/runtimeconfig/mihomo_final.go:159-185 | A sanitised candidate is never empty and holds none of the replaced characters. |
| MihomoRenderer.ListenersOpenThePorts | server/internal/pkg/runtimeconfig/mihomo_renderer.go:105-133 | A profile has exactly one listener for each protocol with a positive port, in the order mixed, socks, http, named after profile, protocol and port, on its trimmed host or loopback, with udp and the credentials as the settings say. |
| MihomoRenderer.BalancesIff | server/internal/pkg/runtimeconfig/mihomo_renderer.go:143-169 | A group lacks its balancing strategy although its type is load-balance exactly when the stored text differs from its trimmed form. |
| MihomoRenderer.GroupShape | server/internal/pkg/runtimeconfig/mihomo_renderer.go:143-187 | The built group is the one the settings' fields describe, and they leave no choice: type by the trimmed strategy text, address and interval or their defaults for every type but select, balancing mode and flags exactly when the stored text is load-balance. |
| MihomoRenderer.SettingsResolve | server/internal/pkg/runtimeconfig/mihomo_renderer.go:94-103 | A profile goes by its own settings, else by the defaults for a blank column, else by its decoded trimmed text. |
| MihomoRenderer.FragmentFields | server/internal/pkg/runtimeconfig/mihomo_renderer.go:26-92 | The fragment's own fields agree with profile, settings, group, listeners and rule. |
| Failures.FragmentRefused | server/internal/pkg/runtimeconfig/mihomo_renderer.go:26-92 | A preview is refused for an empty choice, else for the first node that cannot be decoded behind nodes that can, else for unreadable settings. |
| MihomoRenderer.RenderMihomoConfig | server/internal/pkg/runtimeconfig/mihomo_renderer.go:26-92 | The loop that decodes and renames the chosen nodes, then the settings, give the fragment or the first failure. |
| PreviewProof.FragmentIff | server/internal/pkg/runtimeconfig/mihomo_renderer.go:26-92 | The preview renders exactly when there is a node, every node's metadata decodes to an object and the settings parse; proxy k is then node k under its own name. |
| Crashes.FragmentCrashesIff | server/internal/pkg/runtimeconfig/mihomo_renderer.go:189-199 | The preview crashes exactly when some node decodes to nothing and every node before it decodes. |
| Crashes.RenderCrashesIff | server/internal/pkg/runtimeconfig/mihomo_final.go:41-97 | The compiler crashes exactly when some included profile has a node that is the first with its id and decodes to nothing, while all before it (nodes, settings, endpoints, in processing order) is in order. |
| Crashes.NullMetadataCrashes | server/internal/pkg/runtimeconfig/mihomo_final.go:77-95 | Metadata that is the JSON null, in one profile with one node, crashes both renderers. |
| PreviewProof.RenderersAgree | server/internal/pkg/runtimeconfig/mihomo_renderer.go:26-92 | The two renderers agree on a profile view: whenever the compiler accepts, every listener the fragment of an included view shows leads to the fragment's strategy and, in order, its proxies, up to names. |
| RuntimeOfSaved.BuildFinalRuntimeConfig | server/internal/service/runtime.go:392-434 | The loop that views every profile and keeps the enabled ones, the compiler, and, when snapshots are persisted, the loop that stores one preview per enabled profile until one fails, give the specified tables and config, failure or crash. |
| RuntimeOfSaved.EnabledAre | server/internal/service/runtime.go:392-405 | The compiler is given the views of the enabled profiles in the order listed, if all profiles can be viewed. |
| RuntimeOfSaved.CompilesIff | server/internal/service/runtime.go:392-424 | The stored profiles compile exactly when all can be viewed, some are enabled and the compiler accepts those; none enabled is an answer of its own; and the config carries the runtime's settings. |
| RuntimeOfSaved.ChosenPermutesFound | server/internal/service/port_profile.go:385-402 | The nodes resolved in chosen order and the nodes found by id are permutations of each other, equal in order exactly when the ids ascend. |
| RuntimeOfSaved.RuntimeServesSaved | server/internal/service/runtime.go:392-434 | Whenever the stored profiles compile, the listeners of an enabled one lead to its strategy and to those of its nodes that exist, in key order; it has a saved preview exactly when all of them exist, and the exits are then a permutation of the preview's proxies, in the same order exactly when the chosen ids ascend. |
| RuntimeOfSaved.RuntimeServesLastWritten | server/internal/service/runtime.go:392-434 | The same after any run of the workspace, for the payload last written for a profile without the nodes deleted since. |
| RuntimeStart.StartsIff | server/internal/service/runtime.go:392-434 | Starting and reloading succeed exactly when the stored profiles compile and every node an enabled one chooses exists, and otherwise fail for missing nodes if they compile; without snapshots, as for the status page, the answer is the compiler's and the tables stay. |
| RuntimeStart.SnapshotsUpToFailure | server/internal/service/runtime.go:425-431 | Exactly the enabled profiles before the first one whose preview fails have a new snapshot, of their own preview; that failure is the answer and nothing else changes. |
| RuntimeStart.StartedServes | server/internal/service/runtime.go:392-434 | After a start every enabled profile has its saved preview as its snapshot and is served as that preview shows. |
| RuntimeStart.StartsAfterRunIff | server/internal/service/runtime.go:392-434 | After any run of concurrent saves, node changes and deletions from an empty workspace, the runtime starts exactly when the profiles compile and what each enabled one was last saved with, without the nodes deleted since, exists. |
| RateLimit.InMemoryRateLimiter.Request | server/internal/pkg/utils/ratelimit/in_memory.go:45-67 | One request answers and updates its key's queue as the specification says, and touches no other key. |
| RateLimit.InMemoryRateLimiter.ClearExpiredItems | server/internal/pkg/utils/ratelimit/in_memory.go:28-43 | One pass of the sweeper keeps exactly the non-empty queues whose newest entry is within the expiration. |
| RateLimit.Redis.RateLimit | server/internal/middleware/rate-limit.go:17-61 | The list commands of one request, run without another request in between, give the answer and the list of the specification, and no other key changes. |
| RateLimitProof.MemoryRefinesLog | server/internal/pkg/utils/ratelimit/in_memory.go:28-67 | With sweeps at any moments, every decision is that of a log of all accepted requests: accept unless the max-th newest is too recent in whole seconds. |
| RateLimitProof.SweepsInvisible | server/internal/pkg/utils/ratelimit/in_memory.go:28-67 | For windows up to the expiration plus one second, removing all sweeps from a run changes no decision. |
| RateLimitProof.SweepsNeverShowIff | server/internal/pkg/utils/ratelimit/in_memory.go:28-67 | No sweep can be observed in any run exactly when the window is at most the expiration plus one second; beyond that a concrete run shows one. |
| RateLimitProof.MemoryWindowBound | server/internal/pkg/utils/ratelimit/in_memory.go:45-67 | Counted in whole Unix seconds, any half-open interval of duration seconds holds at most the limit (at least one) of accepted requests, sweeps included. |
| RateLimitProof.MemoryRealTimeBound | server/internal/pkg/utils/ratelimit/in_memory.go:45-67 | In real time the same holds for half-open intervals of 1000*(duration-1)+1 milliseconds. |
| RateLimitProof.RealTimeBoundIsSharp | server/internal/pkg/utils/ratelimit/in_memory.go:45-67 | One millisecond more and the bound fails: for every duration a run of two accepted requests under a limit of one. |
| RateLimitProof.RedisRefinesLog | server/internal/middleware/rate-limit.go:17-61 | The trimmed list with its refreshed deadline makes every decision of the same log, measured in truncated elapsed seconds. |
| RateLimitProof.RedisWindowBound | server/internal/middleware/rate-limit.go:17-61 | On Redis, requests being answered one at a time, any half-open interval of duration seconds, to the millisecond, holds at most the limit of accepted requests. |
| RedisCommands.UndisturbedIsRequest | server/internal/middleware/rate-limit.go:17-61 | A look at the list and the write its answer leads to, with no command on the key in between, are one request of the limiter. |
| RedisCommands.UndisturbedIsRun | server/internal/middleware/rate-limit.go:17-61 | Over any schedule of commands, other keys mixed in at will, a key whose requests each write before the next one looks is answered as by the limiter of whole requests. |
| RedisCommands.UndisturbedWindowBound | server/internal/middleware/rate-limit.go:17-61 | The window bound of whole requests holds of such schedules of commands. |
| RedisFlight.FlightBound | server/internal/middleware/rate-limit.go:17-61 | Over any schedule with never more than k allowed requests of a key between look and write, any half-open interval of duration seconds sees at most limit + 2(k - 1) of them let through. |
| RedisOvershoot.FlightBoundIsSharp | server/internal/middleware/rate-limit.go:17-61 | For every limit, k and duration below the lifetime of a key some schedule reaches that number. |
| RedisOvershoot.ConcurrentRequestsOvershoot | server/internal/middleware/rate-limit.go:17-61 | On an empty list any number of requests that look before the first of them writes are all let through at once, whatever the limit. |
| RateLimitProof.LimitersAgreeIff | server/internal/middleware/rate-limit.go:17-70 | The two limiters answer a run alike exactly when no request of the run has a limit of zero and none straddles: a full queue whose oldest entry is duration back in whole seconds but less in milliseconds. |
| RateLimitProof.LimitersAgreeOnWholeSeconds | server/internal/middleware/rate-limit.go:17-70 | They always agree when all requests fall on the same millisecond within their second. |
| RateLimitProof.LimitersCanDisagree | server/internal/middleware/rate-limit.go:17-70 | Two requests 59.001 seconds apart under a limit of one in sixty seconds: memory allows both, Redis refuses the second. |
| RateLimitProof.ZeroLimitDiffers | server/internal/middleware/rate-limit.go:17-70 | With a limit of zero memory accepts the first request of a key and Redis answers it with a server error. |
| Versions.ParseVersionInfo | server/internal/service/update.go:595-644 | The parsing loops compute the version record the order and SemVer results are about. |
| Versions.SplitPrereleaseIdentifiers | server/internal/service/update.go:661-673 | The filtering loop returns the trimmed, non-empty identifiers. |
| Versions.CompareVersionInfo | server/internal/service/update.go:675-772 | The branching comparison, with its padded number loop and its two identifier loops, equals the specification comparison. |
| VersionOrder.CompareIsTotalPreorder | server/internal/service/update.go:675-772 | On all version records the comparison answers -1, 0 or 1, is antisymmetric in sign and transitive, the git-describe and pre-release branches mixed freely. |
| VersionOrder.ZeroPaddingIrrelevant | server/internal/service/update.go:675-695 | Trailing zero numbers never change a comparison. |
| VersionOrder.NewerIsStrictOrder | server/internal/service/update.go:574-584 | Newer-than on strings is irreflexive, asymmetric and transitive, development builds included. |
| VersionOrder.UpgradesNeverCycle | server/internal/service/update.go:774-801 | Along any chain of binaries each ready to replace the one before, the last is newer than the first and never the same version. |
| Releases.NewerIffAbove | server/internal/service/update.go:574-772 | For any printed releases, pre-releases and git-describe builds with any number of dotted numbers, newer on the strings is above: by the numbers padded with zeros, then pre-releases by section 11 below the release and builds above it, by distance and then by their tails as text. |
| GoText.TrimSpaceIs | server/internal/service/update.go:595-611 | What trimming cuts off at either end is white space, and nothing is left exactly when there was nothing else. |
| GoText.AtoiSigned | server/internal/service/update.go:627-652 | Atoi reads a sign and refuses what does not fit in 64 bits; the most negative number fits. |
| Releases.WrittenIsRead | server/internal/service/update.go:595-659 | Parsing any of them gives back its numbers and its identifiers or its distance and tail. |
| Releases.SegmentReads | server/internal/service/update.go:606-632 | A segment counts by its leading digits, as zero without any, and makes the version unreadable when they exceed 64 bits. |
| Releases.SpaceIgnored | server/internal/service/update.go:595-599 | One leading v and the space around a version do not count. |
| Releases.WithoutVersion | server/internal/service/update.go:574-599 | A development build takes any release and no release takes it; nothing is newer or older than a build without a version. |
| Releases.ReadyIffAbove | server/internal/service/update.go:774-801 | An uploaded release is ready to replace the running one exactly when it is above it. |
| Releases.UnversionedTakesNothing | server/internal/service/update.go:774-806 | A server takes uploads exactly when its version is not blank and is not dev in any case. |
| SemVer.SemVerAgreement | server/internal/service/update.go:574-772 | On printed versions newer-than is exactly the precedence of section 11 of Semantic Versioning 2.0.0, with or without a leading v. |
| SemVer.ParsePrinted | server/internal/service/update.go:595-659 | Parsing a printed version gives back its numbers and identifiers, or its git-describe distance and tail. |
| SemVer.BelowOwnReleaseIff | server/internal/service/update.go:675-772 | A pre-release is older than its own release exactly when its identifiers are not git-describe shaped; section 11 always says older. |
| Hyphens.ParseHyphenated | server/internal/service/update.go:595-673 | Every printed legal version, hyphens anywhere, is read as its numbers and the non-empty pieces its identifiers split into at hyphens, or as a git-describe distance and tail when the pieces have that shape. |
| HyphensProof.OrderedRightIff | server/internal/service/update.go:574-772 | A legal version is ordered as section 11 says against every hyphen-free, not describe-shaped version exactly when it is not describe-shaped and has no hyphen, or its first hyphenated identifier opens with digits beyond the range of int. |
| HyphensProof.OrderedRightWithinInt | server/internal/service/update.go:574-772 | When no hyphenated identifier opens with such an overlong number, exactly when it is not describe-shaped and no identifier holds a hyphen. |
| HyphensProof.HyphenatedIdentifiersDiffer | server/internal/service/update.go:661-673 | 1.0.0-a.b and 1.0.0-a-b, which section 11 orders, are read alike. |
| WorkerPoolProof.PoolIsSafe | server/internal/service/proxy_node.go:222-253 | After any interleaving: unless finished some step is possible, no step panics, there are min(n, 8) workers, one for no node, at most as many tests are in flight, and tests begin in index order, each index at most once. |
| WorkerPoolProof.PoolTerminates | server/internal/service/proxy_node.go:222-253 | Every run is finite, with a bound linear in the number of nodes. |
| WorkerPoolProof.PoolIsComplete | server/internal/service/proxy_node.go:222-271 | A finished run began every index once; sorted result i is node i with the outcome of the test of index i; all of them are written exactly when every write succeeds. |
| WorkerPoolProof.MeasureDecreases | server/internal/service/proxy_node.go:222-253 | Every step lowers a non-negative measure. |
| WorkerPoolProof.RoomToReport | server/internal/service/proxy_node.go:230-250 | The result channel always has room for a finished test, so no worker blocks on it. |
| WorkerPool.Collect | server/internal/service/proxy_node.go:255-271 | Draining, sorting by index and persisting in order writes the items up to the first failing write and returns results only when all were written. |
| History.AggregateConnections | server/zashboard/src/store/connHistory.ts:56-99 | The loop over the connections, adding to rows of a Map in place, gives the aggregated list. |
| HistoryKeys.KeyIs | server/zashboard/src/store/connHistory.ts:62-81 | The key of a connection, read off its fields, and the only one: the source address; the host, else the sniffed host, else the address, as it is for an IP and by its last two labels for a name; the process, else the last part of its path, else a dash; the first chain or a dash. |
| History.MergeAggregatedData | server/zashboard/src/store/connHistory.ts:101-123 | The two loops give the merged list, history first. |
| History.AggregatedData.SaveType | server/zashboard/src/store/connHistory.ts:132-139 | The synchronous section of a save replaces one type's rows by the merge, and no other type's. |
| HistoryProof.AggregateTotals | server/zashboard/src/store/connHistory.ts:56-99 | Aggregation sums, per key as read off the fields, the downloads, uploads and number of its connections, one row per key. |
| HistoryProof.IncrementalEqualsOneShot | server/zashboard/src/store/connHistory.ts:56-123 | Merging the aggregates of two batches is the aggregate of their concatenation as an ordered list, with unique keys. |
| HistoryProof.SavesConserve | server/zashboard/src/store/connHistory.ts:125-144 | At every moment of every interleaving of saves, each type holds per key what it held before plus the totals of every batch that has passed it. |
| HistoryProof.AllSavesMerged | server/zashboard/src/store/connHistory.ts:125-144 | Once all calls are through, every type holds every batch, in whatever order the calls ran. |
| Connections.ConnectionStore.Watch | server/zashboard/src/store/connections.ts:50-95 | The watcher's loop, deleting from the old map and filling the new one, has the effect of the functional diff on every field; a pause updates only the totals. |
| ConnectionsProof.RunIsWatch | server/zashboard/src/store/connections.ts:50-95 | A run with pauses and empty messages is the run over the snapshots actually processed; the closed list is the last 500 connections handed over. |
| ConnectionsProof.MessageShows | server/zashboard/src/store/connections.ts:50-95 | After any run a message without a pause shows its connections in order, each against the reading before, closes what the old map held beyond them in the old order, keeps the last 500 closed, and hands them over when there are any. |
| ConnectionsProof.ObservedIs | server/zashboard/src/store/connections.ts:62-86 | A shown connection is the reported one with its speeds, and quic for udp on port 443 or with a sniffed host; nothing else changes. |
| ConnectionsProof.TotalsAreLatest | server/zashboard/src/store/connections.ts:50-58 | The totals are those of the latest message, pauses included, and the pause is the latest one set. |
| ConnectionsProof.HandedIsEndedLifetimes | server/zashboard/src/store/connections.ts:50-95 | For each id, the readings handed to history are the last readings of its ended lifetimes, in order: once per disappearance. |
| ConnectionsProof.BytesConserved | server/zashboard/src/store/connections.ts:50-95 | Bytes handed over plus bytes of the live connection equal the last readings of all lifetimes, downloads and uploads alike. |
| ConnectionsProof.SpeedsAddUp | server/zashboard/src/store/connections.ts:56-80 | Each lifetime's speeds sum to its last minus its first reading. |
| HistoryOfRuns.HistoryIsEndedLifetimes | server/zashboard/src/store/connections.ts:50-95 | After any run of messages and pauses and any interleaving of the saves it starts, every type holds per key what it held before plus the last readings of exactly the lifetimes that ended, read off the snapshots alone. |
| Migration.Scheduler.UpgradeSchema | server/internal/model/migrate/scheduler.go:98-119 | The version loop, committing step by step, has the effect of the specification on the database and stops at the first failure. |
| Migration.Scheduler.ApplyAll | server/internal/model/migrate/scheduler.go:56-86 | One Apply has the effect of the specification, whichever steps fail. |
| Migration.Store.Transaction | server/internal/model/migrate/scheduler.go:121-134 | Migration, validation and version row are committed together or not at all. |
| Migration.Scheduler.RegisterMigration | server/internal/model/migrate/scheduler.go:48-54 | Registration keeps targets as keys and the latest version an upper bound. |
| Migration.Scheduler.RegisterInitializer | server/internal/model/migrate/scheduler.go:40-46 | Registration keeps the latest version at or above the initial one. |
| MigrationProof.ApplyKeeps | server/internal/model/migrate/scheduler.go:56-134 | One Apply, failing anywhere and in any way, keeps a version row standing for exactly the migrations up to it, in order, and never undoes a committed one. |
| MigrationProof.MigrationsResume | server/internal/model/migrate/scheduler.go:56-134 | The same through any number of failed and repeated calls, whatever fails: what is committed stays, in increasing order, none twice. |
| MigrationProof.SuccessMeansLatest | server/internal/model/migrate/scheduler.go:56-119 | Every successful Apply ends at the latest version. |
| MigrationProof.ResumeSucceeds | server/internal/model/migrate/scheduler.go:56-134 | Once nothing fails any more and every target has a migration, the next Apply succeeds. |
| MigrationSteps.ApplyOkIff | server/internal/model/migrate/scheduler.go:56-134 | An Apply succeeds exactly when none of the steps it needs fails, validations included, and every migration it needs is registered. |
| MigrationSteps.ApplyCommitsChecked | server/internal/model/migrate/scheduler.go:98-134 | Whatever one Apply commits, in order from its version on, was migrated, validated and saved in three consecutive steps that went well. |
| MigrationSteps.FailedStepRollsBack | server/internal/model/migrate/scheduler.go:121-134 | When a needed migration fails to migrate, to validate or to save its version, the Apply fails and leaves what was applied and the version row as before that migration. |
| MigrationSteps.CommittedWasChecked | server/internal/model/migrate/scheduler.go:56-134 | Over any number of calls, failing anywhere, every committed target went well in all three steps in the call that committed it. |
| MigrationProof.GroundedIff | server/internal/model/migrate/scheduler.go:56-96 | One Apply leaves version row or data on an incomplete base exactly when the initializer is reached on an incomplete base, fails and leaves rows. |
| MigrationProof.BaseStaysWholeIff | server/internal/model/migrate/scheduler.go:56-96 | Through any number of calls the base is whole under every version row and all data exactly when none of them met such a failure. |
| MigrationProof.TaintedForGood | server/internal/model/migrate/scheduler.go:56-86 | From an incomplete base under data no number of later Apply calls completes it, and a successful one records the latest version on top of it. |
| MigrationProof.DowngradeForgets | server/internal/model/migrate/scheduler.go:98-104 | A version row above the application's latest is lowered to it, and then no longer covers what was applied. |
| MigrationProof.DowngradeRepeats | server/internal/model/migrate/scheduler.go:98-134 | Back under the newer application, the next successful Apply commits again every migration above the older one's latest version. |
| Downgrades.DowngradeHarmsIff | server/internal/model/migrate/scheduler.go:56-134 | With one other application in between, a successful Apply leaves no migration committed twice exactly unless that application was older than the version row and succeeded. |
| Downgrades.AppliedOnceIff | server/internal/model/migrate/scheduler.go:56-134 | Over any sequence of Apply calls by applications of any version, failing anywhere, no migration is committed twice exactly when no call commits one after another has lowered the version row. |
| Import.BuildPreviewNodes | server/internal/service/source_config.go:298-332 | The preview loop marks each node as new, repeated in the batch or present in the pool, keeps the first hundred marks and counts all. |
| ImportChoice.ScopesAre | server/internal/service/source_config.go:298-332 | A node is marked as repeated exactly when an earlier one has its fingerprint, else as present exactly when the pool has it. |
| ImportChoice.PreviewCounts | server/internal/service/source_config.go:298-332 | Importable are as many nodes as there are unknown fingerprints, the rest are duplicates, and the first hundred are marked. |
| Import.FilterParsedNodes | server/internal/service/source_config.go:342-364 | The selection by trimmed fingerprints; a list without a usable fingerprint selects everything. |
| ImportChoice.SelectedAre | server/internal/service/source_config.go:342-364 | The selection is exactly the nodes of the batch, in its order, whose fingerprint was asked for after trimming; all of them when nothing but blanks was asked for. |
| Import.PlanImport | server/internal/service/source_config.go:194-222 | The import loop picks the nodes to create and counts the others as skipped. |
| ImportChoice.FreshAre | server/internal/service/source_config.go:194-222 | Created are exactly the first nodes of each fingerprint that is not known, in order. |
| Import.Database.PersistImportedNodes | server/internal/service/source_config.go:277-296 | Rows and record are written together; a taken fingerprint rolls back both. |
| Import.Database.ImportSourceConfig | server/internal/service/source_config.go:175-241 | One import answers and changes pool and record as the specification says, every failure leaving them as they were. |
| ImportProof.FreshNodesAreNew | server/internal/service/source_config.go:194-222 | The nodes to create carry exactly the selected fingerprints that the pool lacks, each once. |
| ImportProof.NothingFreshIff | server/internal/service/source_config.go:194-222 | Nothing is left to create exactly when every selected fingerprint is known. |
| ImportProof.ImportAccounts | server/internal/service/source_config.go:175-241 | An undisturbed import of a non-empty selection succeeds, imported plus skipped is the selection, and the pool gains one row per new fingerprint and nothing else. |
| ImportChoice.ImportAddsChosen | server/internal/service/source_config.go:175-241 | An undisturbed import adds to the pool exactly the fingerprints of the batch that were asked for and missing, and is refused exactly when nothing asked for is in the batch. |
| ImportChoice.ImportRefusedIff | server/internal/service/source_config.go:175-184 | A missing record and one that cannot be parsed are refused, and a refused import changes nothing. |
| ImportProof.PreviewPredictsImport | server/internal/service/source_config.go:175-332 | On an unchanged pool importing everything imports the previewed importable count and skips the previewed duplicates. |
| ImportProof.ReimportAddsNothing | server/internal/service/source_config.go:175-241 | The same import again adds no row and skips the whole selection. |
| ImportProof.RefusedIffForestalled | server/internal/service/source_config.go:277-296 | A commit is refused exactly when one of its planned fingerprints was committed by another session after its own read and is still in the pool. |
| ImportProof.PoolStaysUnique | server/internal/service/source_config.go:175-296 | Under any interleaving of reads, commits and deletions by any number of imports the pool holds no fingerprint twice; a commit adds all its rows unless another session came first with one of its fingerprints, and then none. |
| ImportProof.UndisturbedCommitSucceeds | server/internal/service/source_config.go:175-296 | After any run, a commit right after its own read adds all its rows. |
| RuntimeLog.Registry.AppendLog | server/internal/service/runtime.go:497-512 | An entry gets the next number and the buffer keeps the last 400. |
| RuntimeLog.Registry.LogProcessExit | server/internal/service/runtime.go:514-533 | A process that ended with an error leaves one entry, any other none. |
| RuntimeLog.Registry.GetRuntimeLogs | server/internal/service/runtime.go:319-339 | The page is the first entries past the cursor, at most the clamped limit. |
| RuntimeLog.BufferAndPage | server/internal/service/runtime.go:319-339 | After any run the buffer is the last min(n, 400) entries, numbered consecutively, and a poll returns the stretch right after the cursor or from the oldest entry still there: as many entries as asked for, a hundred by default, three hundred at most. |
| RuntimeLog.ReaderStream | server/internal/service/runtime.go:319-339 | A polling reader receives a strictly increasing stream of true entries; it is without gaps exactly when no poll came after its cursor had fallen out of the buffer. |
| IpLabels.IpLabelStore.PreprocessSourceIPList | server/zashboard/src/helper/sourceip.ts:13-41 | A rebuild clears the cache and fills the three tables from the rows in scope, stopping where a pattern does not compile. |
| IpLabels.IpLabelStore.CacheResult | server/zashboard/src/helper/sourceip.ts:43-55 | The entry goes last; past 256 the oldest leaves. |
| IpLabels.IpLabelStore.GetIPLabelFromMap | server/zashboard/src/helper/sourceip.ts:62-96 | A lookup, cached or not, answers or throws as the tables do without a cache, and keeps the cache sound. |
| IpLabelsProof.TablesMeanTheRows | server/zashboard/src/helper/sourceip.ts:13-96 | The tables answer as the label rows read: first plain key naming the address (with the text of the last row of that key), then patterns, then networks, throwing at a network of the other family. |
| IpLabelsProof.CacheIsFirstInFirstOut | server/zashboard/src/helper/sourceip.ts:43-60 | Over every run the cache is sound, never above 256 entries, and exactly the newest admitted addresses, oldest first. |
| IpLabelsProof.LookupCaches | server/zashboard/src/helper/sourceip.ts:43-96 | A lookup that finds a label for a new address puts it last in the cache, the oldest making room past 256; any other leaves the cache as it is. |
| IpLabelsProof.CacheTransparent | server/zashboard/src/helper/sourceip.ts:13-96 | After any run of lookups and rebuilds the next answer is the one the latest label list calls for. |
| IpLabelsProof.AnswerSays | server/zashboard/src/helper/sourceip.ts:13-96 | After any run the answer is what the rows in force say, by position: the first plain row naming the address with the text of the last row of its key, else the first matching pattern, else the first network covering it or of the other family, which throws, else the address itself. |
| IpLabelsProof.EffectiveAre | server/zashboard/src/helper/sourceip.ts:13-41 | In force are exactly the rows without a scope or with the back end in it, before any of them whose pattern does not compile, in their order. |
| IpLabelsProof.LookupThrowsIff | server/zashboard/src/helper/sourceip.ts:62-96 | After any run a lookup of an address that parses throws exactly when no row names it, no pattern matches and a network of the other family comes before every covering one; a non-empty text that does not parse always throws. |
| IpLabelsProof.ForeignNetworkBars | server/zashboard/src/helper/sourceip.ts:62-96 | With fd00::/8 listed before 10.0.0.0/8, looking up 10.0.0.1 throws although the second row covers it. |
| Tags.NormalizeProxyNodeTags | server/internal/service/proxy_node.go:368-389 | The loop with its seen map returns the joined tag list, the early return for blank text included. |
| Tags.TagListIsFirstOccurrences | server/internal/service/proxy_node.go:372-387 | The list holds exactly the trimmed non-empty fields, none twice, in the order in which they first appear. |
| Tags.TagsAreCut | server/internal/service/proxy_node.go:372-387 | A text without comma, semicolon, either in full width, or line break is one tag, trimmed, or none when blank; each of the five cuts a text into what its two sides list. |
| Tags.NormalizedReadsBack | server/internal/service/proxy_node.go:368-389 | Splitting and trimming a normalised text gives back the list it was made from. |
| Tags.NormalizeIsIdempotent | server/internal/service/proxy_node.go:368-389 | Normalising a normalised text changes nothing. |
| Tags.NormalizeIsFaithful | server/internal/service/proxy_node.go:368-389 | Two texts normalise to the same text exactly when they list the same tags. |
| Workspace.NormalizePortProfilePayload | server/internal/service/port_profile.go:272-316 | The checks in their order, the deduplication and the port validation give the normal form or the first problem. |
| WorkspaceForm.NormalFields | server/internal/service/port_profile.go:272-316 | Every field of the normal form from the fields sent: trimmed names or defaults, the mixed port alone when there is one, mended settings, the flag, and the positive ids at their first occurrence. |
| WorkspaceForm.RefusedForIff | server/internal/service/port_profile.go:272-316 | A payload is refused exactly for the first thing wrong with it, in the order of the checks. |
| Workspace.DeduplicateNodeIDs | server/internal/service/port_profile.go:422-436 | The loop keeps the positive ids at their first occurrence. |
| Workspace.ValidatePortProfilePorts | server/internal/service/port_profile.go:358-383 | The map of seen ports reports the first invalid or clashing port. |
| Workspace.Store.ResolveSelectedNodes | server/internal/service/port_profile.go:385-402 | Comparing counts decides exactly whether all ids are known and none is repeated; the nodes then come in the chosen order and no entry is missing. |
| Workspace.Store.ReplacePortProfileNodes | server/internal/service/port_profile.go:404-420 | One profile's relations are replaced by the new ids in order; others stay. |
| Workspace.Store.UpdatePortProfile | server/internal/service/port_profile.go:95-131 | A save that nobody disturbs answers and changes the tables as the specification says, or leaves them alone. |
| WorkspaceForm.SaveSucceedsIff | server/internal/service/port_profile.go:95-131 | An undisturbed save succeeds exactly when the payload is acceptable, no other profile has its name or its mixed port, and the profile exists; it answers with the first of these missing and then changes nothing. |
| Workspace.Store.SaveTransaction | server/internal/service/port_profile.go:118-127 | The transaction of a save writes the row, replaces the relations and drops the runtime record. |
| WorkspaceForm.SaveTouches | server/internal/service/port_profile.go:118-127 | A save writes one profile's row and choice, drops its snapshot and touches nothing else. |
| WorkspaceForm.ProfileDeletionTouches | server/internal/service/port_profile.go:133-146 | Deleting a profile leaves no row, choice or snapshot of it and touches no other. |
| WorkspaceForm.NodeDeletionTouches | server/internal/service/proxy_node.go:108-123 | Deleting a node leaves neither the node nor any choice of it and touches nothing else. |
| Workspace.Store.DeletePortProfile | server/internal/service/port_profile.go:133-146 | A profile goes with its relations and its runtime record; ids that are not positive are refused. |
| Workspace.Store.DeleteProxyNode | server/internal/service/proxy_node.go:108-123 | A known node goes with every relation to it; other ids are refused and change nothing. |
| Workspace.Store.GetPortProfile | server/internal/service/port_profile.go:239-270 | The view reads the settings column and the relations in sort order. |
| WorkspaceForm.ViewIs | server/internal/service/port_profile.go:239-270 | A view shows the row with the settings of its column, the chosen ids by sort order, the nodes found for them and the snapshot; a missing row and unreadable settings are its only failures. |
| Workspace.Store.PreviewPortProfile | server/internal/service/port_profile.go:148-186 | The preview of a payload, failures and crash included. |
| WorkspaceForm.PreviewIs | server/internal/service/port_profile.go:148-186 | A preview shows the normal form as a profile of no id, its choice, those nodes and the fragment rendered of them. |
| Workspace.Store.PreviewSavedPortProfile | server/internal/service/port_profile.go:188-203 | The preview of a stored profile is the preview of the payload read back from it. |
| Workspace.Store.SaveRuntimePreview | server/internal/service/port_profile.go:205-223 | The snapshot of a profile becomes its saved preview, or stays and the preview's failure is the answer. |
| WorkspaceProof.AcceptedIff | server/internal/service/port_profile.go:272-316 | A payload is accepted exactly when its ports are in range and do not clash, a positive id is chosen, and enabled authentication has credentials. |
| WorkspaceProof.NormalizeCanonical | server/internal/service/port_profile.go:272-316 | Every normal form is canonical: trimmed non-empty names, sound ports, settings in their fixed vocabulary, distinct positive ids. |
| WorkspaceProof.FixedIffCanonical | server/internal/service/port_profile.go:272-316 | The payloads normalisation leaves alone are exactly the canonical ones. |
| WorkspaceProof.NormalizeIsIdempotent | server/internal/service/port_profile.go:272-316 | Normalising twice is normalising once, on every accepted payload. |
| WorkspaceProof.SaveThenPreview | server/internal/service/port_profile.go:95-203 | After a successful save the saved preview has the outcome of previewing what was sent: same content and node order, or same failure. |
| WorkspaceProof.NameCheckSoundIff | server/internal/service/port_profile.go:318-331 | The name check keeps names apart in every database exactly for the names that SQL and Go lower-case alike. |
| WorkspaceRuns.FlagStoredIff | server/internal/service/port_profile.go:62-131 | The include flag is stored as it was sent exactly when it is on or the row existed. |
| WorkspacePreview.SamePreviewIff | server/internal/service/port_profile.go:148-186 | Dropping deleted ids from a payload leaves its preview the same exactly when none of its ids was dropped or a remaining id is unknown, which fails both. |
| WorkspacePreview.SavedPreviewsAsSent | server/internal/service/port_profile.go:95-203 | After any run of concurrent saves, node changes and deletions, a profile previews as the payload last written for it without the nodes deleted since; as that very payload exactly when none of its ids was deleted or a remaining one is unknown; and a deleted profile not at all. |
| WorkspaceUnique.CommitKeepsApartIff | server/internal/service/port_profile.go:95-131 | One commit keeps mixed ports (names, where SQL and Go lower-case alike) apart exactly when no other profile was given the same after the save's own check. |
| WorkspaceUnique.ApartIffNeverOvertaken | server/internal/service/port_profile.go:62-131 | Throughout any run of concurrent saves and deletions no two profiles share a mixed port (or such a name) exactly when no commit was overtaken so. |
| WorkspaceUnique.SideBySideCollide | server/internal/service/port_profile.go:95-131 | Two saves that bring the same to two profiles, each passing its checks, both commit when the checks come first: it is then stored twice. |
| WorkspaceUnique.AloneIsUpdate | server/internal/service/port_profile.go:95-131 | Check and commit with nobody in between are the update of the service method. |
| WorkspaceUnique.SavesKeepUnique | server/internal/service/port_profile.go:318-347 | Saves one after another never bring two profiles to share a mixed port nor, where SQL and Go lower-case alike, a name. |

## Left out

- YAML, JSON, SHA-256, bcrypt and subscription conversion: configs are records before encoding; fingerprints and metadata are whatever the encoders give, and no fingerprint is claimed to be injective.
- HTTP handlers, sessions, OAuth, mail, GeoIP providers, GitHub fetching, processes and file replacement: input and output around the modelled cores.
- React and Vue components, settings, sorting and filtering of the connection table: presentation.
- Constant sections of the rendered configs (DNS, rules and fixed keys): they do not depend on the input.
- Disjointness of group names from proxy names: the compiler keeps two tables, so uniqueness is claimed within each.
- Wrap-around of the allocator's counter and of clock arithmetic at 64 bits, and invalid UTF-8: not reachable in practice.
- A negative request limit: creating the queue would panic, so limits are natural numbers.
- A clock that runs backwards, and local-time jumps in the timestamps the Redis list stores: runs have non-decreasing clocks.
- Expirations that are not whole seconds: the configured ones are.
- Order among log listeners with equal port and name: the compiler's sort is not stable, the modelled one is.
- Nil entries among selected nodes: the database returns none.
- IndexedDB writes and re-initialisation of the history when the back end changes: only the in-memory map is modelled.
- JavaScript numbers beyond 53 bits, and two rows sharing one mutable object: rows are values with integers.
- Database errors other than the modelled ones, and the audit columns of rows.
- The service method CreatePortProfile: runs create profiles through the same checks and transaction, an inserted row taking the column default for a false include flag.
- Primary keys given out twice: keys only grow, as with an auto-increment column; saving a row that was deleted meanwhile inserts it again under its key, as GORM's Save does.
- The paths and the fallback secret of buildFinalRuntimeConfig, and what starting does with the config it gets: files, processes and ports.
- Upgrade scheduling and its broadcast channels: exclusion checks and sets its flag under separate locks.
- Start and stop of the runtime against process exit: the final status depends on timing; only the log is modelled.
- RateLimitProof.RedisWindowBound: limits of at least one, as with a limit of zero the Redis limiter accepts nothing; each request is one step (RedisFlight takes them apart).
- RateLimit.Redis.RateLimit: the commands of one request run without another request in between.
- RedisFlight.FlightBound: a request's LLEN and LINDEX are one step, and so are its LPUSH, LTRIM and EXPIRE.
- Workspace.Store.UpdatePortProfile: nothing comes between its checks and its transaction; WorkspaceRuns splits them.
- RateLimitProof.LimitersAgreeIff: windows up to the expiration, as constants.go asks for, because longer ones outlive the list's deadline.
- SemVer.SemVerAgreement: no build metadata and numbers up to the 64-bit maximum, because the parser treats neither specially; git-describe shapes and hyphens have their own lemmas (BelowOwnReleaseIff, OrderedRightIff).
- ConnectionsProof.HandedIsEndedLifetimes: ids unique within each snapshot, as the kernel reports them.
- WorkspaceProof.SaveThenPreview: assumes that settings read back from their JSON column as they were written.
- WorkspacePreview.SavedPreviewsAsSent: the same assumption.
- RuntimeOfSaved.RuntimeServesSaved: the same assumption.
- RuntimeStart.StartsIff: the same assumption, and every row written by some save; StartsAfterRunIff needs only the former.
- WorkspaceUnique.ApartIffNeverOvertaken: for names, assumes that SQL and Go lower-case alike; NameCheckSoundIff is the exact condition for one name.
- WorkspaceUnique.SavesKeepUnique: the same assumption.
