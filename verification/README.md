# Verified model of the Reglet plugin SDK

This project models the guest side of the Reglet plugin SDK and proves properties of the model with Dafny 4.11.
`dafny verify dfyconfig.toml` checks all of it.

The core is the memory protocol between a WASM plugin and its host: a tracked allocator over linear memory, the
handles that cross the boundary, the exchanges built on them, and the wrapper that recovers panics. Around it are the
parts of the SDK whose behaviour takes induction to pin down: operation names, error classification, example
comparison, the service registry, context propagation and the risk report.

| file | what it models |
|---|---|
| `GoTypes.dfy` | the Go value types shared by the rest: 32- and 64-bit words, byte slices, functions that may panic |
| `PackedHandle.dfy` | packing and unpacking of handles, in the ABI package and in the bridge |
| `LinearMemory.dfy` | the allocator as a function on states: pin table, byte counter, limit, memory |
| `MemoryRuns.dfy` | runs of any memory operations: conservation, the limit, order of frees, the life of a handle |
| `MemoryManager.dfy` | the manager object, with its mutex and an array for memory, proved to do what `LinearMemory` says |
| `ConcurrentClients.dfy` | goroutines that send, read back and free buffers, interleaved byte by byte |
| `ConcurrentExchanges.dfy` | goroutines whose exchanges with the host interleave, the copies byte by byte |
| `HostExchange.dfy` | one call to a host that follows the protocol but is otherwise free, and what it can have done |
| `ExchangeSequences.dfy` | any sequence of adapter calls |
| `HostAdapters.dfy` | the exec, TCP, SMTP, DNS and HTTP adapters as sequences of calls on the manager |
| `ExportedCalls.dfy` | the log handler, `handleExportedCall` and `packEvidenceWithError` |
| `PluginLifecycle.dfy` | `_observe`, `_manifest`, and sessions of them |
| `SnakeCase.dfy` | operation names |
| `StructuredErrors.dfy` | `ToErrorDetail` and `Timeout` |
| `OutputMatch.dfy` | `deepEqual` and `verifyOutput` |
| `ServiceRegistry.dfy`, `PluginDefinition.dfy` | the registry as a function of its history, and the object that holds it |
| `WireContext.dfy` | contexts on the wire, and the context store |
| `RiskAnalysis.dfy` | the risk report |

## How to read it

- A Go function that may panic returns `Go<T>`, either `Ok` or `Panic`. A panic in `allocate` leaves the state as it was.
- The address of a new slice is chosen by the Go runtime, so it is a parameter (`base`). All that is assumed of it is
  `Placed`: an allocation that goes through does not overlap a pinned slice. A freed address can come back.
- The host is a list of acts on the guest's own exports plus the handle it returns. `Meets` says what the protocol asks
  of it: it frees only the request, its own buffers, or addresses nothing is pinned at; it writes only into its own
  buffers; and its reply names the one buffer it leaves behind. Whether and when it frees the request, and at which
  addresses its buffers land, is open. `SilentHostMeets` and `AdapterReadsWhatTheHostWrote` show hosts that do this.
- JSON, base64, the splitting of addresses, message texts and the rounding of integers to floats are function
  parameters. Where a result depends on them, the proof holds for every such function that meets what is stated where
  it is used: JSON of a result is never empty and the generic error record encodes (`IsEncoder`); converting
  an integer to a float never gives NaN (`Rounds`), and is exact up to 53 bits (`ExactUpTo53Bits`); base64 is undone by
  decoding it (`IsBase64`); lower-casing leaves no capital and is done after one application
  (`LowerCases`), and maps only the underscore to the underscore (`KeepsUnderscoresApart`).
- Objects that the code updates in place are classes, and their methods are proved against functions on the abstract
  state. The theorems about runs are then about those functions.

## Findings

These hold of the code as written, and are stated as lemmas.

- DNS and HTTP calls are balanced if and only if the host frees the request (`UndeferredExchangeLeavesTheRequest`);
  against a host that does not, each completed call keeps one more slice pinned until the limit stops the next one
  (`SequenceGrowsByLeaksOnly`).
- If the host frees a request that exec, TCP or SMTP frees as well, another goroutine may have been given its address
  in between, and the second free unpins that goroutine's buffer. Interleaved exchanges keep everyone's data, in every
  schedule, if and only if not both sides free the request (`ConcurrentExchangesAreSafeIff`); `SecondRequestIsLost` is
  the end of a schedule in which they do.
- Two different operation fields can get one operation name, for example `AB` and `Ab`, or `GoA` and `Go_a`;
  registration succeeds and the earlier operation can no longer be reached (`CollidingFieldsLoseAnOperation`). Two names
  collide exactly when they have the same letters up to case with the same number of underscores before each, those a
  boundary adds and those of the name's own counted together (`NamesCollideExactlyWhen`); every operation field of a
  struct can be looked up exactly when the fields that collide carry the same entry
  (`EveryFieldReachableIffCollidingFieldsAgree`).
- A plain wrapper at any depth between network errors and a timeout hides the timeout (`PlainWrapperHidesTimeout`),
  although plain wrapping around a structured error never changes its classification (`WrappingKeepsClassification`).
- A wire timeout above 9223372036854 ms wraps when it is turned into a duration, and can expire at once
  (`WireTimeoutIsFaithfulUpToTheCap`, `WireTimeoutPastTheCapExpiresAtOnce`).
- A value matches itself in `deepEqual` if and only if it holds no NaN (`ReflexiveIffNoNaN`).
- The clamp of the byte counter at zero never acts (`DeallocateEffect`), and the 64-bit addition in `allocate` never
  wraps (`TotalFitsMemory`).
- If the recovery report itself does not fit the limit, the recovery panics in turn; `PanicLeavesOnlyTheReport` says
  exactly when.

## Model

| member | source | states |
|---|---|---|
| `PackedHandle.PackPtrLen` | internal/abi/abi.go:241-247 | the shift-and-or word is `ptr * 2^32 + length`; panics exactly for a null pointer with a length |
| `PackedHandle.UnpackPtrLen` | internal/abi/abi.go:253-264 | the two halves recompose the word; panics exactly on the words below `2^32` other than 0 |
| `PackedHandle.BitOrIsBitwise` | internal/abi/abi.go:246 | the or used for packing is the bitwise one, at every bit |
| `PackedHandle.PackThenUnpack` | internal/abi/abi.go:241-264 | packing a valid pair does not panic and is undone by unpacking |
| `PackedHandle.UnpackThenPack` | internal/abi/abi.go:241-264 | a word that unpacks is the packing of what it unpacks to |
| `PackedHandle.BridgeAgreesWithAbi` | application/plugin/bridge.go:43-53 | for every word the bridge reads the region the ABI reads, and no data where the ABI panics |
| `PackedHandle.BridgeRoundTrip` | application/plugin/bridge.go:33-53 | every real region survives the bridge and is packed to the ABI's word |
| `PackedHandle.BridgeWords` | application/plugin/bridge.go:33-53 | the words the bridge produces are exactly 0 and those with both halves non-zero |
| `LinearMemory.SumIsCoverage` | internal/abi/abi.go:77-82 | for disjoint slices the sum of lengths is the number of pinned addresses |
| `LinearMemory.TotalFitsMemory` | internal/abi/abi.go:117-118 | the counter stays below `2^32`, so the 64-bit limit test never wraps |
| `MemoryRuns.AllocateEffect` | internal/abi/abi.go:109-134 | refused exactly when over the limit, then nothing changes; otherwise a new disjoint zeroed slice is pinned and the total is within the limit |
| `MemoryRuns.DeallocateEffect` | internal/abi/abi.go:144-161 | exactly the pinned bytes are given back, the clamp is idle, an untracked pointer changes nothing |
| `MemoryRuns.ConfigureEffect` | internal/abi/abi.go:66-100 | the last positive option is the new limit, without one the limit stays, and nothing else changes |
| `MemoryRuns.SentIsReadable` | internal/abi/abi.go:192-219 | the handle of sent data reads it back, and every other pinned slice keeps its bytes |
| `MemoryRuns.RunKeepsValid` | internal/abi/abi.go:93-174 | over every run the counter is the sum of pinned lengths, slices stay disjoint, the limit positive |
| `MemoryRuns.TotalWithinPeakLimit` | internal/abi/abi.go:93-134 | the total never exceeds the largest limit in force so far, even when the limit is lowered below use |
| `MemoryRuns.PeakLimitIsLargest` | internal/abi/abi.go:93-100 | the peak used in the bound is a limit in force at some point of the run, and none in force is larger |
| `MemoryRuns.FreeEachEffect` | internal/abi/abi.go:144-161 | a sequence of frees removes the set of its pointers, and the counter is the sum of the rest |
| `MemoryRuns.FreesInAnyOrderAgree` | internal/abi/abi.go:136-161 | order, repetition and the sizes passed make no difference |
| `MemoryRuns.HandleReadsBackItsData` | internal/abi/abi.go:185-219 | sent data is read back after any run that does not free or write its own slice |
| `MemoryRuns.ReadingAnyWord` | internal/abi/abi.go:212-219 | for every word: a panic iff it has a length and no address, nil iff it has no length, otherwise the bytes at its high half |
| `MemoryRuns.FreeingAnyWord` | internal/abi/abi.go:227-232 | for every word: the slice at its high half is given back whole, whatever length the word has, and nothing without a length |
| `MemoryManager.Manager.Configure` | internal/abi/abi.go:93-100 | the last positive option is the limit, without one it stays, nothing else changes, and the mutex ends released |
| `MemoryManager.Manager.Allocate` | internal/abi/abi.go:109-134 | the whole new state and the result, with the mutex released on every path, the panic included |
| `MemoryManager.Manager.Deallocate` | internal/abi/abi.go:144-161 | the whole new state, and the mutex released |
| `MemoryManager.Manager.FreeAllTracked` | internal/abi/abi.go:168-174 | nothing tracked, counter zero, memory and limit unchanged |
| `MemoryManager.Manager.Stats` | internal/abi/abi.go:178-183 | the number of slices and the sum of their lengths |
| `MemoryManager.Manager.PtrFromBytes` | internal/abi/abi.go:192-203 | the whole new state, and the handle or the panic |
| `MemoryManager.Manager.ReadFromMemory` | internal/abi/abi.go:276-284 | the result is a fresh copy, so later changes to memory cannot reach it |
| `MemoryManager.Manager.BytesFromPtr` | internal/abi/abi.go:212-219 | nil, a panic, or a fresh copy of the named bytes |
| `MemoryManager.Manager.DeallocatePacked` | internal/abi/abi.go:227-232 | the whole new state; a null or empty handle does nothing |
| `ConcurrentClients.EveryClientReadsItsOwnData` | internal/abi/abi.go:109-232 | in any interleaving, a client that finishes has read exactly its own data |
| `ConcurrentClients.LiveBuffersAreDisjoint` | internal/abi/abi.go:109-134 | at every moment the slices of clients under way do not overlap |
| `ConcurrentClients.NothingLeaksOnceAllAreDone` | internal/abi/abi.go:109-232 | when none is under way, tracking and earlier slices are as at the start |
| `ConcurrentClients.HoldersFinish` | internal/abi/abi.go:109-232 | a client that holds a slice can always move, and each move uses up one of finitely many |
| `ConcurrentClients.EveryClientCanFinish` | internal/abi/abi.go:109-232 | from any point of any schedule, a client under way, or one whose data fits, can go on to finish with its own data |
| `ConcurrentExchanges.ExchangesStayIntact` | infrastructure/wasm/exec_adapter.go:43-54 | with any number of clients of any kind, if no host frees a request its adapter frees too, each host sees exactly its request and each guest gets exactly its reply, at every moment of every schedule |
| `ConcurrentExchanges.ConcurrentExchangesAreSafeIff` | infrastructure/wasm/exec_adapter.go:43-54 | for an adapter that frees its requests or not, and a host that does or not: every schedule from every memory is intact iff not both do |
| `ConcurrentExchanges.SecondRequestIsLost` | internal/abi/abi.go:144-161 | a schedule of three clients in which a second free unpins another client's request, a third is given its address, and a host reads 0 where 3 was sent |
| `ConcurrentExchanges.OnlyUnfreedRequestsRemain` | infrastructure/wasm/dns_adapter.go:123-128 | when all are done, what is tracked beside the untouched earlier slices is exactly the requests that neither side frees |
| `HostExchange.HostEffect` | internal/abi/README.md:171-197 | whatever a protocol-following host does, earlier slices are untouched, all it leaves pinned is its own, and the request is gone iff it freed it |
| `HostExchange.DeferredExchangeIsBalanced` | infrastructure/wasm/exec_adapter.go:43-72 | exec, TCP and SMTP leave tracking as it was on every path, reuse of the request's address included |
| `HostExchange.UndeferredExchangeLeavesTheRequest` | infrastructure/wasm/dns_adapter.go:123-128 | DNS and HTTP are balanced iff the host freed the request; otherwise exactly the request stays |
| `HostExchange.SilentHostMeets` | internal/abi/README.md:171-197 | a host that does nothing and returns nothing follows the protocol, and gives a nil reply |
| `HostExchange.ReplyFollowsItsHandle` | internal/abi/abi.go:212-219 | the reply is a panic iff the request is refused or the host's handle is corrupt, and nil iff the handle has no length |
| `HostExchange.AdapterReadsWhatTheHostWrote` | internal/abi/README.md:171-197 | the copied reply is the host's, whoever freed the request and wherever the reply was placed |
| `ExchangeSequences.SequenceGrowsByLeaksOnly` | infrastructure/wasm/http_adapter.go:70-72 | over any sequence, the pin table becomes the earlier one plus exactly the leaked requests at their addresses, earlier slices keep their bytes, and slices and bytes grow by that count and sum, within the limit |
| `ExchangeSequences.FreeingHostsKeepTheBalance` | infrastructure/wasm/http_adapter.go:70-72 | with hosts that free requests, any sequence leaves tracking as it was |
| `ExchangeSequences.NeverFreeingHostLeaksEveryRequest` | infrastructure/wasm/dns_adapter.go:123-128 | `n` calls to a host that never frees leave `n` more slices, the request of each call still pinned at its address |
| `HostAdapters.ExecRun` | infrastructure/wasm/exec_adapter.go:28-73 | the deferred frees keep tracking on every return path; the outcome is that of the host's reply |
| `HostAdapters.Dial` | infrastructure/wasm/smtp_adapter.go:29-70 | the same for the SMTP exchange, which unmarshals a nil reply |
| `HostAdapters.DialSecure` | infrastructure/wasm/tcp_adapter.go:40-79 | the same for TCP, with a bad address rejected before memory is touched |
| `HostAdapters.RepliesArePassedOn` | infrastructure/wasm/exec_adapter.go:48-72 | end to end, a reply the host wrote gives exec and dialling its response, or its error in the form of each, or an unmarshalling failure |
| `HostAdapters.NoReply` | infrastructure/wasm/exec_adapter.go:48-52 | a refused request or a corrupt reply panics; a null reply is an error of its own to exec and is unmarshalled when dialling |
| `HostAdapters.Lookup` | infrastructure/wasm/dns_adapter.go:106-140 | the state after the reply is freed, and the outcome decoded from the private copy, MX records included |
| `HostAdapters.AnswersArePassedOn` | infrastructure/wasm/dns_adapter.go:123-140 | end to end, a reply the host wrote gives a DNS query its answer or its error |
| `HostAdapters.LookupHost` | infrastructure/wasm/dns_adapter.go:42-56 | A then AAAA, stopping at the first failure, records concatenated |
| `HostAdapters.LookupHostLeaksBothRequests` | infrastructure/wasm/dns_adapter.go:42-56 | two slices stay pinned per call when the host frees neither request |
| `HostAdapters.HttpDo` | infrastructure/wasm/http_adapter.go:42-102 | the state after the reply is freed; and of the outcome: too large iff truncated, undecodable iff base64 rejects the body, otherwise status, headers, protocol and decoded body |
| `HostAdapters.HttpRoundTrip` | infrastructure/wasm/http_adapter.go:69-102 | end to end, the response the host wrote arrives with status, headers, protocol and body, unless it was cut off |
| `ExportedCalls.Handle` | log/handler_wasm.go:23-48 | the whole new state of a log call; it panics exactly when its buffer is refused |
| `ExportedCalls.LogEffect` | log/handler_wasm.go:23-48 | a log call adds its buffer if the host kept it, and nothing else |
| `ExportedCalls.PackEvidence` | application/plugin/plugin.go:123-132 | the whole new state and handle, with the fallback record when encoding fails |
| `ExportedCalls.HandleExportedCall` | application/plugin/plugin.go:79-119 | the wrapper with its recovery is the recovered attempt, panics of its own allocations included |
| `ExportedCalls.PanicLeavesOnlyTheReport` | application/plugin/plugin.go:81-94 | after any panic only kept log buffers and the result are tracked, the counter is their sum and the handle reads the evidence, iff the report fits |
| `ExportedCalls.ErrorAddsItsReport` | application/plugin/plugin.go:97-117 | a call that returns an error, or a result that does not marshal, keeps what the plugin left tracked and adds its report, iff that fits |
| `ExportedCalls.PanicCanBeReported` | application/plugin/plugin.go:81-94 | a panic whose evidence fits the limit and memory is reported, even if it cannot be logged |
| `ExportedCalls.CompletedCallReturnsItsPayload` | application/plugin/plugin.go:79-119 | every completed call returns a handle to its data, its error evidence or its panic evidence |
| `PluginLifecycle.PluginModule.Observe` | application/plugin/plugin.go:42-74 | runs the check on the stored context and passed configuration, resets the context however it ends, returns a timestamped result |
| `PluginLifecycle.StampedCallReturnsStampedResult` | application/plugin/plugin.go:68-103 | whatever the check returned, a completed call hands back an encoded result whose time is set |
| `PluginLifecycle.PluginModule.GetManifest` | application/plugin/plugin.go:24-39 | the manifest call on the stored context, whatever memory operations the plugin makes and however it ends; a nil manifest panics and is recovered, and the SDK version is filled in |
| `PluginLifecycle.ManifestIsReturned` | application/plugin/plugin.go:24-39 | a manifest that encodes and fits is what the handle reads back, with the SDK's version in place of the plugin's |
| `PluginLifecycle.ManifestEnds` | application/plugin/plugin.go:24-39 | no manifest is a panic; an error, or a manifest that does not encode, is reported as an error |
| `PluginLifecycle.EvidenceIsReturned` | application/plugin/plugin.go:60-73 | evidence that encodes and fits is what the host reads, with its own time or else the clock's, and what the check left tracked stays |
| `PluginLifecycle.FailureIsReturned` | application/plugin/plugin.go:60-73 | a check's error is no error of the call: the failure made from it is read back, timed, and what the check left tracked stays |
| `PluginLifecycle.ObservationEnds` | application/plugin/plugin.go:42-94 | a corrupt configuration, a nil result and a panic of the check each end in the panic's own record, or the generic one |
| `PluginLifecycle.UnencodableResultIsReported` | application/plugin/plugin.go:103-117 | a result that does not encode ends in the error report, beside what the check left tracked |
| `PluginLifecycle.UnregisteredIsReported` | application/plugin/plugin.go:24-47 | without a plugin both calls end in the same error report |
| `PluginLifecycle.Session` | application/plugin/plugin.go:24-74 | over any sequence of calls and of host allocations, frees and writes between them, the stored context is background at each boundary, and memory and results are those of the requests in turn |
| `PluginLifecycle.EveryObservationIsStamped` | application/plugin/plugin.go:42-119 | in every such session, each observation that completes gives the host a timestamped result, readable when the call returns |
| `PluginLifecycle.ConfigurationArrives` | application/plugin/plugin.go:49-60 | a configuration the host allocates, writes and passes is what the check is run on, byte for byte, with the stored context |
| `PluginLifecycle.ConfigurationWithoutBytes` | application/plugin/plugin.go:49-50 | a configuration without a length is empty wherever it points, and one without an address is corrupt |
| `SnakeCase.TwoPassesAreOneScan` | application/plugin/service.go:322-331 | for every string, the two regular-expression passes insert exactly the underscores of the one-scan rule |
| `SnakeCase.PassesFrom` | application/plugin/service.go:322-331 | a boundary the first pass skips by non-overlap is inserted by the second, once |
| `SnakeCase.SnakeCaseIsOneScan` | application/plugin/service.go:328-332 | the whole function: the one scan, lowered |
| `SnakeCase.CharacterClasses` | application/plugin/service.go:322-326 | the classes of the regular expressions hold exactly the 26 capitals, the 26 small letters, and those with the ten digits |
| `SnakeCase.SnakeCaseIsIdempotent` | application/plugin/service.go:328-332 | an operation name is its own snake case |
| `SnakeCase.OnlyUnderscoresAreAdded` | application/plugin/service.go:328-331 | with underscores removed from both, the result of the two passes is the name |
| `SnakeCase.NamesCollideExactlyWhen` | application/plugin/service.go:328-332 | two names, with or without underscores, give one operation name iff they have the same letters up to case, with the same count of own underscores and boundaries before each and at the end |
| `SnakeCase.NamesCanCollide` | application/plugin/service.go:328-332 | `AB` and `Ab` both become `ab` |
| `SnakeCase.UnderscoreCollidesWithBoundary` | application/plugin/service.go:322-332 | `GoA` and `Go_a` get one operation name |
| `StructuredErrors.AsIsFirstInPreorder` | domain/errors/errors.go:31-41 | the error search finds the first match in pre-order |
| `StructuredErrors.FoundIffOccurs` | domain/errors/errors.go:31-41 | the search succeeds iff what it looks for is held, through the types' own fields, somewhere in the tree |
| `StructuredErrors.ClassificationFollowsPreorder` | domain/errors/errors.go:26-48 | nil iff nil; else the first ready-made detail, else the own detail of the first error that describes itself, of the SDK or not, else internal |
| `StructuredErrors.ReadyMadeIffOneIsHeld` | domain/errors/errors.go:31-36 | the detail returned is a ready-made one iff one is held somewhere in the tree |
| `StructuredErrors.DetailShowsThrough` | domain/errors/errors.go:64-325 | each of the eight SDK types that hold an error, and any other wrapper, is classified as that error if it has a ready-made detail |
| `StructuredErrors.KindAndCode` | domain/errors/errors.go:68-325 | without one, each SDK type has its own kind and code, over whatever structured error it holds; the network types are timeouts iff the error held directly is |
| `StructuredErrors.OthersDescribeThemselves` | domain/errors/errors.go:16-48 | types of other packages that describe themselves are taken at their word, and the rest are internal |
| `StructuredErrors.DecimalReadsBack` | domain/errors/errors.go:160 | the number in a code can be read back |
| `StructuredErrors.WrappingKeepsClassification` | domain/errors/errors.go:26-48 | plain wrapping any number of times keeps the classification of a structured tree |
| `StructuredErrors.JoiningKeepsClassification` | domain/errors/errors.go:26-36 | joining after errors without a detail keeps it too |
| `StructuredErrors.ReadyMadeDetailWins` | domain/errors/errors.go:31-41 | an SDK error keeps its own kind iff no ready-made detail is below it |
| `StructuredErrors.TimeoutIffChainReports` | domain/errors/errors.go:183-256 | a network error is a timeout iff directly held network errors lead to an error that reports one itself |
| `StructuredErrors.WhoReportsItself` | domain/errors/errors.go:89-91 | of the SDK's types only the timeout error reports one without asking |
| `StructuredErrors.ChainEndDecides` | domain/errors/errors.go:183-256 | where the chain of directly held network errors ends decides the answer, alone |
| `StructuredErrors.PlainWrapperHidesTimeout` | domain/errors/errors.go:183-188 | a chain of directly held network errors that ends in a plain wrapper is no timeout, whatever the wrapper holds |
| `StructuredErrors.TimeoutFlagMatchesKind` | domain/errors/errors.go:68-325 | in every SDK detail the flag is set iff the kind is "timeout", which is iff the chain reports one |
| `OutputMatch.ReflexiveIffNoNaN` | application/plugin/testing.go:126-164 | a value matches itself iff it holds no NaN |
| `OutputMatch.Transitive` | application/plugin/testing.go:126-164 | matching is transitive through arrays, subset-compared objects and number kinds |
| `OutputMatch.MatchIffAgreesEverywhere` | application/plugin/testing.go:126-164 | a value matches iff every place in the expected one is there in the actual one and the parts at it agree: lists of one length, objects, equal numbers, same scalars |
| `OutputMatch.NumbersMatchByValue` | application/plugin/testing.go:150-183 | numbers of any two of the five kinds match iff their float values are equal and not NaN |
| `OutputMatch.SmallIntegersMatchExactly` | application/plugin/testing.go:150-183 | up to 53 bits, integers of any kinds match iff equal, and match the float of their own value alone |
| `OutputMatch.MutualIffSameImage` | application/plugin/testing.go:126-181 | two values match both ways iff their float images are equal and hold no NaN |
| `OutputMatch.VerifyOutput` | application/plugin/testing.go:108-123 | no complaint iff the objects match; else each missing field as missing, each field that does not match with both its values, and nothing else, once each |
| `ServiceRegistry.FailureKeepsEarlierOperations` | application/plugin/service.go:60-95 | an error at operation `k` leaves exactly the operations before `k` registered |
| `ServiceRegistry.WiredUpIff` | application/plugin/service.go:61-84 | an operation is wired up iff its method exists and is a function of a context and the recorded input to the recorded output and an error |
| `ServiceRegistry.MissingTypePanics` | application/plugin/service.go:189-219 | a type never recorded panics, as soon as what precedes it in the method fits |
| `ServiceRegistry.LastRegistrationWins` | application/plugin/definition.go:127-173 | after any history a lookup gives the entry last registered under the name, or nothing |
| `ServiceRegistry.FirstDescriptionStays` | application/plugin/definition.go:137-145 | a service keeps its first description |
| `ServiceRegistry.HistoriesKeepInvariants` | application/plugin/service.go:189-219 | keys equal names, and typed handlers fit the types stored with them, over any interleaving of registrations |
| `ServiceRegistry.AllReachableIffNamesAgree` | application/plugin/definition.go:147-173 | on top of any registry, every registration of a list can be looked up iff equal names carry equal entries |
| `ServiceRegistry.EveryFieldReachableIffCollidingFieldsAgree` | application/plugin/service.go:37-95 | for a struct that registers without error, every operation field can be looked up under its snake-case name iff fields whose names collide carry the same entry |
| `ServiceRegistry.CollidingFieldsLoseAnOperation` | application/plugin/service.go:147-152 | fields `AB` and `Ab` register without error and only the second is reachable |
| `ServiceRegistry.OperationsFollowFields` | application/plugin/service.go:127-174 | the operations are good iff there is an operation field and every typed one is registered; then they follow the fields one for one, otherwise the problem is the first offending field's |
| `ServiceRegistry.FirstServiceFieldDecides` | application/plugin/service.go:98-112 | the first embedded service field decides name and description, or a missing name; none is an error |
| `ServiceRegistry.RegistersIff` | application/plugin/service.go:37-95 | a registration ends well iff the argument is a struct pointer with named metadata and an operation, all of them known and wired up |
| `ServiceRegistry.FieldsAreRegisteredAsTagged` | application/plugin/service.go:60-95 | each operation field is registered with its tag's description and method, and the types and examples recorded for it |
| `ServiceRegistry.NextServiceUsesLatestTypes` | application/plugin/op.go:67-85 | after any history, the types recorded last for a field are those the next service is registered with, and its last operation is found so |
| `PluginDefinition.ExtractServiceMetadata` | application/plugin/service.go:98-112 | the loop returns what the first embedded service field decides |
| `PluginDefinition.ExtractOperations` | application/plugin/service.go:127-174 | the loop collects every operation field in order, or the first problem |
| `PluginDefinition.OpRegistry.RegisterOp` | application/plugin/op.go:67-85 | the types of the field are replaced, and no others |
| `PluginDefinition.Definition.RegisterHandler` | application/plugin/definition.go:127-155 | the whole new registry |
| `PluginDefinition.Definition.GetHandler` | application/plugin/definition.go:158-173 | the handler of the entry looked up, if there is one |
| `PluginDefinition.Definition.RegisterService` | application/plugin/service.go:37-95 | the loop registers exactly the operations before the first failure, and the invariants stay |
| `PluginDefinition.Definition.Manifest` | application/plugin/definition.go:71-123 | every service is described, with each of its operations listed once |
| `PluginDefinition.ListedOnceIffFound` | application/plugin/definition.go:71-173 | an operation is listed, and once, iff it can be looked up |
| `PluginDefinition.ListedAsRegistered` | application/plugin/definition.go:76-102 | an operation is listed with its own name, description, input, output and examples |
| `WireContext.HopCombinesBothSides` | internal/wasmcontext/wasmcontext.go:70-135 | across a hop the earlier deadline wins, done iff either side is, a named sender keeps its id |
| `WireContext.ChainsOnlyTighten` | internal/wasmcontext/wasmcontext.go:70-135 | along any chain deadlines never increase, done stays done, a request id arrives |
| `WireContext.WireSaysWhatTheContextIs` | internal/wasmcontext/wasmcontext.go:70-100 | the wire carries the deadline, whether the context is over, and a string request id; no timeout once the deadline is past |
| `WireContext.TimeoutBracketsRemaining` | internal/wasmcontext/wasmcontext.go:74-81 | the wire milliseconds bracket the time to the deadline, are capped past some 292 years, and multiply back without overflow |
| `WireContext.WireTimeoutIsFaithfulUpToTheCap` | internal/wasmcontext/wasmcontext.go:109-135 | a bare wire timeout is converted faithfully iff it is at most 9223372036854 ms; then the earlier deadline wins, and cancellation and request id pass |
| `WireContext.WireWithoutTimeLimit` | internal/wasmcontext/wasmcontext.go:109-135 | without a deadline or a positive timeout the parent's deadline stays, and a nil parent is the background |
| `WireContext.WireTimeoutPastTheCapExpiresAtOnce` | internal/wasmcontext/wasmcontext.go:118-119 | one millisecond more and the context is done at once |
| `RiskAnalysis.Reporter.AddFactor` | domain/entities/risk.go:72-83 | the factor is appended and the level stays the highest of all factors |
| `RiskAnalysis.Analyze` | domain/entities/risk.go:62-134 | the factors of every rule in order, and their highest level |
| `RiskAnalysis.LevelIsHighestJustified` | domain/entities/risk.go:85-131 | the level reaches `l` iff some single rule justifies `l` |
| `RiskAnalysis.CriticalExactlyWhen` | domain/entities/risk.go:86-125 | critical iff a network rule lists `*` or `0.0.0.0`, or commands are granted |
| `RiskAnalysis.HighExactlyWhen` | domain/entities/risk.go:105-113 | high or above iff critical or a path can be written |
| `RiskAnalysis.MediumExactlyWhen` | domain/entities/risk.go:86-117 | medium or above iff high, or any network rule, or a path can be read |
| `RiskAnalysis.LowExactlyWhen` | domain/entities/risk.go:126-131 | low or above iff medium, or a variable can be read |
| `RiskAnalysis.FactorsBySection` | domain/entities/risk.go:85-131 | the factors are those of network rules, then file-system rules, then one for commands and one for variables |
| `RiskAnalysis.FactorsOfOneRule` | domain/entities/risk.go:86-117 | the factors of one network rule and of one file-system rule, writing before reading |
| `RiskAnalysis.NetworkFactorsConcat` | domain/entities/risk.go:86-104 | the same for network rules |
| `RiskAnalysis.FileSystemFactorsConcat` | domain/entities/risk.go:105-117 | the factors of rules follow the rules' order |
| `RiskAnalysis.LevelIsMonotone` | domain/entities/risk.go:62-134 | granting more never lowers the level |
| `RiskAnalysis.LevelDependsOnTheRules` | domain/entities/risk.go:62-134 | order and repetition of rules do not matter |
| `RiskAnalysis.LevelOfJoinIsMaximum` | domain/entities/risk.go:62-134 | the level of concatenated grants is the maximum of the two levels |

## Left out

- JSON, base64, schema generation, address splitting and message formatting: library code, taken as parameters.
- Out-of-memory in the Go runtime and traps on addresses outside memory: both end the module; handles are taken to lie in memory where they are read.
- Growth of linear memory: its size is fixed in the model.
- A host whose own call of `allocate` is refused: the panic has no recovery there and ends the module, so it is not a step.
- The DNS lookups of single record types, `Get`, `Post` and the two shorter dialling functions: each only passes one exchange on.
- The header loop of the HTTP adapter and the attribute loop of the log handler: they only build the request that is marshalled.
- The read and write locks of the registries and the context store: only the memory manager's mutex is modelled.
- Cancellation after a context has been re-created: contexts are compared at the time of the hop, with deadlines followed afterwards.
- The level filter of the log handler, which decides only whether a record is handled; it drops the debug record at the start of `_observe`.
- Methods of `ErrorDetail`, `Result` and `GrantSet` from the ABI module: their source is not part of this model; only the fields used appear, and whether an `ErrorDetail` reports a timeout is a parameter.
- Error types with their own `As` method, and typed nil pointers inside error values.
- Dynamic values that reflection does not find equal to themselves, such as functions: the kinds beside numbers, slices and maps are compared by equality.
- Input field names, output schemas and example encodings in the manifest: the types and examples they are made from are recorded instead.
- The bodies of registered handlers, and generated example tests beyond the comparison of outputs.
- The `net`, `exec`, `config`, `result` and `testing` packages: straight-line helpers.
- Non-ASCII names: the two passes see only ASCII letters and digits, as in the code; lower-casing is a parameter applied to each character.
