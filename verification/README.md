# Verified model of the SPIFFE conformance test suite

A Dafny model of the suite's concurrent mock Workload API server, of the harnesses that consume its
streams, of the ephemeral certificate authority, and of the chain from a harness's answers to a
reported status and an exit code. `dafny verify dfyconfig.toml` checks all of it.

| File | What it models |
|---|---|
| `StreamProtocol.dfy`, `StreamTheorems.dfy` | streaming RPCs and writers as a transition system; the theorems about all its runs |
| `WorkloadServer.dfy`, `FaultLog.dfy` | the `Server` object updated in place; fault injection and the call log |
| `Der.dfy`, `X509Messages.dfy`, `Watchers.dfy`, `EndToEnd.dfy`, `Settling.dfy` | DER framing, responses, the two raw-stream consumers, and server, transport and consumer together: safety of all runs, and progress |
| `OnceCell.dfy`, `GoLazySource.dfy`, `PyLazySource.dfy`, `RustLazySource.dfy` | the lazy JWT sources and the specification all three refine |
| `CaForest.dfy`, `CaAliasing.dfy`, `CaKeys.dfy`, `Tokens.dfy` | trees of CAs with aliased key lists, certificate chains, token building |
| `Verdict.dfy`, `Tamper.dfy`, `Polling.dfy` | the JWT test cases against an arbitrary harness, and the polling loops |
| `ErrorTrees.dfy`, `Lifecycle.dfy`, `Runs.dfy` | status classification, set-up and tear-down, selection, report and exit status |
| `Readiness.dfy`, `TailBuffer.dfy`, `Text.dfy` | the readiness announcement, the stderr tail, string and number parsing |

## How to read it

A run is a list of actions; `Exec` (or `Run`) gives the state it leads to, or None if some action
cannot be taken there. Statements about all interleavings are lemmas over all such lists. Concurrency
is modelled at the granularity of the source's critical sections, channel operations and shared reads
and writes. A channel is a number, and closing one adds it to a set; `select` may take any ready case.
Fields called history variables record the past for the statements and decide nothing.

What cannot be seen is a parameter the results hold for all values of: the harness is any function of
the whole history and its process may exit at any moment, the clock any sequence with the 100 ms gaps
`time.After` guarantees, and the TLS stack, the Node parser of node-spiffe and the Go runtime's slice
growth are arbitrary.

## Where the code and its promises differ

- `CloseStreams` is documented to terminate every open stream (`internal/workloadapi/server.go:150-151`).
  A stream whose notify channel is closed too may take that case and capture a new kill channel.
  `StreamTheorems.SurvivesCloseStreams` gives the exact condition, `StreamTheorems.KillIsFinal` what
  holds otherwise, and `StreamTheorems.CloseStreamsCanBeMissed` the race, from every parked state. The
  other order of the race needs no condition: by `StreamTheorems.SetAfterCloseRevives` a Set after the
  call lets every live stream go on, a doomed one included.
- Nor does a stream always terminate with the given status code: it is the last code given when the
  stream reads it. `StreamTheorems.KillCodeIsLastBeforeRead` is the law and
  `StreamTheorems.LaterCodeWins` a run, from every parked state, that ends with another call's code.
- A pushed state need not reach a client: replaced by nil before the stream looks, it is never sent
  (`EndToEnd.NilHidesAState`). `EndToEnd.ConsumedIffSampled` says exactly which pushed states do, and
  `EndToEnd.PresentedIffLastSampled` which one is presented; `EndToEnd.RotationIsPresented` covers every
  current state that is not nil.
- `NewIntermediate` says the intermediate shares its parent's JWT keys (`internal/ca/ca.go:156-158`). It
  shares the slice header: `CaForest.AppendEffect` says exactly whose list an `AddJWTKey` changes, and
  `CaForest.AddedKeyCanVanish` exhibits a key dropping out of its own CA's JWKS, to which `AddJWTKey`
  promises to add it (`internal/ca/ca.go:278-280`). By `CaAliasing.AddedKeyStaysIff` the promise fails if
  and only if, before the call, the CA's array had room and another CA on that array was no longer;
  `CaAliasing.PositionCanChange` says the same of every position of every list.
- `LazyJwtSource.get` of py-spiffe sets its flag before it starts the creating thread
  (`sdks/py-spiffe/harness.py:86-89`). If starting it raises, nothing tries again: by
  `PyLazySource.ReturnsUnlessAbandoned` a get can still come to return if and only if that has not
  happened; `PyLazySource.FailedStartIsFinal` says what follows when it has. The Rust source has the
  same limit when its task is lost before publishing (`RustLazySource.ReturnsUnlessLost`); the Go source
  has none (`GoLazySource.CanReturn`).

## Model

| member | source | states |
|---|---|---|
| StreamProtocol.StepInv | internal/workloadapi/server.go:205-227 | every critical section, send, select case and write keeps the invariant: only a field's last channel is open, and captured epoch, snapshot version and next epoch interleave for every stream |
| StreamTheorems.HistoryIsPushed | internal/workloadapi/server.go:117-133 | the version history of each cell is exactly the list of values given to its setter, and the kill history the list of CloseStreams codes |
| StreamTheorems.NoLostUpdate | internal/workloadapi/server.go:205-239 | in every reachable state a stream waiting on an open notify channel has snapshotted, and if not nil last sent, the current version; its channel is closed iff a Set came after its last capture |
| StreamTheorems.CatchesUp | internal/workloadapi/server.go:205-227 | from every reachable state at most six steps of its own park a live stream on an open notify channel, so it is up to date |
| StreamTheorems.SendsAreOrdered | internal/workloadapi/server.go:205-227 | every message sent is a value that was pushed, sends follow push order, and two sends with another in between have different versions |
| StreamTheorems.NoVersionSentThrice | internal/workloadapi/server.go:205-227 | no version is sent more than twice on a stream |
| StreamTheorems.SendsAreBounded | internal/workloadapi/server.go:205-227 | a stream sends at most one message more than there were Sets after its first capture |
| StreamTheorems.KillCodeIsLastBeforeRead | internal/workloadapi/server.go:222-225 | a killed stream ends with the last code given to CloseStreams, since its last capture, before it read the code; with one such call, that call's |
| StreamTheorems.LaterCodeWins | internal/workloadapi/server.go:152-158 | from every parked state, a second CloseStreams before the woken stream reads the code replaces the code it ends with |
| StreamTheorems.KillIsFinal | internal/workloadapi/server.go:216-225 | with its kill channel closed and notify open, and no Set on its cell, a stream never captures again and can only leave select by kill or by its context |
| StreamTheorems.KilledStreamEnds | internal/workloadapi/server.go:216-225 | without a Set on its cell such a stream takes at most four more steps of its own, and until it has ended one can be taken, so it terminates |
| StreamTheorems.SurvivesCloseStreams | internal/workloadapi/server.go:150-158 | a live stream can go on after CloseStreams without a further Set iff it is about to capture or its notify channel is already closed |
| StreamTheorems.CloseStreamsCanBeMissed | internal/workloadapi/server.go:216-226 | from every parked state, a Set and a CloseStreams before the stream wakes leave it a run that captures an open kill channel |
| StreamTheorems.SetAfterCloseRevives | internal/workloadapi/server.go:216-226 | a Set after CloseStreams gives every live stream, doomed or not, a way to capture an open kill channel |
| WorkloadServer.Server.SetX509State | internal/workloadapi/server.go:117-123 | replaces the state, closes the old notify channel, which is never closed twice, and installs a new one: one step of the transition system |
| WorkloadServer.Server.SetJWTState | internal/workloadapi/server.go:127-133 | the same for the JWT cell, leaving the X.509 cell alone |
| WorkloadServer.Server.CloseStreams | internal/workloadapi/server.go:152-158 | sets the kill code and closes and replaces the kill channel in one step |
| WorkloadServer.Server.Advance | internal/workloadapi/server.go:207-214 | one round up to the select: capture, separate snapshot, send, in this order with any writes in between, sending nothing for nil; it fails iff the snapshot was a state and sending does not work |
| WorkloadServer.Server.Fetch | internal/workloadapi/server.go:243-261 | a streaming RPC against any writes, RPCs and fault injections of other goroutines extends the run by a run of the transition system, or is turned away by `begin` without touching it; it ends by a failed send iff its last round had a state and could not send it, and no earlier round was such a one; the call log is that of its own entry followed by the others' events; without an end it is waiting on a case that is not ready |
| WorkloadServer.Server.Begin | internal/workloadapi/server.go:171-200 | answers and logs a call, using up a fault only for a header-carrying call |
| FaultLog.FaultAccounting | internal/workloadapi/server.go:137-200 | after InjectError(m, c, n) every later log entry of m is determined: InvalidArgument without the header, c for the first n calls with it (all for n < 0), OK from then on, whatever other methods do |
| FaultLog.ClearedAccounting | internal/workloadapi/server.go:144-148 | after ClearErrors every header-carrying call goes through until an error is injected for its method again |
| FaultLog.LogIsAppendOnly | internal/workloadapi/server.go:192-198 | the log only grows, by one entry for each RPC in order, recording the answer |
| Der.ElementsAreEncodings | sdks/jeengbe-spiffe/index.ts:37-41 | the byte strings read as exactly one element are the encodings in shortest short or long form, and no others |
| Der.LengthForms | sdks/jeengbe-spiffe/index.ts:37-41 | the octets of each length form, most significant first |
| Der.WalkInvertsJoin | sdks/jeengbe-spiffe/index.ts:42-52 | the walk returns a list iff it consists of single elements and concatenates to the input |
| Der.DerChainToPem | sdks/jeengbe-spiffe/index.ts:42-52 | the loop computes the walk, its offset strictly increasing, and fails where the parser does |
| X509Messages.X509StateToProto | internal/workloadapi/server.go:374-409 | builds the one response that represents the state, every SVID with the pushed trust bundle or, without one, the first material's CA; fails iff some key cannot be marshalled |
| X509Messages.ResponseSays | internal/workloadapi/server.go:374-409 | bundle, chain, key, ID, hint and federated bundles of every response, field by field |
| X509Messages.RepresentsIsFunctional | internal/workloadapi/server.go:374-409 | a state has exactly one response, whatever order its federated bundles are visited in |
| Watchers.JeengbeWatcher.WatchX509 | sdks/jeengbe-spiffe/index.ts:66-93 | presents the last response that could be loaded, and exits iff none could |
| Watchers.JeengbeWatcher.OnResponse | sdks/jeengbe-spiffe/index.ts:68-88 | a response without SVID, whose chain does not split or which the TLS stack refuses changes nothing; any other is presented |
| Watchers.Loader.LoadMeans | sdks/node-spiffe/index.ts:41-56 | usable means: there is an SVID, the first one's chain splits, and the TLS stack takes the certificates with its key |
| Watchers.NodeWatcher.ApplyX509Response | sdks/node-spiffe/index.ts:41-63 | serving iff there is an SVID, its chain splits and the TLS stack takes it, and then that is presented; otherwise the identity is taken away and the old context kept; ready is signalled on the first usable one only |
| Watchers.NodeWatcher.WatchX509 | sdks/node-spiffe/index.ts:70-81 | serving iff the last response consumed was usable; ready signalled once iff any was |
| EndToEnd.RunFifo | sdks/jeengbe-spiffe/index.ts:68 | in every run what was consumed, then what is queued, is what the stream sent, message by message |
| EndToEnd.PresentedWasPushed | sdks/jeengbe-spiffe/index.ts:66-93 | what a watcher presents was made from a state that was pushed |
| EndToEnd.VersionsNeverGoBack | sdks/jeengbe-spiffe/index.ts:66-93 | however a run continues, the version presented never decreases |
| EndToEnd.RotationIsPresented | sdks/jeengbe-spiffe/index.ts:66-93 | parked, drained and with a loadable current state, jeengbe presents exactly the chain and key of its first material |
| EndToEnd.UnloadableKeepsLastGood | sdks/jeengbe-spiffe/index.ts:66-93 | parked and drained on a state whose first material is missing, unreadable or refused, jeengbe presents what it did before |
| EndToEnd.SettledHasBundle | internal/workloadapi/server.go:401-409 | parked and drained, the last response consumed carries the pushed trust bundle, whoever issued the SVIDs |
| EndToEnd.ServingIffCurrentUsable | sdks/node-spiffe/index.ts:41-63 | parked and drained on a state, node's serving flag holds iff the state's first material splits and is taken by the TLS stack, and then that one is presented |
| Settling.SettlesAlone | internal/workloadapi/server.go:205-227 | from every reachable state a live stream and its watcher can settle by their own steps iff the current state can be converted and the stream is not about to send an older one that cannot |
| Settling.RotationHappens | sdks/jeengbe-spiffe/index.ts:66-93 | from every such state, once writers keep quiet, steps of the stream and the watcher alone get jeengbe to present the current state's first material |
| Settling.ServingHappens | sdks/node-spiffe/index.ts:41-63 | likewise for node: it comes to serve iff the current response is usable |
| EndToEnd.ConsumedIffSampled | internal/workloadapi/server.go:117-123 | a settled watcher has consumed the response for a pushed state iff the stream took a snapshot between that Set and the next, read off the list of actions |
| EndToEnd.PresentedIffLastSampled | internal/workloadapi/server.go:250-254 | for any history of pushes, nil or not, what a settled watcher presents is the last usable state the stream snapshotted |
| EndToEnd.NilHidesAState | internal/workloadapi/server.go:250-254 | from every settled state, a state replaced by nil before the stream looks is never sent |
| OnceCell.AllReturnsAgree | sdks/go-spiffe/main.go:218-226 | the specification: creation begins at most once and all gets that return, return the same |
| GoLazySource.Refines | sdks/go-spiffe/main.go:233-248 | every step of every get and creator is a step of the specification |
| GoLazySource.GetsAgree | sdks/go-spiffe/main.go:219-258 | under every interleaving at most one goroutine creates, and every get that does not time out returns the pair it was handed, never half of one; Close closes no other source |
| GoLazySource.CanReturn | sdks/go-spiffe/main.go:233-248 | from every reachable state every get that has not ended can come to return, in at most eight steps |
| GoLazySource.CloseClosesTheSource | sdks/go-spiffe/main.go:250-258 | Close closes the source that was made iff the result has been published and is a source |
| PyLazySource.Refines | sdks/py-spiffe/harness.py:77-95 | every step of every get and creator is a step of the specification |
| PyLazySource.GetsAgree | sdks/py-spiffe/harness.py:65-95 | at most one thread creates, and every get that does not time out ends the way its constructor call ended |
| PyLazySource.ReturnsUnlessAbandoned | sdks/py-spiffe/harness.py:77-95 | from every reachable state a get that has not ended can come to return iff starting the thread has not raised |
| PyLazySource.FailedStartIsFinal | sdks/py-spiffe/harness.py:85-95 | after starting the thread has raised, no get, present or future, returns |
| PyLazySource.StartCanFail | sdks/py-spiffe/harness.py:86-89 | whenever a get is about to start the thread, that raising leaves the source lost |
| RustLazySource.Refines | sdks/rust-spiffe/src/main.rs:361-381 | every step of every get and creator is a step of the specification |
| RustLazySource.GetsAgree | sdks/rust-spiffe/src/main.rs:348-382 | at most one task creates, and every get that does not time out returns what it published |
| RustLazySource.ReturnsUnlessLost | sdks/rust-spiffe/src/main.rs:361-381 | from every reachable state a get that has not ended can come to return iff the creating task has not ended without publishing |
| CaForest.AppendEffect | internal/ca/ca.go:281-293 | AddJWTKey appends to its own list; another CA's list changes iff it shares the backing array and is longer, and then in one position |
| CaForest.PrefixIsFrozen | internal/ca/ca.go:186-193 | over any run, the positions below the shortest key list of a tree never change |
| CaForest.DefaultKeyStaysPublished | internal/ca/ca.go:306-312 | the key IssueJWT signs with by default stays first in the JWKS of every CA of the tree at all later times |
| CaForest.AddedKeyCanVanish | internal/ca/ca.go:186-193 | whenever a CA has spare capacity, a run exists in which a key added to it disappears from its JWKS |
| CaAliasing.PositionCanChange | internal/ca/ca.go:186-193 | from every reachable state a position of a CA's key list can come to hold another key iff some CA on the same backing array has a list ending at or before it |
| CaAliasing.AddedKeyStaysIff | internal/ca/ca.go:278-293 | the key AddJWTKey adds can later be lost from the CA's JWKS iff before the call the array had room and another CA sharing it was no longer |
| CaForest.PresentedChainIsValid | internal/ca/ca.go:159-194 | at any depth the presented chain is a signature path to the root, all CAs after the leaf, the leaf a CA only if asked for, the root left out, length depth + 1 |
| CaForest.IssuedKeyIsUnique | internal/ca/ca.go:196-275 | an issued leaf's key is never that of any CA or of any later leaf |
| CaForest.NoOtherRoot | internal/prober/x509.go:57-70 | no signature path through certificates of any CAs leads from a leaf to the root of another tree |
| CaKeys.IssuingCA.AddJWTKey | internal/ca/ca.go:281-293 | append on the shared array: in place while there is room, otherwise into a fresh one leaving the old untouched |
| CaKeys.Authorities.AddJWTKey | internal/ca/ca.go:281-293 | on CA objects sharing arrays, the call is exactly the forest's step, so every theorem about forests holds of the objects |
| CaKeys.Authorities.NewIntermediate | internal/ca/ca.go:186-193 | copying the slice header is exactly the forest's step |
| CaKeys.Authorities.DefaultKeyIsShared | internal/ca/ca.go:306-312 | all CA objects of a tree sign with the same default key |
| Tokens.IssueJWT | internal/ca/ca.go:300-351 | for any options the claims and headers are the defaults overridden by the last setting of each name, minus every deleted claim; no key, an unknown algorithm and a failed signature are errors, each for its cause |
| Tokens.TokenIsUnique | internal/ca/ca.go:318-339 | options and key determine the token, whatever order the maps are visited in |
| Tokens.DeletedIsAbsent | internal/ca/ca.go:330-332 | a claim deleted by any option is not in the token, whatever sets it |
| Tokens.LastSettingCounts | internal/ca/ca.go:327-339 | a claim not deleted, or a header, has the value it was last set to |
| Tokens.DefaultsOtherwise | internal/ca/ca.go:317-335 | a claim neither set nor deleted is sub, aud, iat or exp with the last audience and lifetime given, or absent; so with typ, alg and kid |
| Tokens.Config.Apply | internal/ca/options.go:79-125 | one option closure: each field is what the options so far, the last winning, say |
| Tokens.OrderOnlyMattersBetweenRivals | internal/ca/options.go:90-125 | exchanging neighbouring options changes no claim unless they assign the same thing; deleting beats setting in any order |
| Verdict.WireMeaning | internal/prober/control.go:83-110 | a v1 harness accepts with exactly 200 and "ok" and rejects with exactly 422 and "rejected"; a v0 harness accepts with exactly 200 and "valid" and rejects with any other JSON |
| Verdict.StatusOfReply | suite/env.go:233-264 | an answer a test ends with never passes; v1: SKIP iff it says unsupported, FAIL iff it is a well-formed verdict, ERROR otherwise; v0: FAIL iff JSON, ERROR otherwise |
| Verdict.TestEnv.ExpectAccepted | tests/jwt/bundle.go:89-101 | passes iff accepted with the wanted ID, otherwise has the status the answer stands for |
| Verdict.TestEnv.ExpectRejected | tests/jwt/bundle.go:104-113 | passes iff rejected, otherwise has the status the answer stands for |
| Verdict.TestEnv.ControlThenReject | tests/jwt/bundle.go:117-261 | J2 to J12 against any harness: passes iff the control was accepted as the workload and then every bad token rejected, on exactly that trace |
| Verdict.PassMeansOnTheWire | tests/jwt/bundle.go:117-142 | a PASS fixes the trace: 200, "ok" and the exact ID for the control, 422 and "rejected" for every bad token |
| Verdict.ConformingPasses | tests/jwt/bundle.go:115-142 | a harness that judges by the bundle served last passes, if that bundle vouches for the control and no bad token |
| Verdict.ConstantHarness | tests/jwt/bundle.go:115-142 | a harness with one answer for everything passes no test with a control, and gets the status that answer stands for |
| Verdict.TestEnv.RunJ13 | tests/jwt/bundle.go:263-315 | passes iff the old token was accepted, the new one rejected in time until accepted, and the old one then rejected; at most 52 polls, given up only after the deadline or a cancellation; whatever the ending, trace and status are determined |
| Verdict.RotationEvents | tests/jwt/bundle.go:263-315 | place by place: bundle 1, token 1, bundle 2, token 2 at every poll, and token 1 again iff token 2 was accepted |
| Verdict.RotationOnTheWire | tests/jwt/bundle.go:263-315 | a PASS fixes the answers: 200, "ok" and the exact ID, 422 until a 200, then 422 |
| Verdict.RotationStops | tests/jwt/bundle.go:263-315 | a failed preparation leaves what came before and is an ERROR; every other ending has the status of its last answer |
| Verdict.ConformingRotates | tests/jwt/bundle.go:263-315 | a harness that judges by the bundle served last passes, in one poll |
| Verdict.RotationNeedsChange | tests/jwt/bundle.go:263-315 | passing J13 takes a change of answer both over time and between the two tokens |
| Tamper.FlipSignatureChar | tests/jwt/bundle.go:196-205 | exactly one character changes; signed part and dots stay iff something follows the last dot |
| Polling.ProbeUntilSPIFFEID | tests/x509/svid.go:182-211 | between 1 and floor(timeout / 100 ms) + 2 probes; a result iff the last probe, and none before, contained the wanted ID |
| ErrorTrees.StatusByOccurrence | suite/suite.go:155-186 | SKIP iff a SkipError occurs anywhere in the error, else ERROR iff an ExecutionError does, else FAIL |
| ErrorTrees.ContextKeepsStatus | suite/suite.go:155-186 | wrapping keeps a status, joining takes the strongest, marking as ExecutionError gives ERROR unless it skips |
| Lifecycle.HeldIsTheBalance | suite/env.go:117-121 | what is held is what was acquired less what was released, so nothing held means everything released and reaped |
| Lifecycle.RunningProcess.Stop | internal/harness/harness.go:124-136 | acts once, whether the process still runs or was reaped before, ending with the group killed and the process reaped; later calls do nothing |
| Lifecycle.StartHarness | internal/harness/harness.go:55-120 | a process only comes back announced, maybe exited already; on every other path it has been stopped, whenever it exited |
| Lifecycle.NewTestEnv | suite/env.go:34-123 | on every failure nothing is held |
| Lifecycle.StatusMeans | suite/suite.go:131-187 | ERROR iff set-up failed, the test panicked, or its error holds an ExecutionError and no SkipError; SKIP, FAIL and PASS likewise |
| Lifecycle.RunCase | suite/suite.go:131-187 | on every path, a panicking test and a harness that exits at any moment included, nothing is held on return; the status is that of the error tree, or ERROR |
| Lifecycle.EventsInOrder | internal/harness/harness.go:124-136 | what happens in a case, in order: SIGTERM before SIGKILL for every process started, the reaping wherever it falls, everything released in reverse |
| Runs.CountsAddUp | internal/result/result.go:38-50 | the four counters add up to the number of results |
| Runs.Report.Add | internal/result/result.go:38-50 | appends the result and increments exactly the counter of its status, each being the number of results with that status |
| Runs.SelectCases | cli/run.go:120-141 | fails iff a requested name is unknown, otherwise selects the first case of each requested name |
| Runs.SelectedOnce | cli/run.go:120-141 | each requested and registered name is selected exactly once, even with duplicates in the registry |
| Runs.SelectedInOrder | cli/run.go:125-131 | the selection follows the registry, and a name once selected is not selected again |
| Runs.RunSuite | cli/run.go:67-118 | results in the order of the selection, each by the case of that name; exit status 2 iff some case could not be set up, panicked, or ended with an ExecutionError and no SkipError; 1 iff names are unknown or output fails; nothing is held afterwards |
| Runs.RegistryOrder | cli/run.go:120-141 | with unique names the cases run are the registry restricted to the request, in registry order, each under its own name |
| Runs.ParseList | cli/run.go:168-180 | the non-empty trimmed parts between commas |
| Runs.CleanedInOrder | cli/run.go:168-180 | each part that is not blank, trimmed, in order, and nothing else |
| Runs.ListRoundTrip | cli/run.go:168-180 | any list of trimmed names without commas survives joining and parsing |
| Readiness.Announcement.ParseStdout | internal/harness/readiness.go:23-61 | succeeds iff there is a first READY, every known value before it parses and the last ones are complete; each error iff its cause |
| Readiness.Announcement.ParseLine | internal/harness/readiness.go:55-84 | sets the field of a known key, ignores other lines, fails iff a known key's value does not parse |
| Readiness.LineMeans | internal/harness/readiness.go:55-84 | READY and a known key with its value are recognised by the trimmed text, cut at the first "=" |
| Readiness.LastSettingDecides | internal/harness/readiness.go:63-84 | a later line for a key replaces an earlier one |
| Readiness.ReadinessRoundTrip | internal/harness/readiness.go:55-84 | values printed in decimal in any order among lines that say nothing are the last values set, and complete iff they are |
| Readiness.ParsePrinted | internal/harness/readiness.go:23-61 | parsing such lines, then READY, then anything, yields exactly the printed values, and succeeds iff they are an X.509 port and, for version 0, a JWT port or, for version 1, a control port |
| Text.AtoiInvertsItoa | sdks/go-spiffe/main.go:71-74 | the decimal round trip for all 64-bit numbers that are not negative |
| Text.AtoiOfSigned | internal/harness/readiness.go:78-81 | signs, the 64-bit range and everything that is not a number |
| Text.SplitInvertsJoin | cli/run.go:173 | splitting at commas inverts joining, in both directions |
| Text.TrimMeans | internal/harness/readiness.go:56 | trimming takes the white space off both ends and nothing else |
| TailBuffer.Buffer.WriteAll | internal/harness/harness.go:181-189 | after any writes the buffer is the last max bytes of their concatenation, however it was cut up |
| TailBuffer.TailOfTail | internal/harness/harness.go:184-187 | dropping early what falls off the front does not change the tail |

## Left out

- gRPC, HTTP, TLS, sockets, signals and pipes: queues, oracle answers and events stand for them, and `Server.Stop` ending streams is not modelled.
- Cryptography and encodings other than DER framing: keys are numbers, "signed by" is a field, tokens are strings and bundles are opaque.
- WorkloadServer.Server.Fetch: other streams take no steps of their own meanwhile; they change nothing shared, and the transition system interleaves them.
- SDK internals, the delegated validator behind `ValidateJWTSVID`, and the SDK's certificate parser in node-spiffe (an arbitrary function here).
- `FetchX509Bundles`, `FetchJWTSVID` and `trustDomainOf`: one loop or lookup each over the snapshot.
- `FetchJWTBundles` streams over the JWT cell; the transition system covers it, its message is not modelled.
- X.509 options of `internal/ca/options.go` other than the CA flag of a leaf, certificate times and names, and errors of key generation.
- `AddJWTKey` with an unsupported algorithm changes nothing and is not an action.
- X3 to X9, `ClientCertVerdict` and `DialFromSDK`: they rest on timing or on unseen SDK behaviour.
- `runOne` setting `Delegated`, report formatting, CLI flags and the scanner's line-length limit.
- Messages of errors and results, other than the reason of a SkipError.
- Der.FirstLength: takes the strict DER reading of a length; Node may accept longer forms, which the server never sends.
