# Bitheim verification model

Bitheim starts, stops and observes a Bitcoin Core regtest node that runs under Docker Compose. This
project models the parts of it that carry logic, in Dafny, and proves what they keep. To verify it:
`dafny verify dfyconfig.toml`.

## What is modelled

- **The lifecycle protocol** (`Runs`, `World`, `Containers`, `AdapterSpec`, `Adapter`, `AdapterSafety`,
  `Observations`, `Starting`, `Inspections`, `Expiry`, `Progress`, `Unforeseen`, `ServiceSpec`, `Service`,
  `ServiceSafety`, `Readiness`, `SlowestStart`, `ScriptedRuns`). The outside is a script: at every step it
  says how long local work took, how long a command ran and what it answered. The script is a parameter of
  every statement, so each holds for every clock and every Docker. The operations are written twice: as
  classes whose methods read the clock, run commands and loop, leaving a record, and as functions of the
  script; every method is proved to end in exactly the outcome, moment and record of its function, and the
  safety properties are proved of the functions. What each operation answers is proved to be a function of
  what its commands showed, written out without the operation's own definitions. `Honoured` is the
  assumption that commands end within their timeouts and sleeps are exact; `Instant` that local work takes
  no time. Both appear only where a duration is claimed. Between a clock reading and the command or read
  that it budgets no time passes, so "dispatched before the deadline" speaks of the last reading of the
  clock before it.
- **Delegation from host to container** (`Json`, `Domain`, `Process`, `Delegation`, `HostReading`, `Peers`,
  `PeerSize`, `ErrorEnvelope`, `Health`). Printing with `to_dict`, `status --json` and the error envelope,
  and the host's own re-reading of each; `EndToEnd` joins the client, the printing and the host's runs. JSON
  is a tree with ordered members; `Writes` says that a value is some printing of a dictionary, in whatever
  member order.
- **The JSON-RPC client** (`RpcWorld`, `RpcSpec`, `RpcClient`, `RpcSafety`, `RpcReading`), in the same two
  forms. The response envelope is that of section 1.2 of the JSON-RPC 1.0 specification; unique member names
  are the subject of section 4 of RFC 8259.
- **Fees** (`Fees`). Python's default decimal context, with its 28 digits, half-even rounding and
  exponent limits, written out over the integers.
- **Networks** (`Cidr`, `CidrText`). Blocks in the prefix notation of section 3.1 of RFC 4632, their endpoint
  test for overlap, and the text form of IPv4 blocks.
- **Configuration** (`Configuration`, `Validation`) and **redaction** (`Redaction`).

`Outcome`, `Text` and `Arith` hold what the others share: results and exception classes, the used parts
of `str`, and integer arithmetic.

## Where the code and its documentation part

The model follows the code.

- `probe_health` is documented to answer UNKNOWN when its budget expires; it can raise
  `RuntimeUnavailableError` (`AdapterSafety.ProbeRaisesIff`). The same error, and not an `RpcError`,
  also leaves the inspections when their state check cannot observe the node
  (`AdapterSafety.InspectRaisesIff`). Runs in which it happens: `AdapterSafety.ProbeRaisesOnExpiry`,
  `AdapterSafety.InspectRaisesOnExpiry`.
- `inspect_node` is documented to raise `RpcError`s; a `ValueError` gets out for an upper-case or
  newline-terminated hash and for a lone surrogate (`Delegation.OverviewTotal`,
  `Delegation.SurrogateEscapes`). `get_node_overview` lets one out for a lone surrogate
  (`RpcSafety.OverviewEscapesIff`, `RpcSafety.SurrogateEscapes`).
- `inspect_block` is documented to raise `RpcError`s; a height of more than 4300 digits lets a
  `ValueError` out (`Inspections.InspectBlockOutcomes`, `Inspections.HugeHeightEscapes`).
- `RpcTimeoutError` and `ShutdownTimeoutError` are documented for an exceeded deadline; they come only
  of the delegated command and of the `stop` command (or a node still running after it), and an expiry
  elsewhere has another class (`Expiry.InspectExpiry`, `Expiry.StopExpiry`; runs:
  `AdapterSafety.InspectRaisesOnExpiry`, `AdapterSafety.StopRaisesOnExpiry`).
- `start_node` is documented to wait for readiness; the error of a probe that loses sight of the node
  ends it with time left (`ServiceSafety.PollCutShortIff`, `ServiceSafety.PollCutShort`).
- `ps` output that is JSON without any object reads as STOPPED (`Containers.StoppedIffAtRest`,
  `Containers.NumberReadsStopped`).
- The host's version test is described as having "correct types"; a floating-point version passes it
  (`Health.FloatVersionBelieved`), and then the promise is not kept (`Health.HealthyShowsVersionIff`).
- The conversion described as exact misreads some fees of more than 28 digits
  (`Fees.ConversionRightIff`, `Fees.TwentyNineDigitsMisread`), and takes some tiny ones for nothing
  (`Fees.TinyFeeIsZero`).
- `load_configuration` is documented to raise `ConfigurationError`; a file that is not UTF-8 and an
  integer timeout beyond the range of floats raise something else, in exactly the cases that
  `Configuration.LoadErrorClass` gives (`Configuration.HugeTimeoutEscapes` is one). The timeout
  arguments of the service, the adapter and the client have the same gap
  (`ServiceSafety.StartNodeOutcomes`, `Inspections.InspectObserves`, `RpcSafety.GetNodeOverviewSound`).
  A boolean passes as the timeout 1.0 or, when false, is refused as zero (`Configuration.TruthTimeout`).
- `start_node` takes `timeout` for the longest time to wait for readiness, but polls with a second
  budget after a status check and a `start` with budgets of their own: the least bound on the call is fifteen
  seconds more than twice the timeout (`SlowestStart.StartNodeBoundExact`).

## Model

| member | source | states |
|---|---|---|
| World.Issue | src/bitheim/infrastructure/compose/adapter.py:86-88 | One deadline-scoped command: it is dispatched only while time is left, with a timeout of exactly the time left; otherwise nothing is run and the given error comes out |
| World.Sequel | src/bitheim/infrastructure/compose/adapter.py:122-124 | Two pieces of work under one deadline, one after the other, again dispatch only before it and, with honoured timeouts and instant local work, end by it |
| AdapterSpec.ScanNetworks | src/bitheim/infrastructure/compose/adapter.py:183-231 | The loop over the networks, of whatever number and with whatever answers, keeps the shared deadline as one command does |
| AdapterSpec.Start | src/bitheim/infrastructure/compose/adapter.py:321-387 | Every command of `start` gets a positive timeout equal to the shared deadline minus the clock; with honoured timeouts and instant local work the call ends by `t0 + timeout` |
| AdapterSpec.Stop | src/bitheim/infrastructure/compose/adapter.py:389-457 | Every command of `stop` gets a positive timeout equal to its shared deadline minus the clock; with honoured timeouts and instant local work the call ends by `t0 + timeout` |
| AdapterSpec.ProbeHealth | src/bitheim/infrastructure/compose/adapter.py:467-537 | Every command of `probe_health` gets a positive timeout equal to its shared deadline minus the clock; with honoured timeouts and instant local work the call ends by `t0 + timeout` |
| AdapterSpec.GetState | src/bitheim/infrastructure/compose/adapter.py:459-465 | Every command of `get_lifecycle_state` gets a positive timeout equal to a deadline ten seconds away minus the clock, and with honoured timeouts and instant local work it ends by then |
| AdapterSpec.Inspect | src/bitheim/infrastructure/compose/adapter.py:587-614 | Every command of an inspection gets a positive timeout equal to its shared deadline minus the clock; a timeout that is not a number in (0, 60] is refused before any command, a huge integer with `OverflowError` |
| AdapterSpec.Grace | src/bitheim/infrastructure/compose/adapter.py:410 | The grace period is the whole seconds left, and at least one |
| Adapter.ComposeAdapter.CheckRuntimeAvailable | src/bitheim/infrastructure/compose/adapter.py:126-153 | The daemon check leaves the machine, its clock and its record exactly as `AdapterSpec.CheckRuntime` says |
| Adapter.ComposeAdapter.CompareSubnets | src/bitheim/infrastructure/compose/adapter.py:212-231 | The loop over one network's subnets fails on the first malformed or overlapping one, as `AdapterSpec.CheckSubnets` says |
| Adapter.ComposeAdapter.InspectNetworks | src/bitheim/infrastructure/compose/adapter.py:183-231 | The loop over the listed networks, with its clock reads and commands, runs exactly as `AdapterSpec.ScanNetworks` says, for every script of the world |
| Adapter.ComposeAdapter.CheckSubnetCollision | src/bitheim/infrastructure/compose/adapter.py:155-233 | The collision check runs exactly as `AdapterSpec.CheckCollision` says |
| Adapter.ComposeAdapter.EnsureImageAvailable | src/bitheim/infrastructure/compose/adapter.py:235-315 | The image check runs exactly as `AdapterSpec.EnsureImage` says: inspect, and build only when positively missing and a Dockerfile is there |
| Adapter.ComposeAdapter.Start | src/bitheim/infrastructure/compose/adapter.py:321-387 | `start` runs exactly as `AdapterSpec.Start` says |
| Adapter.ComposeAdapter.GetStateBy | src/bitheim/infrastructure/compose/adapter.py:1030-1120 | The state check runs exactly as `AdapterSpec.StateBy` says |
| Adapter.ComposeAdapter.Stop | src/bitheim/infrastructure/compose/adapter.py:389-457 | `stop` runs exactly as `AdapterSpec.Stop` says |
| Adapter.ComposeAdapter.ProbeNodeHealth | src/bitheim/infrastructure/compose/adapter.py:467-537 | `probe_health` runs exactly as `AdapterSpec.ProbeHealth` says |
| Adapter.ComposeAdapter.Status | src/bitheim/infrastructure/compose/adapter.py:539-565 | `get_status` runs exactly as `AdapterSpec.GetStatus` says |
| Adapter.ComposeAdapter.InspectPayload | src/bitheim/infrastructure/compose/adapter.py:587-614 | The common part of the inspections runs exactly as `AdapterSpec.Inspect` says |
| Adapter.ComposeAdapter.RunDelegatedInspection | src/bitheim/infrastructure/compose/adapter.py:840-947 | The delegated command and the judgement of its output run exactly as `AdapterSpec.DelegatedInspection` says |
| Adapter.ComposeAdapter.InspectNode | src/bitheim/infrastructure/compose/adapter.py:567-690 | `inspect_node` runs exactly as `AdapterSpec.InspectNode` says |
| Adapter.ComposeAdapter.InspectBlock | src/bitheim/infrastructure/compose/adapter.py:692-763 | `inspect_block` refuses bad arguments before any command and otherwise runs exactly as `AdapterSpec.InspectBlock` says |
| Adapter.ComposeAdapter.InspectMempool | src/bitheim/infrastructure/compose/adapter.py:765-806 | `inspect_mempool` runs exactly as `AdapterSpec.InspectMempool` says |
| Adapter.ComposeAdapter.InspectPeers | src/bitheim/infrastructure/compose/adapter.py:808-834 | `inspect_peers` runs exactly as `AdapterSpec.InspectPeers` says |
| AdapterSafety.StartSafe | src/bitheim/infrastructure/compose/adapter.py:321-387 | Every run of `start` either does no `up` and fails, or ran, in order, a live daemon check, a completed collision scan and both images found or built, and then one `up` as its last command, returning normally exactly when that exited with code 0 |
| AdapterSafety.CollisionShape | src/bitheim/infrastructure/compose/adapter.py:155-233 | The collision check returns normally exactly when the networks were listed and every one but the project's own was inspected and found clear |
| AdapterSafety.NoCollision | src/bitheim/infrastructure/compose/adapter.py:160-231 | After a normal return, each listed network but the project's own was inspected in that very run, and no address of the configured block lies in any of its subnets |
| AdapterSafety.ImageShape | src/bitheim/infrastructure/compose/adapter.py:246-315 | The image check returns normally exactly when the image was found, or was positively missing and then built |
| AdapterSafety.OthersListed | src/bitheim/infrastructure/compose/adapter.py:180-185 | The networks inspected are exactly those named on the lines of the listing, but for the node's name followed by "_bitheim-net" |
| Starting.EnsureImageTold | src/bitheim/infrastructure/compose/adapter.py:246-315 | A build is run only after an inspection that failed and says, in any case of letters, "no such image" or "not found", and only with a Dockerfile; a failure is `RuntimeUnavailableError` or what a command raised |
| Starting.ScanNetworksTold | src/bitheim/infrastructure/compose/adapter.py:183-231 | The networks are inspected in order up to the first that does not go well; `LifecycleError` comes exactly of a last inspection that shows a malformed subnet or one that shares an address with the configured block |
| Starting.StartToldBy | src/bitheim/infrastructure/compose/adapter.py:321-387 | What `start` answers is a function of what its commands showed: the end of `up` if it ran, `LifecycleError` for a network in the way or a malformed configured block, `StartupTimeoutError` exactly of an `up` that timed out or of a deadline past the last image, what was raised unforeseen, else `RuntimeUnavailableError`; and no other command than those of a start is run |
| Progress.ImageProgress | src/bitheim/infrastructure/compose/adapter.py:246-315 | An image that is missing and can be built is built unless the time is over |
| Progress.StartProgress | src/bitheim/infrastructure/compose/adapter.py:321-387 | Where docker is installed, `start` fails after commands that all went well only when its time is over, or for a network in the way |
| AdapterSafety.StopSafe | src/bitheim/infrastructure/compose/adapter.py:389-457 | `stop` runs at most one `stop` command, right after observing a state other than STOPPED, and returns normally exactly when its last observation is STOPPED |
| Observations.StopToldBy | src/bitheim/infrastructure/compose/adapter.py:389-457 | What `stop` answers is a function of what its commands showed, written out for each way they can end: success exactly of a node last seen at rest, `ShutdownTimeoutError`, `LifecycleError` or `RuntimeUnavailableError` by the command that failed or was not reached |
| Observations.StopGrace | src/bitheim/infrastructure/compose/adapter.py:406-421 | The grace period handed to the `stop` command is the whole seconds left after the `ps` before it, at least one; without delays between clock readings it is exactly the whole seconds of that command's own timeout, at least one |
| Progress.StopProgress | src/bitheim/infrastructure/compose/adapter.py:389-457 | Where docker is installed, `stop` fails after commands that all went well only when its time is over, or because its second look showed the node in another state |
| AdapterSafety.SecondStopIsIdle | src/bitheim/infrastructure/compose/adapter.py:398-404 | A second `stop` that observes nothing else than the first one ended with runs no `stop` command, and succeeds exactly if it observes a state |
| AdapterSafety.StateIsReadOnly | src/bitheim/infrastructure/compose/adapter.py:459-465 | `get_lifecycle_state` runs no `up`, `stop` or `build` |
| Observations.GetStateTold | src/bitheim/infrastructure/compose/adapter.py:459-465 | `get_lifecycle_state` returns a state exactly when a live daemon answered and `ps` exited with code 0, and it is the one that belongs to the printed words; else it raises `RuntimeUnavailableError` or what a command raised |
| AdapterSafety.ProbeIsReadOnly | src/bitheim/infrastructure/compose/adapter.py:467-537 | `probe_health` runs no `up`, `stop` or `build`, and its delegated command comes right after a `ps` of the same call that showed a state other than STOPPED |
| AdapterSafety.StatusSafe | src/bitheim/infrastructure/compose/adapter.py:539-565 | `get_status` runs no `up`, `stop` or `build`, and reports HEALTHY only if its last command was a delegated probe whose report shows health |
| Observations.GetStatusTold | src/bitheim/infrastructure/compose/adapter.py:539-565 | What `get_status` answers is a function of what its commands showed: STOPPED for a node at rest, the state the probe found for a running one, UNKNOWN for any other, each with the probe's health |
| Observations.StatusHealthyIff | src/bitheim/infrastructure/compose/adapter.py:553-565 | `get_status` answers HEALTHY exactly when its first `ps` shows the `State` "running" for the first bitcoin-core container and its last command is a delegated probe whose report shows health |
| AdapterSafety.InspectIsReadOnly | src/bitheim/infrastructure/compose/adapter.py:599-614 | No inspection runs an `up`, `stop` or `build`, and its delegated command comes right after a `ps` of the same call that showed a state other than STOPPED |
| Inspections.InspectObserves | src/bitheim/infrastructure/compose/adapter.py:587-614 | Every inspection, up to its payload, is read-only, keeps its deadline, lets `RuntimeUnavailableError` out exactly when it lost sight of the node and an unforeseen exception exactly when a command raised it (or the timeout is a huge integer), and otherwise fails only with an `RpcError` |
| Inspections.InspectNodeOutcomes | src/bitheim/infrastructure/compose/adapter.py:567-690 | Every run of `inspect_node` does so, and ends in a valid overview from a delegated command that exited with code 0, in one of those errors, or in a `ValueError`: that exactly when the payload has a lone surrogate or is right but for a bad hash |
| Inspections.InspectBlockOutcomes | src/bitheim/infrastructure/compose/adapter.py:692-763 | Every run of `inspect_block` is read-only, keeps its deadline and ends in a valid block, an `RpcError`, one of the two errors of every inspection, or a `ValueError`: that exactly when the height has more than 4300 digits and the node was seen in a state other than STOPPED. Unless exactly one well-formed hash or height is given it is refused before any command |
| Inspections.HugeHeightEscapes | src/bitheim/infrastructure/compose/adapter.py:738-760 | The height 10^4300 passes the checks and is an input on which that `ValueError` gets out |
| Inspections.InspectMempoolOutcomes | src/bitheim/infrastructure/compose/adapter.py:765-806 | Every run of `inspect_mempool` does so and ends in a valid summary or one of those errors |
| Inspections.InspectPeersOutcomes | src/bitheim/infrastructure/compose/adapter.py:808-834 | Every run of `inspect_peers` does so and ends in a canonical list of valid peers or one of those errors |
| Observations.InspectTold | src/bitheim/infrastructure/compose/adapter.py:587-614 | The payload of every inspection on a good timeout is a function of what its commands showed, written out end by end: no live daemon or a node at rest, `RpcUnavailableError`; no state observed, `RuntimeUnavailableError`; no time for the delegated command, `RpcTimeoutError`; else what that command printed |
| Inspections.BlockQueryRule | src/bitheim/infrastructure/compose/adapter.py:728-745 | A block may be asked for by 64 lower-case hexadecimal digits (or these and a newline) or by a height that is not negative, and by one of them alone |
| Inspections.InspectNodeIff | src/bitheim/infrastructure/compose/adapter.py:567-690 | `inspect_node` returns an overview exactly when its fourth command, `inspect node`, printed a payload with each of the twelve members at that field's value, all valid |
| Inspections.InspectBlockIff | src/bitheim/infrastructure/compose/adapter.py:692-763 | `inspect_block` likewise, by the nine members of a block; its delegated command is given `--hash` and the hash, or `--height` and the decimal height |
| Inspections.InspectMempoolIff | src/bitheim/infrastructure/compose/adapter.py:765-806 | `inspect_mempool` likewise, by the six members of a summary |
| Inspections.InspectPeersIff | src/bitheim/infrastructure/compose/adapter.py:808-834 | `inspect_peers` returns a list exactly when it is the increasing arrangement of what at most 256 entries, each read by its ten members, stand for |
| AdapterSafety.ProbeShape | src/bitheim/infrastructure/compose/adapter.py:483-537 | `probe_health` runs at most four commands, and reports HEALTHY exactly when the fourth, the delegated probe, ended well with a report that shows health |
| Observations.ProbeHealthTold | src/bitheim/infrastructure/compose/adapter.py:467-537 | What `probe_health` answers is a function of what its commands showed, state and details written out for each way they can end; a budget that is not positive is answered without any command |
| Progress.ProbeProgress | src/bitheim/infrastructure/compose/adapter.py:467-537 | Where docker is installed, a probe that saw a node to ask and no failing command asks it unless the budget is used up |
| AdapterSafety.ProbeRaisesIff | src/bitheim/infrastructure/compose/adapter.py:474-488 | Against its documentation `probe_health` raises `RuntimeUnavailableError`, exactly when the daemon was found alive but no state was observed (and nothing unforeseen was raised) |
| AdapterSafety.InspectRaisesIff | src/bitheim/infrastructure/compose/adapter.py:601-609 | Against their documentation the inspections let `RuntimeUnavailableError` out, in exactly the runs in which the daemon was found alive but no state was observed (and nothing unforeseen was raised) |
| AdapterSafety.DelegatedInspectionRaises | src/bitheim/infrastructure/compose/adapter.py:840-947 | A delegated inspection fails only with an `RpcError`, or with what was raised unforeseen |
| AdapterSafety.ProbeRaisesOnExpiry | src/bitheim/infrastructure/compose/adapter.py:474-488 | A daemon check that takes five seconds is a run of the default budget in which it does |
| AdapterSafety.InspectRaisesOnExpiry | src/bitheim/infrastructure/compose/adapter.py:601-609 | The same run makes every inspection raise `RuntimeUnavailableError`, its command having honoured its timeout |
| AdapterSafety.StopRaisesOnExpiry | src/bitheim/infrastructure/compose/adapter.py:394-398 | The same run makes `stop` raise `RuntimeUnavailableError`, its command having honoured its timeout |
| AdapterSafety.LookOutcome | src/bitheim/infrastructure/compose/adapter.py:599-612 | The look with which every inspection begins is good exactly when it ended in a `ps` showing a state other than STOPPED; otherwise it ends in `RpcUnavailableError`, in `RuntimeUnavailableError` exactly when it lost sight of the node, or in what a command raised, exactly when one did |
| Expiry.InspectExpiry | src/bitheim/infrastructure/compose/adapter.py:581-585 | An inspection that ran out of time ends by the number of commands completed: none, `RpcUnavailableError`; one or two, `RuntimeUnavailableError`; three, the documented `RpcTimeoutError`, which comes exactly then or of a delegated report of a timeout |
| Expiry.StopExpiry | src/bitheim/infrastructure/compose/adapter.py:389-457 | A `stop` that ran out of time ends in the documented `ShutdownTimeoutError` exactly when that happened at the `stop` command, and in `RuntimeUnavailableError` at any look before or after; `ShutdownTimeoutError` comes otherwise only of a node still seen running at the end |
| Progress.InspectProgress | src/bitheim/infrastructure/compose/adapter.py:587-614 | Where docker is installed, an inspection that saw a node to ask and no failing command asks it unless the time is over |
| Containers.StoppedIffAtRest | src/bitheim/infrastructure/compose/adapter.py:1074-1116 | A running state is read exactly from output whose first bitcoin-core container has the `State` "running", and STOPPED exactly from output that lists no container (which includes JSON without objects, such as `[]`) or whose first bitcoin-core container is "exited", "dead" or "created" |
| Containers.PsStateRead | src/bitheim/infrastructure/compose/adapter.py:1074-1116 | For all output, which state is read, by the lower-cased words of the first bitcoin-core container: STARTING for "running" without the health "unhealthy", UNHEALTHY for "running" with it, STOPPED for "exited", "dead" or "created", UNKNOWN for anything else, without such a container, or when the output is not JSON |
| Containers.ListedExact | src/bitheim/infrastructure/compose/adapter.py:1078-1095 | What output lists: the objects of one array, or those of the values on its non-blank lines, all of which must be JSON |
| Containers.NumberReadsStopped | src/bitheim/infrastructure/compose/adapter.py:1094-1095 | The output `5` is an input that is so read |
| Containers.ReadLines | src/bitheim/infrastructure/compose/adapter.py:1085-1092 | The loop over the lines collects the objects that `LineObjects` defines, or reports a line that is not JSON |
| Containers.FindCore | src/bitheim/infrastructure/compose/adapter.py:1097-1116 | The search loop decides by the first bitcoin-core container, in the words of `Containers.EntriesRead` |
| Containers.ReadPs | src/bitheim/infrastructure/compose/adapter.py:1074-1116 | Reading the output of `ps` gives the state that belongs to its words, as `Containers.OutputReads` lists them |
| Cidr.NestedOrDisjoint | src/bitheim/infrastructure/compose/adapter.py:221 | Two blocks of one address family are nested or share no address |
| Cidr.OverlapIsIntersection | src/bitheim/infrastructure/compose/adapter.py:221 | `overlaps`, which looks at the endpoints of both blocks only, is true exactly when some address lies in both, also across IPv4 and IPv6 |
| Cidr.ParsePrintV4 | src/bitheim/bootstrap/configuration.py:69-88 | A printed IPv4 block parses back to itself, its host bits being clear |
| CidrText.QuadIff | src/bitheim/bootstrap/configuration.py:69-88 | The only text read as an IPv4 address is its dotted quad of decimals without leading zeros |
| CidrText.MaskIff | src/bitheim/bootstrap/configuration.py:69-88 | A dotted mask stands for a prefix length exactly when it is so many ones and then zeros, or, being none of those, so many zeros and then ones |
| CidrText.ParseV4Iff | src/bitheim/bootstrap/configuration.py:69-88 | A text is read as an IPv4 block exactly when it spells an address alone, or an address, a slash and a prefix length or mask, and as the block of that length that the address belongs to |
| Delegation.OverviewRoundTrip | src/bitheim/infrastructure/compose/adapter.py:614-690 | Every valid overview, printed by `to_dict` within the size bound, passes all host checks and is rebuilt equal |
| Delegation.BlockRoundTrip | src/bitheim/infrastructure/compose/adapter.py:949-963 | Every valid block summary, printed within the size bound, is rebuilt equal on the host |
| Delegation.MempoolRoundTrip | src/bitheim/infrastructure/compose/adapter.py:965-976 | Every valid mempool summary, printed within the size bound, is rebuilt equal on the host |
| Delegation.PeersRoundTrip | src/bitheim/infrastructure/compose/adapter.py:978-1014 | Every list of at most 256 valid peers in increasing order of identifier, printed within the size bound, comes back identical |
| Delegation.ParsePeers | src/bitheim/infrastructure/compose/adapter.py:978-1014 | The one-pass loop with its set of seen identifiers and its sort computes `HostPeers`: all items valid, no identifier twice, sorted |
| HostReading.HashRules | src/bitheim/infrastructure/compose/adapter.py:59 | The three readings of a hash, digit by digit: the anchored patterns, which let a final newline pass, and the strict one |
| HostReading.TextRule | src/bitheim/domain/node.py:85-90 | Free text is one to 512 characters, each from space to tilde |
| HostReading.PayloadExact | src/bitheim/infrastructure/compose/adapter.py:840-947 | What every end of a delegated inspection is taken for: the members of a JSON object without repeated names, at most 32 deep, printed within 65536 bytes at exit code 0, and otherwise which error |
| HostReading.HostOverviewIff | src/bitheim/infrastructure/compose/adapter.py:614-690 | The host reads an overview from exactly the payloads whose twelve members are its fields, when it is valid |
| HostReading.HostOverviewFails | src/bitheim/infrastructure/compose/adapter.py:614-690 | When it does not, the error: incompatible exactly for members of the right types but another version or chain, `ValueError` exactly for a lone surrogate as subversion or a hash that is not strict, malformed otherwise |
| HostReading.HostBlockIff | src/bitheim/infrastructure/compose/adapter.py:949-963 | The host reads a block from exactly the payloads whose nine members are its fields, when it is valid |
| HostReading.HostMempoolIff | src/bitheim/infrastructure/compose/adapter.py:965-976 | The host reads a mempool summary from exactly the payloads whose six members are its fields, when it is valid |
| HostReading.HostPeersIff | src/bitheim/infrastructure/compose/adapter.py:978-1014 | The host reads a list of peers exactly when it is the increasing arrangement of what at most 256 entries, each of ten members, stand for |
| Delegation.OverviewTotal | src/bitheim/infrastructure/compose/adapter.py:614-690 | Any payload gives a valid overview or an `RpcError`, except that a `ValueError` escapes exactly when the subversion holds a lone surrogate, or all else is right and a hash is not 64 lower-case digits |
| Delegation.OthersTotal | src/bitheim/infrastructure/compose/adapter.py:949-1014 | Any payload gives a valid block, mempool or canonical peer list, or `RpcMalformedResponseError` |
| Delegation.UpperCaseHashEscapes | src/bitheim/infrastructure/compose/adapter.py:649-690 | Every payload whose only fault is an upper-case or newline-terminated block hash escapes as `ValueError` |
| Delegation.SurrogateEscapes | src/bitheim/infrastructure/compose/adapter.py:621-627 | A payload whose subversion is a lone surrogate is another that escapes |
| PeerSize.WidePeersReturned | src/bitheim/infrastructure/bitcoin/rpc_client.py:727-745 | There is an answer of `getpeerinfo` for which `get_peers` returns 256 valid peers with 512-byte endpoints |
| PeerSize.SizeBoundIsNeeded | src/bitheim/infrastructure/compose/adapter.py:930-933 | That list, which `get_peers` does return, is refused on the host however it is printed |
| Json.CheckDepthExact | src/bitheim/infrastructure/compose/adapter.py:72-83 | The recursive check passes exactly when the value nests no deeper than the limit |
| Json.RejectDuplicateKeys | src/bitheim/infrastructure/compose/adapter.py:62-69 | The hook builds the dictionary of the pairs, or raises `ValueError` exactly when a name is repeated |
| Json.DistinctKeysPairwise | src/bitheim/infrastructure/bitcoin/rpc_client.py:89-96 | "Not seen before", pair by pair, is "all names differ" |
| Json.GetIff | src/bitheim/infrastructure/bitcoin/rpc_client.py:89-96 | What is looked up in a parsed object is the value of the last member of that name, and `None` exactly where there is none or it is null |
| ErrorEnvelope.CategoryRoundTrip | src/bitheim/infrastructure/compose/adapter.py:882-928 | For every class of exception and every message, what `main` prints in the container, read with newlines translated, makes the host raise the fixed image of the class if that is at most 16384 bytes and the message, stripped at its end, has no line boundary, and `RpcUnavailableError` otherwise |
| ErrorEnvelope.CategorySurvivesIff | src/bitheim/interfaces/cli.py:923-1001 | The image survives exactly under those conditions, or when it is the default anyway |
| ErrorEnvelope.HostFailureIff | src/bitheim/infrastructure/compose/adapter.py:875-930 | For all stderr, which exception the host raises: any but `RpcUnavailableError` exactly when at most 16384 bytes hold an envelope with the word for it, alone or before one line that begins with "bitheim: error:" |
| ErrorEnvelope.CategoryWords | src/bitheim/interfaces/cli.py:923-936 | The word that each class of exception is given in the container |
| ErrorEnvelope.StderrWords | src/bitheim/interfaces/cli.py:939-1001 | The two lines that `main` writes: the envelope with its three members, and the human line |
| Health.HealthySound | src/bitheim/infrastructure/compose/adapter.py:1122-1173 | The host calls a report HEALTHY exactly when its state word is "healthy", its chain "regtest" and its version numerically 310100, and INCOMPATIBLE exactly when the word is "incompatible", or "healthy" with another chain or version |
| Health.ReadHealthExact | src/bitheim/infrastructure/compose/adapter.py:1146-1173 | What the host makes of any report's members: the state of the state word, INCOMPATIBLE for a claim of health that chain and version do not bear out, and each other field by its member |
| Health.HostHealthExact | src/bitheim/infrastructure/compose/adapter.py:1130-1147 | And of any output at all: which is empty, which is malformed, and which has members to read |
| Health.FloatVersionBelieved | src/bitheim/infrastructure/compose/adapter.py:1158-1169 | A version written as 310100.0 is believed, and the health then carries no version |
| Health.HealthyShowsVersionIff | src/bitheim/infrastructure/compose/adapter.py:1126-1173 | A health read as HEALTHY keeps the promise of chain and version "with correct types" exactly when the report gives the version as an integer |
| Health.HealthRoundTrip | src/bitheim/interfaces/cli.py:476-489 | A health printed by `status --json` is re-read unchanged exactly when it is not a HEALTHY that breaks the contract |
| Health.ProbeSurvives | src/bitheim/infrastructure/bitcoin/rpc_probe.py:55-141 | Every health the container's probe can produce survives printing and re-reading |
| Health.ExchangeExact | src/bitheim/infrastructure/bitcoin/rpc_probe.py:144-207 | What each kind of exchange with the node comes to: a result exactly of a good answer, and else which state and details |
| Health.ProbeReads | src/bitheim/infrastructure/bitcoin/rpc_probe.py:86-141 | What the probe finds once both exchanges gave a result, member by member: ready, another chain, another version, or malformed |
| Health.ProbeFails | src/bitheim/infrastructure/bitcoin/rpc_probe.py:55-100 | What it finds when it cannot ask, or when an exchange fails |
| Health.ProbeHealthy | src/bitheim/infrastructure/bitcoin/rpc_probe.py:55-141 | The probe answers HEALTHY exactly when time was given, the cookie was readable, and both exchanges succeeded with chain "regtest" and version 310100 |
| Health.HealthyIsTrue | src/bitheim/infrastructure/compose/adapter.py:1122-1173 | End to end: the host reads HEALTHY exactly when the node itself gave those answers |
| ServiceSpec.PollOnce | src/bitheim/application/service.py:99-143 | A round that asks for another one began before the deadline and leaves at least one half-second round fewer, so the loop terminates for every clock and every health sequence |
| Service.LifecycleService.StartNode | src/bitheim/application/service.py:59-157 | `start_node` runs exactly as `ServiceSpec.StartNode` says |
| Service.LifecycleService.PollUntil | src/bitheim/application/service.py:99-157 | The loop, round by round, runs exactly as `ServiceSpec.Poll` says |
| Service.LifecycleService.ProbeAndWait | src/bitheim/application/service.py:100-143 | One round runs exactly as `ServiceSpec.PollOnce` says |
| Service.LifecycleService.StopNode | src/bitheim/application/service.py:159-188 | `stop_node` runs exactly as `ServiceSpec.StopNode` says |
| ServiceSafety.PollProbes | src/bitheim/application/service.py:99-143 | At most ceil(2 * time left) probes are sent, each before the deadline and with a budget of min(2, what is left), and each nap begins before it and takes min(0.5, what is left) |
| ServiceSafety.StartNodeProbes | src/bitheim/application/service.py:59-157 | The whole call of `start_node` sends at most ceil(2 * timeout) probes |
| ServiceSafety.PollEnds | src/bitheim/application/service.py:99-143 | With honoured timeouts and instant local work the loop is over by its deadline |
| ServiceSafety.StartNodeEnds | src/bitheim/application/service.py:75-157 | Under the same conditions `start_node` is over within 15 + 2 * timeout seconds |
| SlowestStart.SlowestRun | src/bitheim/application/service.py:84-157 | One script of instant local work and honoured timeouts in which `start_node` lasts exactly 15 + 2 * timeout seconds and ends in `StartupTimeoutError` |
| SlowestStart.StartNodeBoundExact | src/bitheim/application/service.py:84-157 | Hence a number of seconds bounds all such runs exactly when it is at least 15 + 2 * timeout; `timeout` itself never does |
| ServiceSafety.StartNodeHealthy | src/bitheim/application/service.py:59-143 | A normal return is a HEALTHY status of the named node, and the last command run was a delegated probe whose report shows chain "regtest" and version 310100 |
| ServiceSafety.StartNodeOutcomes | src/bitheim/application/service.py:59-157 | Every run refuses bad arguments before doing anything, or ends in a HEALTHY status, `NodeIncompatibleError`, or an error of the port, `StartupTimeoutError` among them; an undocumented exception gets out exactly when a command raised one or the timeout of a named node is a huge integer |
| Readiness.PollDecides | src/bitheim/application/service.py:115-138 | The polling returns exactly when its last command is a delegated probe whose report shows health, and raises `NodeIncompatibleError` exactly when that report shows another network or version; no earlier report of the loop showed either |
| Readiness.TimeoutMeansUndecided | src/bitheim/application/service.py:99-143 | A polling that ended in `StartupTimeoutError` had no report that showed health or another network or version |
| Readiness.PollTold | src/bitheim/application/service.py:99-143 | What the polling answers is a function of what its commands showed: those two, what was raised unforeseen, `RuntimeUnavailableError` exactly of a last probe that lost sight of the node, and `StartupTimeoutError` in all other runs; the returned health is what the last report says |
| Readiness.StartNodeDecides | src/bitheim/application/service.py:59-157 | `start_node` raises `NodeIncompatibleError` exactly when `up` was run and the last command is a delegated probe whose report shows another network or version; it returns exactly when that report shows health and `up` was run or the first look showed a running node, and then with that report's health |
| Readiness.NodeTimeoutMeansUndecided | src/bitheim/application/service.py:59-157 | A `start_node` that ended in `StartupTimeoutError` had no report after its `up` that showed health or another network or version |
| Progress.PollProgress | src/bitheim/application/service.py:99-143 | The polling raises `StartupTimeoutError` only when its time is over |
| ServiceSafety.PollCutShortIff | src/bitheim/application/service.py:99-143 | The polling ends in `RuntimeUnavailableError`, whatever time is left, exactly when its last probe found the daemon alive but observed no state |
| ServiceSafety.PollCutShort | src/bitheim/application/service.py:99-143 | A daemon check of two seconds, honoured, is a run in which this happens after two seconds of any longer budget |
| Unforeseen.StartTransparent | src/bitheim/infrastructure/compose/adapter.py:321-387 | `start` lets an unforeseen exception out exactly when one of its commands raised one |
| Unforeseen.PollTransparent | src/bitheim/application/service.py:99-143 | The polling loop lets an unforeseen exception out exactly when one of its commands raised one |
| Unforeseen.StopTransparent | src/bitheim/infrastructure/compose/adapter.py:389-457 | `stop` lets an unforeseen exception out exactly when one of its commands raised one |
| ServiceSafety.StatusErrors | src/bitheim/infrastructure/compose/adapter.py:539-543 | `get_status` never raises `StartupTimeoutError`: only `RuntimeUnavailableError`, or what was raised unforeseen |
| ServiceSafety.StopNodeSafe | src/bitheim/application/service.py:159-188 | Every run of `stop_node` refuses bad arguments before doing anything, keeps its one deadline, runs at most one `stop`, that right after seeing the node in another state, returns a STOPPED status exactly when the last thing it did was to see the node STOPPED, and fails only with the documented errors or what was raised unforeseen |
| ServiceSafety.StopNodeEnds | src/bitheim/application/service.py:159-188 | With honoured timeouts and instant local work `stop_node` is over within its timeout |
| ServiceSafety.StartNodeHasOneUp | src/bitheim/application/service.py:83-143 | `start_node` runs at most one `up`, however long it polls |
| ServiceSafety.HealthyLeftAlone | src/bitheim/application/service.py:83-90 | When the node is already healthy `start_node` runs only read-only commands |
| Validation.NodeIdIdempotent | src/bitheim/application/service.py:30-40 | Validating an identifier twice changes nothing, and identifiers are left as they are |
| Validation.NodeIdRule | src/bitheim/application/service.py:30-40 | An identifier is accepted exactly when, stripped, it consists of letters, digits, underscores and hyphens and begins with a letter or a digit |
| RpcSpec.Drain | src/bitheim/infrastructure/bitcoin/rpc_client.py:313-345 | The chunk loop terminates for every stream, with measure 4 MiB minus the bytes read, and every read begins before the deadline with a timeout of exactly the time left |
| RpcSpec.Send | src/bitheim/infrastructure/bitcoin/rpc_client.py:223-301 | One request opens and reads only before the shared deadline, each time with exactly the time left |
| RpcSpec.OverviewBy | src/bitheim/infrastructure/bitcoin/rpc_client.py:412-517 | Both requests of the node lookup share one deadline: every open and read gets what is left of it |
| RpcSpec.BlockBy | src/bitheim/infrastructure/bitcoin/rpc_client.py:542-570 | Both requests of the block lookup share one deadline: every open and read gets what is left of it |
| RpcClient.BitcoinRpcClient.ReadBody | src/bitheim/infrastructure/bitcoin/rpc_client.py:315-345 | The chunk loop runs exactly as `RpcSpec.Drain` says |
| RpcClient.BitcoinRpcClient.ReadEnvelope | src/bitheim/infrastructure/bitcoin/rpc_client.py:313-393 | Reading and judging a response runs exactly as `RpcSpec.Envelope` says |
| RpcClient.BitcoinRpcClient.HandleResponse | src/bitheim/infrastructure/bitcoin/rpc_client.py:271-295 | Each way an open can end is handled exactly as `RpcSpec.AfterOpen` says |
| RpcClient.BitcoinRpcClient.SendRequest | src/bitheim/infrastructure/bitcoin/rpc_client.py:223-301 | A request runs exactly as `RpcSpec.Send` says |
| RpcClient.BitcoinRpcClient.GetNodeOverview | src/bitheim/infrastructure/bitcoin/rpc_client.py:395-517 | `get_node_overview` runs exactly as `RpcSpec.GetNodeOverview` says |
| RpcClient.BitcoinRpcClient.GetBlock | src/bitheim/infrastructure/bitcoin/rpc_client.py:519-570 | `get_block` runs exactly as `RpcSpec.GetBlock` says |
| RpcClient.BitcoinRpcClient.GetMempool | src/bitheim/infrastructure/bitcoin/rpc_client.py:635-655 | `get_mempool` runs exactly as `RpcSpec.GetMempool` says |
| RpcClient.BitcoinRpcClient.GetPeers | src/bitheim/infrastructure/bitcoin/rpc_client.py:710-745 | `get_peers` runs exactly as `RpcSpec.GetPeers` says |
| RpcClient.BitcoinRpcClient.CollectPeers | src/bitheim/infrastructure/bitcoin/rpc_client.py:727-745 | The loop with its set of seen identifiers and its sort computes `PeersOf` |
| RpcSafety.DrainExact | src/bitheim/infrastructure/bitcoin/rpc_client.py:315-345 | The loop returns normally exactly when its reads ran up to a first empty chunk in time, and then returns the concatenation of the chunks before it, at most 4 MiB |
| RpcSafety.BodyAnswers | src/bitheim/infrastructure/bitcoin/rpc_client.py:347-393 | A result is taken from exactly the bodies that are UTF-8 text of a JSON object without repeated names, at most 32 deep, with the request's id, a null error and that non-null result |
| RpcSafety.EnvelopeSound | src/bitheim/infrastructure/bitcoin/rpc_client.py:313-393 | A result comes exactly from one full read, in time and in size, of such a body |
| RpcSafety.OnlySuccessAnswers | src/bitheim/infrastructure/bitcoin/rpc_client.py:271-295 | No HTTP error response, in particular no status 500, ever yields a normal return |
| RpcSafety.SendSound | src/bitheim/infrastructure/bitcoin/rpc_client.py:223-301 | A result means an allowed method, one request, and one full answer to it, all before the deadline |
| RpcSafety.SendAsksOnce | src/bitheim/infrastructure/bitcoin/rpc_client.py:223-301 | In every run, failing ones included, at most one request is sent, it is of the given method and parameters, and it precedes all reads |
| RpcSafety.OverviewOrder | src/bitheim/infrastructure/bitcoin/rpc_client.py:414-451 | `getblockchaininfo` is asked for only after the network facts were received and judged good |
| RpcSafety.OverviewSound | src/bitheim/infrastructure/bitcoin/rpc_client.py:395-517 | A returned overview is valid and was assembled before the deadline |
| RpcSafety.OverviewEscapesIff | src/bitheim/infrastructure/bitcoin/rpc_client.py:426-517 | Every run ends in an overview, an `RpcError` or what the world raised unforeseen, except that a `ValueError` escapes exactly when a good answer carries a lone surrogate in its subversion or chain |
| RpcSafety.SurrogateEscapes | src/bitheim/infrastructure/bitcoin/rpc_client.py:425-433 | An answer in good order, in time and with the right version, whose subversion is a lone surrogate, is an input on which it escapes |
| RpcSafety.BlockSound | src/bitheim/infrastructure/bitcoin/rpc_client.py:542-570 | `getblock` is asked for only with a resolved, well-formed hash; a returned block is valid, in time, and has that hash |
| RpcSafety.GetBlockSound | src/bitheim/infrastructure/bitcoin/rpc_client.py:519-570 | Every run of `get_block` keeps its deadline and fails only with an `RpcError` or what was raised unforeseen; a returned block is valid, in time, and the one asked for by hash |
| RpcSafety.GetMempoolSound | src/bitheim/infrastructure/bitcoin/rpc_client.py:635-655 | Every run of `get_mempool` keeps its deadline, sends at most one request, and fails only with an `RpcError` or what was raised unforeseen; a returned summary is valid and read from one full answer before the deadline |
| RpcSafety.GetPeersSound | src/bitheim/infrastructure/bitcoin/rpc_client.py:710-745 | Every run of `get_peers` keeps its deadline, sends at most one request, and fails only with an `RpcError` or what was raised unforeseen; a returned list is strictly increasing, at most 256 long, of valid peers, and read from one full answer before the deadline |
| RpcSafety.GetNodeOverviewSound | src/bitheim/infrastructure/bitcoin/rpc_client.py:395-517 | Every run of `get_node_overview` refuses a bad timeout before doing anything or keeps its deadline; a returned overview is valid and in time; failures are `RpcError`s, what was raised unforeseen, or the `ValueError` exactly of a lone surrogate in a good answer |
| RpcReading.GetNodeOverviewIff | src/bitheim/infrastructure/bitcoin/rpc_client.py:395-517 | `get_node_overview` returns an overview exactly when the answers to its two requests have each of the twelve members at that field's value, all valid |
| RpcReading.IncompatibleIff | src/bitheim/infrastructure/bitcoin/rpc_client.py:443-499 | It reports incompatibility exactly when a network answer in good order has another version than 310100, or a chain answer in good order another chain than "regtest" |
| RpcReading.OverviewFails | src/bitheim/infrastructure/bitcoin/rpc_client.py:395-517 | Otherwise it fails with the error of the request that failed, or by its answers |
| RpcReading.GetBlockIff | src/bitheim/infrastructure/bitcoin/rpc_client.py:519-633 | `get_block` returns a block exactly when one way to name it was given, the resolved hash is the block's, and the answer to `getblock` for that hash has each of the nine members at its value |
| RpcReading.BlockFails | src/bitheim/infrastructure/bitcoin/rpc_client.py:542-570 | Otherwise it fails with the error of the first request that failed, or `RpcMalformedResponseError` |
| RpcReading.GetMempoolIff | src/bitheim/infrastructure/bitcoin/rpc_client.py:635-708 | `get_mempool` returns a summary exactly when the answer has each of the six members at its value, the fee total being the satoshis of the decimal |
| RpcReading.GetPeersIff | src/bitheim/infrastructure/bitcoin/rpc_client.py:710-818 | `get_peers` returns a list exactly when it is the increasing arrangement of what at most 256 entries, each read by its ten members, stand for; -1 is an unknown height |
| RpcReading.LookupsFail | src/bitheim/infrastructure/bitcoin/rpc_client.py:635-745 | Otherwise both fail with the error of their request or `RpcMalformedResponseError` |
| RpcReading.SendRefusals | src/bitheim/infrastructure/bitcoin/rpc_client.py:223-270 | What comes before a request is sent, in order: another method than the six, a deadline that is over, no cookie, a deadline that is over, an integer too long to be written |
| RpcReading.OpenExact | src/bitheim/infrastructure/bitcoin/rpc_client.py:271-295 | What each way of opening leads to: 401 and 403 are authentication errors, 500 is read and is at best a protocol error, a timeout a timeout, all else unavailable |
| RpcReading.AnswerExact | src/bitheim/infrastructure/bitcoin/rpc_client.py:347-393 | Which error a body gives: not found exactly for the code -5, a protocol error exactly for another code, malformed for all else that is no result |
| RpcReading.DrainClass | src/bitheim/infrastructure/bitcoin/rpc_client.py:315-345 | How the chunk loop fails: by its last read, by more than 4194304 bytes, or because the time is over |
| RpcSafety.HugeHeightUnsent | src/bitheim/infrastructure/bitcoin/rpc_client.py:244-253 | A height of more than 4300 digits cannot be serialised: `get_block` then sends nothing and fails with an `RpcError` |
| RpcSafety.LookupsEnd | src/bitheim/infrastructure/bitcoin/rpc_client.py:395-745 | With instant local work, and opens and reads that honour their timeouts, each of the four lookups is over within its timeout, however many requests it makes |
| RpcSafety.PeersSound | src/bitheim/infrastructure/bitcoin/rpc_client.py:727-745 | On success the peers are strictly increasing in identifier, at most 256, valid, and a permutation of the parsed items |
| RpcSafety.PeersUnordered | src/bitheim/infrastructure/bitcoin/rpc_client.py:727-745 | Any permutation of the RPC array gives the same outcome |
| Peers.CanonicalSound | src/bitheim/infrastructure/bitcoin/rpc_client.py:727-745 | Success means all items parsed, strictly increasing identifiers and the same peers as were parsed |
| Peers.CanonicalIff | src/bitheim/infrastructure/bitcoin/rpc_client.py:727-745 | The outcome is a given list exactly when at most 256 items, all good, are a permutation of it and it is strictly increasing |
| Peers.CanonicalPermutation | src/bitheim/infrastructure/bitcoin/rpc_client.py:727-745 | The outcome, success or failure, does not depend on the order of the items |
| Peers.CanonicalFixed | src/bitheim/infrastructure/compose/adapter.py:1013-1014 | A canonical list is its own canonical form |
| Peers.RepeatRefused | src/bitheim/infrastructure/bitcoin/rpc_client.py:739-740 | Two items with one identifier make the whole list malformed |
| RpcSafety.OverviewArrives | src/bitheim/infrastructure/bitcoin/rpc_client.py:395-517 | An overview returned in the container and printed within the size bound arrives on the host unchanged |
| RpcSafety.BlockArrives | src/bitheim/infrastructure/bitcoin/rpc_client.py:519-570 | A block returned in the container and printed within the size bound arrives on the host unchanged |
| RpcSafety.MempoolArrives | src/bitheim/infrastructure/bitcoin/rpc_client.py:657-708 | A mempool summary returned in the container and printed within the size bound arrives on the host unchanged |
| RpcSafety.PeersArrive | src/bitheim/infrastructure/bitcoin/rpc_client.py:710-745 | Any list `get_peers` can return, printed within the size bound, arrives on the host unchanged |
| EndToEnd.PeersEndToEnd | src/bitheim/infrastructure/compose/adapter.py:808-834 | A run of `inspect_peers` whose delegated command printed the list that `get_peers` returned in the container returns that list |
| EndToEnd.OverviewEndToEnd | src/bitheim/infrastructure/compose/adapter.py:567-690 | A run of `inspect_node` whose delegated command printed the overview of a run of the client returns that overview |
| EndToEnd.BlockEndToEnd | src/bitheim/infrastructure/compose/adapter.py:692-763 | A run of `inspect_block` whose delegated command printed the block of a run of the client returns that block |
| EndToEnd.MempoolEndToEnd | src/bitheim/infrastructure/compose/adapter.py:765-806 | A run of `inspect_mempool` whose delegated command printed the summary the client returned returns that summary |
| EndToEnd.ErrorEndToEnd | src/bitheim/infrastructure/compose/adapter.py:882-928 | An inspection whose delegated command failed with what `main` prints ends in the image of the failure if its stderr is legible, and in `RpcUnavailableError` otherwise |
| EndToEnd.HealthEndToEnd | src/bitheim/infrastructure/compose/adapter.py:513-535 | A run of `probe_health` whose delegated command printed the health found in the container returns that health |
| RpcSafety.MempoolSound | src/bitheim/infrastructure/bitcoin/rpc_client.py:657-708 | An accepted summary is valid, and its fee total is the exact number of satoshis whenever the fee has at most 28 digits and stays in the exponent range |
| Fees.ExactUpTo28Digits | src/bitheim/infrastructure/bitcoin/rpc_client.py:687-696 | For every fee of at most 28 significant digits within the exponent range, the conversion accepts exactly whole numbers of satoshis and returns exactly that number |
| Fees.ConversionRightIff | src/bitheim/infrastructure/bitcoin/rpc_client.py:687-696 | For every fee at all, exactly when the conversion gives the right answer: no non-zero digit lost beyond the 28th, or one lost and the rest still fractional, or an overflow of a fractional amount |
| Fees.TwentyNineDigitsMisread | src/bitheim/infrastructure/bitcoin/rpc_client.py:687-696 | 28 is needed: a whole 29-digit number of satoshis is accepted as another one |
| Fees.RoundingErrorBound | src/bitheim/infrastructure/bitcoin/rpc_client.py:689 | The amount worked with is within half a unit of the last kept place of the true one, for every fee that does not overflow |
| Fees.ExactSatoshisIff | src/bitheim/infrastructure/bitcoin/rpc_client.py:687-696 | The right amount, in powers of ten: `c * 10^(e+8)`, or `c` as that multiple of the power that has to be dropped |
| Fees.HalvesToEven | src/bitheim/infrastructure/bitcoin/rpc_client.py:689 | A half of the last kept place is rounded to the even neighbour |
| Fees.OverflowsIff | src/bitheim/infrastructure/bitcoin/rpc_client.py:689 | A fee overflows exactly when its satoshis have more than a million digits before the point, or come to that by rounding |
| Fees.TinyFeeIsZero | src/bitheim/infrastructure/bitcoin/rpc_client.py:687-696 | Fees below the smallest exponent are another family: `10^e` coins for e of at most -1000035 is accepted as no satoshi at all |
| Fees.DroppedRule | src/bitheim/infrastructure/bitcoin/rpc_client.py:689 | How many digits the multiplication drops: those beyond the 28th, or beyond the exponent -1000026 |
| Fees.SignRule | src/bitheim/infrastructure/bitcoin/rpc_client.py:679-686 | Minus zero is zero, and any other fee below it, an infinity and a NaN are refused |
| Configuration.Loader.Load | src/bitheim/bootstrap/configuration.py:171-415 | It succeeds exactly when the file (if any) is readable with a known schema and every value of every layer is valid, overridden or not; each setting is then the highest layer's, validating the result again changed nothing, and the origin is the highest layer that set anything. A failure has the class of the first bad value: `ValueError` exactly for an undecodable file, `OverflowError` exactly when that value is a huge integer as a timeout, else `ConfigurationError` |
| Configuration.LoadErrorClass | src/bitheim/bootstrap/configuration.py:202-205 | For all inputs, which exception is raised: none exactly on acceptable ones, `ValueError` exactly for an undecodable file, `OverflowError` exactly when the first bad value, lowest layer first, is a timeout that is an integer beyond the range of floats, and the documented `ConfigurationError` otherwise |
| Configuration.HugeTimeoutEscapes | src/bitheim/bootstrap/configuration.py:91-94 | A file that holds nothing but such a `startup_timeout` is an input on which the undocumented exception is raised, whatever the other layers say |
| Configuration.TruthTimeout | src/bitheim/bootstrap/configuration.py:91-115 | A true boolean passes as the timeout 1.0, a false one is refused |
| Configuration.SettingsRead | src/bitheim/bootstrap/configuration.py:334-415 | Each of the five settings of the result is what its validator makes of the value on the command line, else in its variable, else under its name in its table of the file, else its default, variable, table and name written out |
| Configuration.AcceptableIff | src/bitheim/bootstrap/configuration.py:171-389 | Loading succeeds exactly when the file is usable and every value that any layer gives, under those names, is good |
| Configuration.OriginRead | src/bitheim/bootstrap/configuration.py:334-415 | The origin, by the same names |
| Configuration.ValidatorsExact | src/bitheim/bootstrap/configuration.py:45-115 | What each validator accepts and what it makes of it |
| Configuration.Loader.Apply | src/bitheim/bootstrap/configuration.py:334-389 | One layer overwrites exactly what it supplies, and fails exactly when one of its values is invalid, with the error of the first such value |
| Configuration.OverlayIsHighest | src/bitheim/bootstrap/configuration.py:181-187 | Writing the layers over one another, lowest first, is "command line else environment else file else default", setting by setting |
| Configuration.ValidatorsIdempotent | src/bitheim/bootstrap/configuration.py:45-115 | Each validator accepts its own results and leaves them alone, host bits of a block having been cleared |
| Configuration.EffectiveIsFixed | src/bitheim/bootstrap/configuration.py:145-153 | Whatever the layers come to passes `__post_init__` unchanged |
| Redaction.SanitizeData | src/bitheim/bootstrap/logging.py:37-53 | The recursion with its loops computes `Sanitize` on list, tuple and mapping trees |
| Redaction.SanitizeTwice | src/bitheim/bootstrap/logging.py:37-53 | Sanitising sanitised data changes nothing, also where keys coincide after `str` |
| Redaction.NonInterference | src/bitheim/bootstrap/logging.py:39-47 | Data that differ only under sensitive keys, at any depth, sanitise to equal outputs |
| Redaction.OnlySecretsAreHidden | src/bitheim/bootstrap/logging.py:37-53 | Where keys stay distinct, the outputs are equal exactly when the data agree outside sensitive keys, so nothing else is lost |
| Redaction.PathsKept | src/bitheim/bootstrap/logging.py:39-53 | Whatever is not under a sensitive key is found, sanitised, at the path it had, and nothing new appears |
| Redaction.SecretsReplaced | src/bitheim/bootstrap/logging.py:44-45 | At a sensitive key there is the marker and nothing below it, whatever was there |
| Redaction.KeyShown | src/bitheim/bootstrap/logging.py:37-53 | At every key there is the text "[REDACTED]" if some stretch of the key, in lower case, is one of ten words, written out, and otherwise the sanitised value that stood there |
| Redaction.RestShown | src/bitheim/bootstrap/logging.py:46-53 | Scalars are shown as they are, other objects by their text, lists and tuples item by item |
| Redaction.PasswordHidden | src/bitheim/bootstrap/logging.py:13 | A password is hidden under any key that holds the word, also in capitals |
| Redaction.LookupPut | src/bitheim/bootstrap/logging.py:40-47 | Storing under a key is read back and disturbs no other key |
| Text.LinesIff | src/bitheim/infrastructure/compose/adapter.py:180 | `splitlines` gives exactly the stretches between line boundaries, the pair "\r\n" counting as one |
| Text.WordsIff | src/bitheim/infrastructure/compose/adapter.py:212 | `split` gives exactly the stretches without white space that cannot be lengthened |
| Text.StripExact | src/bitheim/infrastructure/compose/adapter.py:1074 | `strip` drops exactly the white space at both ends |
| Text.LowersTo | src/bitheim/infrastructure/compose/adapter.py:1103 | Text lowers to an ASCII word exactly when it spells it in small and capital letters |

## Left out

- The text of JSON: `json.loads` is a function parameter from text to trees, and `json.dumps` any text that it reads back; a number or nesting that makes the library itself raise something else than a decoding error is not modelled.
- Rounding of floats: clock values, timeouts and ping times are reals, and printing and reading a float is taken to be the identity.
- The cookie file and base64: reading the cookie is one step of the script that succeeds or fails.
- The order of errors inside one class, messages, the suffix with the last health in the startup timeout message, and all logging but redaction.
- The limit of 4300 digits on converting integers is taken at the interpreter's default; it is modelled where a caller's height is written out and where a prefix length is read, and is part of `json.loads` and of the file reader elsewhere.
- Subclasses of `int`, `str` and `dict` passed by Python callers, and arguments of other types than the boundary checks test for.
- `ip_network` for IPv6 text, and `is_private`: both are parameters, the second because the library predicate is wider than section 3 of RFC 1918.
- `Path` and `expanduser`: a parameter from text to text; its own failure is not modelled.
- What Docker Compose itself adds to the output streams of a delegated command, and the environment passed to it.
- `NodeHealth.protocol_version`, which no modelled code sets.
- `NodeObservationService`, which forwards to the client after argument checks of its own.
- Order of iteration over Python sets in `_sanitize_data`: sets are not among the modelled data.
- Command-line parsing, human-readable output, `doctor` and the diagnostics, resource location, Dockerfiles and Compose files: plumbing without deep invariants.
- Wallets, mining and labnet difficulty: specified in the documents, absent from the source.
- World.Issue: the exceptions that `subprocess.run` may raise beyond time-outs and `OSError` are one case, `Raised`, which every caller lets through as `OtherException`; a `UnicodeDecodeError` among them is a `ValueError` in Python.
- AdapterSpec.GetStatus: its two budgets are separate, so no common deadline is stated; `ServiceSafety.StartNodeEnds` uses the sum of fifteen seconds.
- Containers.ReadPs: the exceptions of `json.loads` that are not decoding errors are not modelled.
- Delegation.PeersRoundTrip: the size of the printed text is a hypothesis; `PeerSize.SizeBoundIsNeeded` shows why it cannot be dropped.
- ErrorEnvelope.CategoryRoundTrip: that an envelope is dumped on one line of printable ASCII and reads back is a hypothesis about `json`.
- Health.ProbeSurvives: equality of healths is that of the dataclass, under which `True` equals 1.
