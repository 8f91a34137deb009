# AWG Control: a verified model of its protocols

AWG Control is a panel that manages AmneziaWG/WireGuard servers and UDP relays over SSH. Its hard part is what happens
when a step fails, an answer is lost, or a process dies half-way. This project models the five connected pieces that
deal with this, and proves what they promise.

| part | modules |
|---|---|
| Relay transaction engine: journal, snapshot, apply, verify, rollback, recovery | `RelayRoutes`, `RelayTable`, `RelayEngine` |
| Panel side of the relay protocol: operations, retries, reconciliation, composed with the engine | `PanelPlan`, `RelayPanel` |
| Configuration document and IPv4 allocator | `Ipv4`, `ConfigLines`, `ConfigDocument`, `AddressPool` |
| VPN helper: create, disable, enable, revoke, policies, enforcement, journal, file locks | `HelperJournal`, `HelperLocks`, `HelperPeers`, `HelperModel`, `HelperPolicy`, `HelperPass`, `HelperCreate`, `HelperService` |
| Traffic accounting, canonical JSON, client configuration and relay endpoints | `Traffic`, `Accounting`, `StableJson`, `RouteJson`, `ClientConfig`, `RelayEndpoint` |

`Text` and `Order` hold what the others share: strings, joining and splitting, decimal numbers, insertion sort.

## How failures are modelled

The files of a host are fields of a class (`RelayService`, `Service`, `Journal`), the tables of the Panel are fields of
`Panel` and `Repository`. Every write and every call of the runtime is a method of its own. When `faults` is set, each of
them may do nothing and report an error, may take effect and still report an error where the original can, or may be
the last thing the process ever does. A postcondition that mentions no `faults` therefore holds at every crash point,
and the next call starts from whatever the crash left. Without `faults` everything takes effect, and the
postconditions become exact: when an operation succeeds, and what it then leaves.

The calls of the helper also take, as an argument, the steps that are to fail (`Stage`), so that a theorem can say what a
call leaves for every set of failing steps, decided by the state before it.

What a run has done is recorded in ghost fields that no step of the original reads: `commits`, `applied` and
`settled` on a relay, `successes` and `sawBusy` in the Panel, `history` beside a journal, `trace` of the lock and file
steps of one helper process, `samples`, `credits` and `deleted` beside the traffic tables. The invariants (`Valid`)
tie them to the real fields; each method keeps them, and the theorems are read off them.

The helper's results about conservation and disjoint addresses speak of the peers as the files say them: for every peer
section, the keys and the addresses it routes. Their premise is that connection ids and keys correspond one to one
(`Paired`) and that a generated key is new; `Service.Run` makes a call only if it meets this. Hashes and fingerprints are the
hashed value itself, so that they are equal exactly if the values are.

The network between Panel and relay may lose the request, lose the answer, or leave the relay working on a request the
Panel has stopped waiting for (`inFlight`), while the lock it holds makes the relay answer `RELAY_BUSY` to everybody else.
What happens to each call (`Fate`) and between the calls (`Move`) is an argument, so that a theorem can say "for every
network" as well as "for this one".

## Definitions described twice

A function that a method calls and its contract names would hide its own mistakes. Such functions are therefore
described a second time without them, and the methods state that description: fingerprints by the three files
(`Foreseen`), planned operations by rows, body and discovery (`MayBegin`, `Asks`), the nginx text by the lines for each route
(`RenderForwards`), addresses and prefixes by numbers (`UpstreamBlocks`, `PublicBlocks`, `PrefixText`, `Usable`), lines of
configurations by what they read as (`PropertyMeans`, `EqualFoldMeans`, `HeaderMeans`, `FieldMeans`), enforcement by usage,
limit, date and time (`Judged`), projections field by field (`TakesOver`), repeated ids case by case (`AnswersFrom`),
traffic rows by the multiples of an hour and a day (`StartsHour`, `StartsDay`, `Booked`), quoted strings by a reader
(`QuoteReads`).

## Where the code falls short of its promise

* `RelayPanel.Panel.BusyWhileRunning` and `BusyAfterCommit`: the Panel takes `RELAY_BUSY` for a definite failure
  (`apps/api/src/relay/service.ts:373-385`). An operation still running on the relay is recorded as failed and may
  commit afterwards; an operation already committed is recorded as failed if the confirming status call finds the lock
  taken, for instance by the status call of the polling worker (`apps/api/src/worker.ts:63-66`). "Failed means not
  applied" holds as long as no call was answered busy.
* `RelayPanel.Panel.Reconcile`: an undisturbed reconcile does not settle an operation that the relay has committed if
  the Panel cannot store it; as long as that lasts it never does, and every other operation of that relay is blocked. There
  are two cases. `validStatus` refuses a status with more than a hundred routes (`apps/api/src/relay/service.ts:56`), a limit that
  neither the relay nor the Panel's own planning has. And a row can clash with another relay's row of the same instance
  (`apps/api/migrations/0006_udp_relays.sql:13`), since other relays are only looked at when an operation is planned
  (`apps/api/src/relay/service.ts:272-277`): `RelayPanel.Panel.RoutedTwice`.
* `HelperService.Service.PassReverts`: a pass reads the policies once (`internal/helper/service.go:631`) and writes its list
  at the end (`internal/helper/service.go:703`), while the disables it calls write the policies themselves. If such a call
  saves the policies and then fails to save the instance record or the success record, and only then
  (`HelperPass.PassByPolicy`), the pass takes the suspension back: the policy is active, its peer cut off.
* `HelperPass.LongIdNeverCut`: connection ids may have up to 128 characters (`internal/helper/state.go:361-371`), and so may
  operation ids, of which snapshots are named (`internal/helper/state.go:274-277`). The id a pass makes puts 17 characters
  around the connection's while minutes have eight digits (`internal/helper/service.go:686`), so that a connection id of 112
  characters or more makes every pass fail for it: the peer is never cut off.
* `ConfigDocument.ParsePrint`: printing a parsed document gives the same bytes if and only if its newlines are uniform and
  the last one is there.
* `ConfigDocument.PrintParse`: reparsing a printed document gives back the same lines if and only if it uses CR LF or has no line
  that ends in a bare CR, and is not the empty document with a final newline. What section a line is in, what a
  peer's fields are and which keys are found is the same in all cases.
* `ConfigDocument.AddedPrefix`: the old text is a prefix of the new one after `AddPeer` if and only if the document was not that
  hollow one; parsing never makes a hollow one, removing the last section can.

## Model

| member | source | states |
|---|---|---|
| RelayRoutes.RenderConfig | internal/relay/service.go:112-132 | The loop over the sorted routes with its two maps renders exactly the enabled ones by port, and fails exactly on an invalid route, a repeated id or a repeated port, disabled routes included |
| RelayRoutes.RenderOrderFree | internal/relay/service.go:112-132 | The text does not depend on the order of the routes: any permutation renders the same |
| RelayRoutes.RenderExact | internal/relay/service.go:112-132 | Two tables render to the same text if and only if the triples of listen port, upstream address and upstream port of their enabled routes are the same set |
| RelayRoutes.RenderForwards | internal/relay/service.go:124-132 | The text of a valid table has, for every enabled route, the lines that make nginx listen on its port and pass on to its upstream address and port |
| RelayRoutes.UpstreamBlocks | internal/relay/service.go:108-111 | As a number, the addresses accepted as upstream are all but these: zero, broadcast, 10/8, 127/8, 169.254/16, 172.16/12, 192.168/16 and 224/4 |
| RelayRoutes.UuidGroups | internal/relay/service.go:31-31 | A route id is accepted exactly if it is five groups of lower-case hexadecimal digits with version 7 and an RFC variant |
| RelayTable.ComputeTarget | internal/relay/service.go:424-455 | The loops of the four actions compute the target table, with the error of an unknown route |
| RelayTable.TargetTable | internal/relay/service.go:424-455 | Read as a map from ids to routes, a target is the table with one route put in, switched off or taken out, or the empty one |
| RelayEngine.RestoresExactly | internal/relay/service.go:266-289 | What a complete rollback leaves is the snapshot if and only if a snapshot that was active had its unit and configuration installed |
| RelayEngine.RelayService.Rollback | internal/relay/service.go:266-289 | Whenever a rollback reports success, configuration, unit, routes, active and enabled are those of the snapshot |
| RelayEngine.RelayService.RecoverEntry | internal/relay/service.go:290-316 | One journal file: a pending entry becomes failed only after its rollback is complete; a crash leaves it pending; other entries and files are untouched |
| RelayEngine.RelayService.Recover | internal/relay/service.go:290-316 | After a recovery that returns, however many were interrupted before it, all five parts of the state are exactly those of the last committed operation and nothing is pending |
| RelayEngine.RelayService.Prepare | internal/relay/service.go:407-474 | Without faults a new request is refused as a fingerprint conflict if and only if the three files are not those its fingerprint was taken of, and goes ahead if and only if they are, the relay is installed where needed, its route exists and the target is well formed; every refusal has touched nothing |
| RelayEngine.RelayService.Begin | internal/relay/service.go:475-478 | The one pending entry is written with the captured state as its Before |
| RelayEngine.RelayService.Change | internal/relay/service.go:479-522 | The steps of install and uninstall, with a crash possible between any two, end with the new configuration, unit, routes and activity |
| RelayEngine.RelayService.Verify | internal/relay/service.go:523-526 | A change is only accepted when status reports the new routes, the files as installed and, unless it was an uninstall, the service active |
| RelayEngine.RelayService.Finish | internal/relay/service.go:523-533 | The write of the succeeded entry is the commit: the history grows by this operation if and only if it took effect |
| RelayEngine.RelayService.Abort | internal/relay/service.go:536-547 | A failed transaction ends rolled back and failed, or still pending for the next recovery; a definite failure means nothing is left |
| RelayEngine.RelayService.Execute | internal/relay/service.go:475-548 | From write-ahead to commit or rollback: a success appends one commit, everything else none, and no other journal entry changes |
| RelayEngine.RelayService.Query | internal/relay/service.go:362-386 | A status is given only when nothing is pending; its fingerprint, routes and installation are those of the three files, and it says active only of an active service |
| RelayEngine.RelayService.Handle | internal/relay/service.go:317-549 | One request: invalid, busy and reading calls touch nothing; a repeat of a succeeded request returns the recorded result and touches nothing; a new request whose fingerprint is not that of the three files writes nothing and, without faults, is exactly then a fingerprint conflict; a first success extends the history by the table step from the last committed state, with the service reported active; a definite refusal leaves the last committed state; no settled entry is ever rewritten |
| RelayEngine.RelayService.StaleRequest | internal/relay/service.go:411-413 | After somebody else has changed any one of configuration, unit and route list, a new request with the fingerprint from before leaves all three, the service and the journal as they are, and without faults and another holder of the lock is answered with a fingerprint conflict |
| RelayEngine.RelayService.Run | internal/relay/service.go:317-549 | Over any run with faults and crashes, no operation id commits twice or is begun twice, and every commit was requested as it stands |
| RelayEngine.RelayService.SettledTable | internal/relay/service.go:424-459 | In every reachable settled state without outside edits, the stored table is the replay of the committed operations, ids and ports are unique, and an installed configuration is Render of the stored routes |
| PanelPlan.PublicIsValidUpstream | apps/api/src/relay/service.ts:20-35 | Every address the Panel takes for public is one the relay accepts as upstream |
| PanelPlan.PublicBlocks | apps/api/src/relay/service.ts:20-35 | As a number, the addresses the Panel takes for public are those from 1.0.0.0 to 223.255.255.255 outside 10/8, 100.64/10, 127/8, 169.254/16, 172.16/12 and 192.168/16 |
| PanelPlan.SameRoutesTable | apps/api/src/relay/service.ts:335-344 | The Panel's comparison of sorted routes holds if and only if both lists are the same table |
| PanelPlan.PlanAsks | apps/api/src/relay/service.ts:207-321 | An operation is refused exactly for an undiscovered or private host, a bad or taken port, or an unknown route; otherwise an apply asks for the enabled route from the requested or else the discovered port to the discovered host and port, under the id of the previous row of its instance or else a fresh one, and leaves all rows of other instances; a disable switches off one row, a remove takes out one, an uninstall all |
| PanelPlan.PlanTable | apps/api/src/relay/service.ts:207-321 | What the Panel will store and what it asks of the relay agree: the planned rows are the relay's own table step, and the request is valid |
| RelayPanel.BelievedUpTo100 | apps/api/src/relay/service.ts:36-72 | A true status for a stored route set passes validStatus if and only if it has at most a hundred routes |
| RelayPanel.Panel.Call | apps/api/src/relay/service.ts:88-117 | One call for each fate of it: an answer speaks for the relay as it now is; whoever finds the lock taken is answered busy and changes nothing; without faults a delivered request is committed afterwards exactly if the relay took it |
| RelayPanel.Panel.BeginOp | apps/api/src/relay/service.ts:197-321 | A new operation is stored pending if and only if the expected fingerprint is the known one, the action has what it needs (`MayBegin`) and no other relay routes the instance; what is stored is what the action means (`Asks`), field by field |
| RelayPanel.Panel.CommitRows | apps/api/src/relay/repository.ts:237-272 | One transaction makes the stored route set the local table and the operation succeeded, or does neither; without faults it does exactly if none of the rows' instances is routed by another relay |
| RelayPanel.Panel.Fail | apps/api/src/relay/service.ts:366-399 | An error settles the operation as failed exactly if it is a code from the relay other than RELAY_STATE_FAILED and RELAY_ROLLBACK_FAILED, and otherwise leaves it uncertain; only in the first case need nothing be left on the relay |
| RelayPanel.Panel.Compare | apps/api/src/relay/service.ts:322-365 | The operation is committed locally if and only if the confirmed table is the stored one and its rows clash with no other relay's; otherwise it stays unsettled |
| RelayPanel.Panel.Settle | apps/api/src/relay/service.ts:322-399 | One attempt, for every fate of its two calls and everything between them: what it comes to without faults is decided by the state before it (`Exact`) |
| RelayPanel.Panel.Perform | apps/api/src/relay/service.ts:175-399 | A repeat of a succeeded request is answered from its row, a conflicting or failed one refused, and neither changes anything; no second operation starts beside an unsettled one; what may not begin is refused without a trace; a new operation asks for what its action means, and like an unsettled one comes exactly to what the state before and the network decide |
| RelayPanel.Panel.Mutate | apps/api/src/relay/service.ts:160-174 | While a call of this relay is running the answer is busy and nothing changes; the local table only changes to that of a succeeded operation |
| RelayPanel.Panel.Reconcile | apps/api/src/relay/service.ts:401-436 | With a working network, no busy answers, no faults and no outside edits, one reconcile settles the operation as failed exactly if the relay had neither committed it nor would take it, as succeeded exactly if it had or would and its rows can be stored, and leaves it unsettled exactly if they cannot: more than a hundred routes, or an instance routed by another relay; all decided by the state before the call |
| RelayPanel.Panel.CheckStatus | apps/api/src/relay/service.ts:118-159 | A relay is shown ready only if its reported table is the local one under the known fingerprint; a fingerprint is adopted only with an equal table |
| RelayPanel.Panel.Run | apps/api/src/relay/service.ts:160-436 | Over any run of requests, reconciles, checks, crashes and outside changes the invariants hold, and a settled operation never changes again |
| RelayPanel.Panel.ExactlyOnce | apps/api/src/relay/service.ts:322-399 | In every reachable state, a succeeded operation was committed exactly once remotely, with the stored action, parameters and route set; without busy answers a failed one was never committed, is not pending and is not on its way |
| RelayPanel.Panel.LocalIsLastSuccess | apps/api/src/relay/repository.ts:169-272 | At most one operation is unsettled, and the local table is that of the last operation recorded as succeeded |
| RelayPanel.Panel.SettledAgreement | apps/api/src/relay/service.ts:322-399 | With nothing unsettled, no busy answers and no outside edits, the Panel's successes are the relay's commits in the same order and both tables are equal |
| RelayPanel.Panel.RowsAreForwarded | apps/api/src/relay/service.ts:322-365 | With nothing unsettled, no busy answers and no outside edits, every enabled row of the Panel has its listener, with its port, upstream address and upstream port, in the installed nginx configuration |
| RelayPanel.Panel.BusyWhileRunning | apps/api/src/relay/service.ts:373-385 | An operation still running remotely is recorded as failed by a reconcile that is answered busy, and is committed when it ends exactly if the relay took it |
| RelayPanel.Panel.BusyAfterCommit | apps/api/src/relay/service.ts:329-385 | When another status call has the lock at the confirming call, a reconcile commits the operation remotely exactly if the relay takes it, and records it as failed in any case but a committed one with more than a hundred routes |
| RelayPanel.Panel.RoutedTwice | apps/api/src/relay/repository.ts:237-272 | From any undisturbed state: an apply whose answer is lost, then a row of the same instance on another relay; the operation is committed by this relay and stays unsettled through any number of undisturbed reconciles |
| RelayPanel.Panel.EndInFlight | apps/api/src/relay/service.ts:88-117 | A request left running ends by being committed exactly if the relay took it, and frees the lock |
| RelayPanel.Panel.LatestFingerprint | apps/api/src/relay/service.ts:322-344 | The fingerprint recorded with a committed unsettled operation is the one the relay has now |
| Ipv4.DottedRoundTrip | internal/configdoc/document.go:378-386 | Dotted text of an address parses back to that address |
| Ipv4.DottedCanonical | internal/configdoc/document.go:378-386 | Whatever is read as an address is the dotted text of its number, so every address has one text |
| ConfigLines.NormalIdentity | internal/configdoc/document.go:34-79 | Normalising is the identity if and only if newlines are uniform and the text ends with one |
| ConfigLines.PropertyMeans | internal/configdoc/document.go:85-95 | A line has a property exactly if its trimmed text is no comment and has an equals sign; name and value are what is before and after the first one, trimmed |
| ConfigLines.EqualFoldMeans | internal/configdoc/document.go:115-129 | Names are compared letter by letter without regard to case, the Kelvin sign and the long s included |
| ConfigDocument.Document.Parse | internal/configdoc/document.go:34-66 | The loop over the lines accepts exactly the texts without a malformed header, and groups every line under the header before it |
| ConfigDocument.HeaderMeans | internal/configdoc/document.go:40-83 | A header is a trimmed text in brackets, its section named by the lower case of what they hold, trimmed; it is malformed exactly if that is nothing |
| ConfigDocument.HasKeyMeans | internal/configdoc/document.go:115-129 | A section holds a key exactly if it is a peer section with a line that reads as a PublicKey property of this value |
| ConfigDocument.Document.Bytes | internal/configdoc/document.go:68-79 | The printed text of the document |
| ConfigDocument.Document.FindIndex | internal/configdoc/document.go:115-129 | The first peer section with this key, or -1 if there is none |
| ConfigDocument.Document.AddPeer | internal/configdoc/document.go:131-151 | Refused exactly for a known key or a line break; otherwise a peer section of exactly these lines (the name only if there is one) is appended after a blank line and all else stays |
| ConfigDocument.Document.RemovePeer | internal/configdoc/document.go:153-161 | Takes out the first section with the key and returns it; the others keep lines and order |
| ConfigDocument.Document.RestorePeer | internal/configdoc/document.go:163-175 | Appends a peer section exactly if its first key is not in the document |
| ConfigDocument.Document.Peers | internal/configdoc/document.go:230-258 | The peers in order, each with the last key, first network and last name of its section |
| ConfigDocument.FindPeerIs | internal/configdoc/document.go:115-129 | The index found is the least one with the key, and there is none exactly if nothing is found |
| ConfigDocument.FlattenGroup | internal/configdoc/document.go:34-66 | Grouping loses nothing: the preamble and the sections, flattened, are the lines |
| ConfigDocument.GroupFlatten | internal/configdoc/document.go:34-79 | Flattening and grouping again gives the same preamble and sections |
| ConfigDocument.ParsePrint | internal/configdoc/document.go:34-79 | For accepted text, Bytes of Parse is the identity if and only if newlines are uniform and the last one is there |
| ConfigDocument.PrintParse | internal/configdoc/document.go:34-79 | A printed document always parses, to sections alike line by line; to the same ones if and only if no line loses a bare CR and it is not hollow |
| ConfigDocument.AddedPrefix | internal/configdoc/document.go:131-151 | After AddPeer the old text is a prefix of the new one if and only if the document was not hollow |
| ConfigDocument.AddedToHollow | internal/configdoc/document.go:68-79 | The hollow document is a counterexample to the prefix property |
| ConfigDocument.AddedPeers | internal/configdoc/document.go:131-151 | Reparsing after AddPeer yields exactly the old peers followed by the new key, address and trimmed name |
| ConfigDocument.AddedKeys | internal/configdoc/document.go:131-151 | The keys found after AddPeer and reparsing are the old ones and the new one |
| ConfigDocument.RemoveRestore | internal/configdoc/document.go:153-175 | Remove, print, parse, restore, print, parse: the other sections in their order, then the removed one, line by line |
| AddressPool.AddressTextRoundTrip | internal/configdoc/document.go:263-297 | The text of an allocated address parses back to the /32 of that address |
| AddressPool.PrefixText | internal/configdoc/document.go:337-341 | A text is the IPv4 prefix of an address and a number of bits exactly if it is the dotted address, a slash and the decimal number |
| AddressPool.BlockEnds | internal/configdoc/document.go:367-386 | In the uint64 arithmetic a block contains its address and ends inside the 32-bit space: nothing wraps |
| AddressPool.RangeShares | internal/configdoc/document.go:367-376 | The range of a prefix contains exactly the addresses that share its first bits, starts at a multiple of 2^(32 - bits) and has this length |
| AddressPool.EntriesMembers | internal/configdoc/document.go:321-345 | The addresses of a document are exactly the items of Address lines in interface sections and of AllowedIPs lines in peer sections |
| AddressPool.PoolMeans | internal/configdoc/document.go:321-365 | A pool is found exactly if every item can be read and the server has exactly one IPv4 prefix, of 1 to 30 bits; its free hosts are exactly the addresses that share this prefix, are neither its first nor its last nor the server itself, and share no peer's prefix |
| AddressPool.FindPool | internal/configdoc/document.go:321-365 | The loops over lines and parts find the one server address, its subnet and all occupied ranges, or fail where the entries do |
| AddressPool.Sweep | internal/configdoc/document.go:263-297 | The sorted sweep returns the least usable host that no range covers, and none only if all are covered |
| AddressPool.AllocateIPv4AddressCIDR | internal/configdoc/document.go:263-297 | The address is the least one that shares the server's prefix, is neither network, broadcast nor server address, and is matched by no peer's prefix; none is returned exactly if there is none |
| AddressPool.ValidateAvailableIPv4AddressCIDR | internal/configdoc/document.go:299-319 | Accepts exactly the /32 texts of such an address |
| AddressPool.AllocatorRefinesValidator | internal/configdoc/document.go:263-319 | The allocator returns the least address that the validator accepts, and reports exhaustion exactly when it accepts none |
| AddressPool.AddedPool | internal/configdoc/document.go:131-151 | Adding a peer and reparsing adds exactly its address to the occupied ranges |
| AddressPool.IssueAll | internal/configdoc/document.go:263-297 | Repeated allocate and AddPeer yields strictly increasing addresses, and stops early only when every usable host is issued |
| HelperJournal.Journal.AddJournal | internal/helper/state.go:230-247 | The stored journal stays a suffix of the full history with at least the last 10000 records, or nothing changes |
| HelperJournal.Journal.BeginJournal | internal/helper/state.go:249-272 | Under one lock: the latest record of the id, or a new started record if there is none |
| HelperJournal.Journal.Replay | internal/helper/service.go:709-739 | An id without a record starts; any other is answered from its latest record: a conflict for another action or other parameters, in progress, its error, already issued, or its result |
| HelperJournal.DecidesLikeHistory | internal/helper/state.go:230-272 | As long as a record of the id is among the last 10000, the bounded journal decides as the unbounded one, and never to execute; for an id never seen it decides to execute |
| HelperJournal.Journal.ExecutesOnce | internal/helper/state.go:230-272 | Over any run, crashes included, an id starts again only when more than 10000 records were appended since any of its own |
| HelperLocks.ReachableIsSafe | internal/helper/state.go:315-342 | For any number of processes that keep to the discipline: a lock has one holder, is never re-taken while held, is taken in the order policies, instance, journal, and a copy a holder has read is what the file says unless the holder itself has overwritten it |
| HelperLocks.NoWaitCycle | internal/helper/state.go:315-342 | No reachable state has a cycle of processes waiting for each other |
| HelperLocks.Progress | internal/helper/state.go:315-342 | Whenever a process waits, some process can go on |
| HelperLocks.NoUpdateLost | internal/helper/service.go:338-383 | A write is based on the write directly before it exactly if its process has not itself overwritten the copy it writes; so no file but the policies ever loses an update, and the policies lose one exactly if an enforcement pass writes a list that a call of its own has overwritten |
| HelperLocks.PassOverwrites | internal/helper/service.go:625-707 | A pass that reads its list, makes a call that reads and writes the policies, and then writes its list obeys the locks and overwrites that write; `PassReverts` shows when this takes something back |
| HelperLocks.LawfulIsReached | internal/helper/state.go:326-342 | Any interleaving of processes whose own traces obey the discipline, with locks granted only when free, is one the system reaches |
| HelperLocks.LawfulProcesses | internal/helper/state.go:315-342 | Hence, for any number of processes with lawful traces, however they interleave: no cycle of waits, somebody can always go on, and updates are lost only as stated by `NoUpdateLost` |
| HelperPeers.UsableIsUnrouted | internal/configdoc/document.go:321-365 | A usable address is routed by no peer section |
| HelperModel.EditedParses | internal/helper/service.go:402-432 | The text each change writes parses again, to sections alike the edited ones |
| HelperModel.EditedFaces | internal/helper/service.go:402-432 | Reparsed, the changed file has the keys and routes of the old one with one peer dropped or appended |
| HelperModel.MutationConserves | internal/helper/service.go:402-449 | At every crash point of disable, enable and revoke, every key of the file and of the suspended map is still in one of them, except those a revoke names |
| HelperModel.MutationKeeps | internal/helper/service.go:402-449 | At every crash point of the three, active and suspended peers keep pairwise disjoint ranges, entries under interrupted disables included |
| HelperCreate.ReservedExactly | internal/helper/service.go:242-275 | In whatever order the suspended peers are put back, the document to allocate in can be read exactly if the configuration has a pool and all their addresses can be read, and its free hosts are exactly the usable ones that are routed to no waiting peer |
| HelperCreate.CanonicalMeans | internal/helper/runtime.go:696-699 | An IPv4 network given for a connection is accepted exactly if its host bits are zero |
| HelperCreate.IssueKeeps | internal/helper/service.go:259-300 | A peer issued at such an address keeps all ranges apart |
| HelperCreate.IssuedSafely | internal/helper/service.go:259-300 | A created address is a usable host other than the server, free in the file; no peer is lost and ranges stay disjoint |
| HelperPolicy.EnforceIdInjective | internal/helper/service.go:686-686 | Within one minute, different connections have different enforcement ids |
| HelperPolicy.AccountedIsJudged | internal/helper/service.go:660-682 | Usage grows by what both counters have grown since the last reading, modulo 2^64, a counter that went back counting from zero and a first reading not at all; then the policy is over its limit exactly if usage has reached it, else expired exactly from its date on, else active |
| HelperPolicy.ProjectAllTakesOver | internal/helper/service.go:536-567 | A projected policy has the terms, the usage and the epoch of its input; the last counters of the latest policy of its connection; it goes on counting exactly if that one counted in the same epoch; and it stays stopped exactly if that one was stopped for expiry or usage and the input calls it active |
| HelperPolicy.HoldsAfterDisable | internal/helper/service.go:405-417 | After a disable and reparsing, the file holds exactly the other keys |
| HelperPolicy.DisableAccepted | internal/helper/service.go:378-449 | With a matching fingerprint a disable is accepted if and only if the file parses and holds the key |
| HelperPolicy.DisableThenEnable | internal/helper/service.go:402-449 | A completed disable then enable keeps every section's lines and the order of the others, the restored one last; other instances and other entries are as before |
| HelperPolicy.GoneIsOne | internal/helper/service.go:433-449 | With connections and keys one to one, a revoke can take no key but its own |
| HelperPass.CutsNow | internal/helper/service.go:638-702 | What a pass finds of a policy it has come to is what it would have found at first, unless a call before it has left the record of the same instance behind |
| HelperPass.SoFarStep | internal/helper/service.go:638-702 | One more policy, for any failing steps: files, records, the policies' file, the list and the counts are again those decided by the state before the pass |
| HelperPass.PassByPolicy | internal/helper/service.go:625-707 | Policy by policy, for any failing steps: it is active afterwards exactly if it was and its call was not completed; its peer is gone from the configuration exactly if the call replaced it; and the suspension the call had written is taken back exactly if the write of the instance's record or of the success record fails after it |
| HelperPass.CalmPass | internal/helper/service.go:625-707 | When nothing fails, exactly those policies are cut off that are due, whose peer is in its configuration under the recorded fingerprint, and whose operation can be named |
| HelperPass.CalmJudged | internal/helper/service.go:660-703 | When nothing fails: a policy whose peer can be cut off ends over its limit, expired or active by usage, limit, date and time alone, and its peer is in its configuration exactly if the policy is active |
| HelperPass.EnforceIdSafe | internal/helper/service.go:686-686 | The id a pass makes for a connection is a safe name exactly if the connection id and the minute together have at most 119 characters |
| HelperPass.LongIdNeverCut | internal/helper/state.go:274-277 | With minutes of eight digits, no pass ever cuts off a connection whose id has 112 characters or more, whatever its policy says |
| HelperPass.LongIdProjected | internal/helper/service.go:536-545 | Such ids are accepted from the Panel: any valid projection stays valid with one of 112 characters |
| HelperPass.StoppedStaysStopped | internal/helper/service.go:536-567 | Over any run of projections and passes, a connection stopped for expiry or usage stays stopped, however often the Panel calls it active, as long as each projection names it and none suspends it |
| HelperPass.SuspendedThenActive | internal/helper/service.go:536-567 | That premise is needed: projecting it as suspended and then as active makes it active again |
| HelperService.Service.Edit | internal/helper/service.go:390-432 | The document edited in memory; only a disable has stored the section first; a refusal has changed nothing |
| HelperService.Service.Replace | internal/helper/service.go:433-446 | The file is replaced, or left; a failed disable takes its entry back; every state on the way is one the conservation results cover |
| HelperModel.PoliciesChange | internal/helper/service.go:450-481 | By connection: the others keep value and order, a revoked one has no policy left, a disabled one is suspended with its counters and limits, an enabled one is active, and an override lifts exactly the expiry or the usage that had stopped it and starts counting anew |
| HelperService.Service.NextPolicies | internal/helper/service.go:450-481 | The loop makes this change of the policies in the file |
| HelperService.Service.Settle | internal/helper/service.go:440-489 | The suspended map, policies and instance record are brought up to date, in this order, as far as the given steps let it; success means all are, and the policies change only when the other files are complete |
| HelperService.Service.ApplyPeerMutation | internal/helper/service.go:378-490 | Under the instance's lock, wherever it stops: the files are at a state of the change, and success means the complete change; when exactly the given steps fail, it comes to what they decide, and with none exactly to success if the operation id is a safe name and the files accept the change |
| HelperService.Service.Mutate | internal/helper/service.go:334-376 | An id with a record changes nothing and is answered from it; a new one runs once under the policies lock (taken, or held already); when nothing but the given steps fails, a disable leaves exactly what they decide, and with none any change succeeds exactly if the instance may suspend, the operation id is a safe name and the files accept it |
| HelperService.Service.Reserve | internal/helper/service.go:242-258 | The document the address is chosen in is the configuration followed by exactly the suspended peers of this instance that are not active; it can always be built while peers are kept apart |
| HelperCreate.ReserveFits | internal/helper/service.go:251-258 | A suspended peer that is not active can be put back beside the active ones and those put back before it, in whatever order |
| HelperService.Service.Issue | internal/helper/service.go:259-300 | The file gets exactly the new peer and the client's configuration its fields; while peers are kept apart, exactly if there is an address to give, the key is new, and a client can be configured |
| HelperService.Service.CreateConnection | internal/helper/service.go:215-324 | At every crash point the files are the old ones or have the one new peer, at the address asked for or the least spare one; an id with a record changes nothing and returns no configuration; without faults and with peers kept apart, a new id is created exactly if it is a safe name, the instance may create, the fingerprint fits, the file parses, there is a spare address or the given one is spare, the key is new and reads as written, and a client can be configured, all of it decided by the state before the call |
| HelperService.Service.EnforceOne | internal/helper/service.go:638-702 | One policy, when exactly the given steps fail: its counters, its count, and a disable that leaves exactly what the steps decide, if it is due and its peer can be cut off; when none fails, limit and date alone decide (`Judged`) |
| HelperService.Service.PassStep | internal/helper/service.go:638-702 | The loop body keeps the pass exact: files, records, the policies' file, list and counts are those decided for the policies met so far |
| HelperService.Service.Enforce | internal/helper/service.go:625-707 | For any failing steps of its calls, a pass over distinct connections with ids unused in this minute ends with the files, the records, the policies and the counts that the state before it and those steps decide, several due on one instance included; when none fails, exactly the peers that can be cut off and whose policies have come to their limit or their date are gone (`AsDue`); whatever fails and wherever it dies, no peer is lost and ranges stay disjoint |
| HelperService.Service.PassReverts | internal/helper/service.go:631-703 | From any such state, if for a due policy the instance's record or the success record cannot be written, the file says suspended before the pass writes its list, the policy is active after it, and the peer is out of its configuration |
| HelperService.Service.Projection | internal/helper/service.go:536-567 | Every input keeps counters and stops as its previous policy allows; refused exactly if an input is invalid |
| HelperService.Service.ProjectPolicies | internal/helper/service.go:503-575 | Policies change only to the projection, field by field (`TakesOver`), at most once per id, under the policies lock |
| HelperService.Service.Serve | internal/helper/service.go:215-707 | Any call, interrupted anywhere, keeps ranges disjoint and loses only what it revokes; whatever is put aside keeps its key |
| HelperService.Service.Run | internal/helper/service.go:215-707 | Over any run of creates, mutations, projections and passes, interrupted or not: ranges stay pairwise disjoint, and only revoked keys ever leave |
| Traffic.CreditedByEpochs | apps/api/src/repository.ts:670-692 | The sum of all credits is the last samples of all closed counter epochs plus the current counter |
| Traffic.Repository.UpdateTraffic | apps/api/src/repository.ts:670-714 | One sample: what is credited is the growth of both counters, or all of it if either has fallen; it is added to the total, to the override usage, to the row of the full hour before now and to the row of the UTC midnight before now, and to no other row; other connections stay, an unknown one changes nothing |
| Traffic.Repository.ApplyConnectionOverride | apps/api/src/repository.ts:605-620 | Override usage starts again at the current end of the credits; expiry is lifted or only the status set in the other cases |
| Traffic.Repository.PruneTraffic | apps/api/src/repository.ts:737-741 | Retention keeps exactly the rows from its two limits on, and changes no total and no window that begins at or after the daily limit |
| Traffic.Repository.UsedBytes | apps/api/src/repository.ts:794-820 | The usage reported is what was credited since an override inside the window, else the window's sum, else the total; the sum of a window that retention has not cut into is that of the credits whose UTC midnight is at or after its start |
| Traffic.Repository.Run | apps/api/src/repository.ts:605-741 | Over any run, totals never fall and the books stay balanced, and a quota window that begins no earlier than every retention limit of the run holds exactly what was credited on its days |
| Traffic.Repository.Conserved | apps/api/src/repository.ts:670-742 | In every reachable state a total is its hourly rows and its daily rows, deleted ones included, and its epochs; override usage is the credit since the override |
| Traffic.Repository.WindowIsCredited | apps/api/src/repository.ts:794-808 | A quota window that retention has not cut into holds exactly what was credited on the days that begin in it |
| Traffic.SelectSum | apps/api/src/repository.ts:737-741 | What retention keeps and what it deletes add up to what there was, for every connection, kind and window |
| Traffic.AccountingBound | apps/api/src/repository.ts:676-704 | With counters reset together, the node credits at most what the Panel credits, and the Panel at most the true traffic |
| Traffic.ExactWithoutResets | internal/helper/service.go:660-675 | Without resets both accountants are exact |
| Accounting.NodeNeverWraps | internal/helper/service.go:660-675 | With usage and true traffic below 2^64, the node's uint64 sum is the unbounded one, at most the Panel's, at most the true traffic |
| StableJson.SameText | apps/api/src/security/crypto.ts:95-103 | Values equal up to the order of object keys have the same text |
| StableJson.QuoteReads | apps/api/src/security/crypto.ts:95-103 | By the escapes of section 7 of RFC 8259, a quoted string in front of any text reads back as this string and this text |
| StableJson.QuoteUnique | apps/api/src/security/crypto.ts:95-103 | A quoted string can be read back from the front of any text: escaping is injective and its end is unambiguous |
| StableJson.Unambiguous | apps/api/src/security/crypto.ts:95-103 | Two values whose texts agree in front of any delimited rest are the same value with the same rest |
| StableJson.StableByValue | apps/api/src/security/crypto.ts:91-103 | Equal text if and only if equal up to object key order, so request fingerprints decide by value |
| RouteJson.RoutesByValue | apps/api/src/relay/service.ts:335-344 | Comparing the canonical text of sorted routes is comparing the routes |
| ClientConfig.SortedFieldKeys | internal/helper/runtime.go:673-680 | The keys of the extra fields, each once, in order |
| ClientConfig.BuildClientConfig | internal/helper/runtime.go:657-693 | The builder writes the configuration of these fields; it fails exactly for an invalid host, port or server key |
| ClientConfig.SpacesDiffer | apps/web/src/amneziaVpnKey.ts:12-33 | The browser trims the same characters as the helper but for two: it keeps the next line U+0085 and drops the byte order mark |
| ClientConfig.SectionMeans | apps/web/src/amneziaVpnKey.ts:12-33 | A section line is exactly a name without a closing bracket, in brackets |
| ClientConfig.ParseNativeConfig | apps/web/src/amneziaVpnKey.ts:12-33 | The loop with its current section finds the fields of the two sections |
| ClientConfig.ReadsWhatWasWritten | apps/web/src/amneziaVpnKey.ts:12-33 | For any list of clean lines, parsing the written text gives what the lines mean |
| ClientConfig.BuiltRoundTrip | apps/web/src/amneziaVpnKey.ts:12-33 | Parsing a built configuration returns every field as written, trimmed, and no other |
| ClientConfig.EndpointRoundTrip | apps/web/src/amneziaVpnKey.ts:35-43 | endpointParts inverts hostPort for every valid host, with or without brackets, and every port |
| ClientConfig.EndpointPartsMean | apps/web/src/amneziaVpnKey.ts:35-43 | Whatever endpointParts takes apart is a host, bracketed or not, a colon, and digits of a port from 1 to 65535 |
| RelayEndpoint.WithRelayEndpoint | apps/web/src/relayConfig.ts:4-36 | The line scan rewrites exactly the Endpoint lines inside peer sections; it succeeds if and only if there is one peer with one endpoint and the address is valid |
| RelayEndpoint.HeaderMeans | apps/web/src/relayConfig.ts:21-21 | A header line is exactly white space, a name in brackets, white space, and perhaps a comment |
| RelayEndpoint.FieldMeans | apps/web/src/relayConfig.ts:28-28 | A field line is exactly the name Endpoint and an equals sign with white space around them, a value without comment signs, and what may follow it; its three parts are the groups of the pattern |
| RelayEndpoint.OnlyTheValueChanges | apps/web/src/relayConfig.ts:4-36 | In every supported text there is one span, the value of the Endpoint line, such that rewriting replaces this span and nothing else |
| RelayEndpoint.SecondOverrides | apps/web/src/relayConfig.ts:4-36 | For any text and scan state, rewriting a rewritten text is rewriting the original with the second endpoint |
| RelayEndpoint.RewriteTwice | apps/web/src/relayConfig.ts:4-36 | A rewritten text is still supported, and a second rewrite overrides the first |
| RelayEndpoint.BuiltRewritten | apps/web/src/relayConfig.ts:4-36 | A built configuration is always supported, and rewriting gives the one built with the other endpoint |
| RelayEndpoint.ClientPipeline | internal/helper/runtime.go:650-693 | From building to parsing, splitting the endpoint and rewriting twice: all fields come back, and the last endpoint stands |

## Left out

- File system: a save either happens or does not. Modes, fsync, temporary files, symlink checks, and an error after the rename has happened, are not modelled.
- Runtimes: SSH, Docker, systemctl, nginx, `wg` and `/proc` are calls that take effect or fail; configuration validation, discovery and protocol profiles are not modelled.
- HelperService.Service.Apply: an error means that the original configuration is back; the two outcomes in which the rollback itself fails (`internal/helper/runtime.go:503-514`) are excluded. That the runtime does not accept the container, interface, binary or protocol of the instance's record (`internal/helper/runtime.go:455-467`) is one of the ways in which this step fails.
- HelperService.Service.Enforce: ids are per minute (`internal/helper/service.go:686`), so the pass is stated to be exact for the first pass of a minute; a second one in the same minute finds its ids in the journal. A pass is taken to begin and end in one minute.
- HelperService.Service.Run: the class is one process; any number of processes is covered by `HelperLocks.LawfulProcesses`, whose premise, a lawful trace, is part of what every method of the class keeps.
- HelperLocks.NoUpdateLost: not claimed for `instances.json`, which is guarded across processes by nothing but an in-process mutex (`internal/helper/state.go:167-181`).
- HelperService.Service.Mutate: the request's parameters are given twice, as the text that the journal compares (the original hashes it) and decoded; that one decodes to the other is not modelled, and a pass writes its own parameters in a form of the model.
- HelperService.Service.CreateConnection: the creation's expiry time is taken as given; its text format is not modelled. When peers are not kept apart, only one direction is stated of when it succeeds, since the original puts suspended peers back in the random order of a map and may then fail or not.
- RelayPanel.Panel.ExactlyOnce: for failed operations only as long as no call was answered busy; the two busy corners show why.
- RelayPanel.Panel.Run: one relay; the others appear only as the set of instances that have a row of theirs. Route ids are taken to be unique across relays. What another caller's status call writes is modelled between operations (`CheckStatus`); during one, only that it holds the lock.
- RouteJson.RoutesByValue: routes are sorted by id in the order of characters; `localeCompare` is another order, which sorts equal sets equally too.
- StableJson.StableByValue: keys are sorted by code point rather than UTF-16 unit; numbers are the texts that JSON gives them; lone surrogates do not occur.
- Traffic.Repository.UsedBytes: the start of the calendar month and the time thirty days ago are inputs; times are integers and counters are exact, without the rounding of numbers above 2^53.
- ClientConfig.EndpointRoundTrip: what text is an IPv6 address is a parameter, of which only the characters used are assumed.
- AddressPool.FindPool: whether a text is an IPv6 prefix is a parameter; IPv4 prefixes are parsed in full.
- Text: strings are sequences of characters; lengths are counted in characters, and invalid UTF-8 does not occur.
- Journal record times, request ids, audit rows, snapshots of configurations, `list`, `stats`, `discover` and the restore of all suspended peers: no state that the results speak of, or the same steps as enable.
- The relay endpoint shown to users (`apps/api/src/relay/repository.ts:273-286`) and the deletion of a relay: a reading settles them.
- HTTP routes, schemas, sessions, encryption, user interface, migrations, command line and installation.
- Connection issuance in the Panel across lost helper answers: a lost answer can leave a peer that no connection knows.
