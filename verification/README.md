# Properties of the NordVPN Linux client

A Dafny model of the parts of the NordVPN Linux client whose correctness is not visible from any one
function, with proofs of what they promise for every input, every run and every answer of the outside
world. `dafny verify dfyconfig.toml` checks everything.

What is modelled, and where:

- **File sharing.** The event manager keeps live transfers with running `uint64` totals, subscription
  channels and a trace of calls into the fileshare library. `Transfers` says on values what every event
  does; `TransferInvariants`, `TransferTotals` and `TransferRuns` prove what all runs keep, and `TransferAnswers`
  what each event is answered with; `EventManagement` holds the objects that are updated in place, each method
  proved equal to the account on values. `LibdropStorage` makes the records that the event manager loads,
  `LibdropAnswers` says how they follow from libdrop's reports, `Acceptance` has the disk space check and the Accept
  rpc, `StatusStream` the relay to the client, `SendCounting` the counting of files to send.
- **Settings.** `Settings` has one function per request, `Rpc` the handlers over a fallible store
  (`Config`), `SettingsInvariants` the rules that every reachable stored config obeys, and `SettingsAnswers` which
  requests are granted and what they then store.
- **Text and index forms.** Package retention by string prefix (`Semver`, `Retention`), peer credentials
  (`Credentials`), port ranges (`PortRanges`), names and locations (`Names`, `Locations`), peer maps
  (`PeerMaps`).
- **Servers.** Penalties and ranking (`Penalties`, `Ranking`, `RankingAnswers`) and selection with its cached
  fallback (`ServerSelection`, `Eligibility`) over one server record (`Catalogue`).
- **norduserd.** The per-user state machine of the process monitor (`Sessions`, `ProcessMonitoring`).

`Text`, `Decimals`, `Sorting`, `Totals` and `Options` hold what several of these share.

The outside world is a parameter everywhere: storage loads, network and service calls, the API, the file
system, random choices and map iteration order are arbitrary, and so are their failures.

Where a promise turns out not to hold of the code, the model keeps the code and states exactly when it does:

- the printed allowlist is wrong when the UDP slice has spare capacity and some TCP port is below a UDP port
  (`PortRanges.ShownExactlyIff`);
- a stored transfer that was canceled while files were unfinished has totals that still count them
  (`LibdropStorage.RecordGoodIff`), and a live transfer loaded from it keeps exactly that error
  (`TransferRuns.GapStays`, `LibdropStorage.CanceledStaysWrong`);
- a file event that comes after the end of its transfer makes the transfer live again (`TransferRuns.LiveIff`), and a
  channel that a second subscription replaces is never closed (`TransferRuns.CanCloseIff`);
- the disk space check adds sizes modulo 2^64 (`Acceptance.AcceptedFitsIff`);
- the status stream ends silently on a final status other than four (`StatusStream.FinalStatusShown`,
  `StatusStream.SilentEnd`);
- a port range may end beyond 65535 (`SettingsInvariants.LimitKeptIff`), the mesh may be enabled without
  routing and obfuscation under NordLynx (`SettingsInvariants.TidyRunsIff` gives the runs that exclude all three);
- picking a server crashes when the cache offers two or more servers and all have a dedicated IP
  (`ServerSelection.PickCrashesIff`);
- tags with capitals, `gb` and `gb <city>` are known online but not offline, and `uk <city>` offline but not online
  (`Locations.OfflineFindsCountry`, `Locations.OfflineFindsCity`, `Locations.OnlineMissesUkCity`);
- uids and gids from 2^31 on do not survive printing and parsing (`Credentials.RoundTrip`);
- retaining 2^63 or more minor versions deletes everything, and a version without a minor number goes even if it is
  the newest (`Retention.DeleteFrom`);
- a Send request may name an empty directory anywhere but first (`SendCounting.GoesIff`);
- a user who leaves the group while norduserd refuses to stop is forgotten while still running
  (`ProcessMonitoring.LeftRunning`, `ProcessMonitoring.EnabledTwice`).

## Model

| member | source | states |
|---|---|---|
| `EventManagement.LiveTransfer.constructor` | fileshare/event_manager.go:667-683 | a live transfer starts with the stored totals and exactly the files that count |
| `EventManagement.LiveTransfer.Progress` | fileshare/event_manager.go:222-224 | adds only the difference, in wrapping uint64 arithmetic, and records the new amount |
| `EventManagement.LiveTransfer.Remove` | fileshare/event_manager.go:700-704 | takes the file and its bytes out of the totals, wrapping |
| `EventManagement.LiveTransfer.IsFinished` | fileshare/event_manager.go:690-697 | true iff every tracked file is finished, in any iteration order |
| `EventManagement.ProgressChannel.Send` | fileshare/event_manager.go:230-234 | needs an open channel (otherwise Go panics) and appends the message |
| `EventManagement.ProgressChannel.Close` | fileshare/event_manager.go:403 | needs an open channel (otherwise Go panics) and closes it |
| `EventManagement.EventManager.GetLiveTransfer` | fileshare/event_manager.go:655-688 | the tracked transfer, or a new one from storage that is then tracked; an error tracks nothing |
| `EventManagement.EventManager.ReportProgress` | fileshare/event_manager.go:226-236 | one ONGOING message with the percentage of the totals, only to a subscriber |
| `EventManagement.EventManager.HandleFileProgress` | fileshare/event_manager.go:209-237 | the objects follow the account on values: totals moved, subscriber told |
| `EventManagement.EventManager.FinalizeFinishedTransfer` | fileshare/event_manager.go:266-277 | calls Finalize iff all tracked files are finished and the transfer is incoming |
| `EventManagement.EventManager.HandleFileEnd` | fileshare/event_manager.go:239-360 | a file's end, kept or removed from the totals, then the check for finalization |
| `EventManagement.EventManager.CloseSubscription` | fileshare/event_manager.go:397-405 | closes the channel once and forgets the subscription |
| `EventManagement.EventManager.HandleTransferEnd` | fileshare/event_manager.go:362-408 | the objects follow the account on values: final message, close, and both map entries gone, or nothing if no status can be found; which status it is, say `FinalizedAnswer` and `FailedAnswer` |
| `EventManagement.EventManager.UpdateTransferWithLiveData` | fileshare/event_manager.go:477-492 | a stored transfer with the live totals and the live amounts of its tracked files |
| `EventManagement.EventManager.AcceptTransfer` | fileshare/event_manager.go:505-585 | the checks before accepting, in order: directory, transfer, direction, status, paths, free space |
| `EventManagement.EventManager.HandleRequestReceived` | fileshare/event_manager.go:162-207 | refuses, ignores or automatically accepts an incoming request |
| `EventManagement.EventManager.OnEvent` | fileshare/event_manager.go:130-160 | every event, on the objects, does what `Transfers.OnEvent` says on values; no send or close hits a closed channel |
| `EventManagement.EventManager.Subscribe` | fileshare/event_manager.go:627-634 | a new open channel replaces the transfer's subscription |
| `TransferTotals.ProgressedGap` | fileshare/event_manager.go:221-225 | progress leaves the totals as far from the sums, modulo 2^64, as they were, also when it goes backwards |
| `TransferTotals.RemovedGap` | fileshare/event_manager.go:700-704 | so does removing a file |
| `TransferTotals.RecordTotalsIff` | fileshare/event_manager.go:667-683 | a transfer starts with totals that are the sums iff its record obeys the rule for totals |
| `TransferInvariants.EventKeepsInv` | fileshare/event_manager.go:130-160 | every event keeps keys, subscriptions and the shape of every channel, whatever the storage holds |
| `TransferRuns.RunKeepsInv` | fileshare/event_manager.go:130-160 | the same over any sequence of events and subscriptions |
| `TransferRuns.GapStays` | fileshare/event_manager.go:209-237 | after any run the totals of a live transfer are as far from the sums over its remaining files as those of the record it was loaded from |
| `TransferRuns.TotalsAreSumsIff` | fileshare/event_manager.go:655-716 | so they are the sums iff that record, of distinct files, obeys the rule for totals; other transfers do not matter |
| `TransferRuns.ChannelProtocol` | fileshare/event_manager.go:396-408 | after any run every channel holds ONGOING messages of its transfer and, iff closed, one final message before the close; subscriptions are open |
| `TransferRuns.ClosedIsFinal` | fileshare/event_manager.go:396-408 | no step does anything to a closed channel or takes back a message |
| `TransferRuns.ReplacedNeverCloses` | fileshare/event_manager.go:627-634 | a channel replaced by a second subscription gets no further message and is never closed |
| `TransferRuns.CanCloseIff` | fileshare/event_manager.go:396-408 | an open channel stays open whatever happens iff it is not its transfer's current one |
| `TransferRuns.ProgressNeverExceeds100` | fileshare/event_manager.go:226-236 | no report about a transfer exceeds 100 if its own records and progress events never exceed its files' sizes, whatever other transfers do |
| `TransferRuns.PercentExceeds` | fileshare/event_manager.go:226-236 | a report exceeds 100 iff the transferred bytes exceed the sizes by one percent |
| `TransferRuns.UnfinishedShrinks` | fileshare/event_manager.go:239-360 | a live transfer loses an unfinished file exactly when that file's end is reported, and gains none |
| `TransferRuns.FinalizeExactly` | fileshare/event_manager.go:266-277 | a file's end calls Finalize exactly when the transfer is incoming, the file tracked and no other tracked file unfinished |
| `TransferRuns.AllEndedFinalizes` | fileshare/event_manager.go:239-360 | once the end of every unfinished file of an incoming transfer was reported, Finalize has been called meanwhile, whatever else happened |
| `TransferRuns.LiveIff` | fileshare/event_manager.go:655-688 | after a run exactly those transfers are live that some event found and no event dropped since |
| `TransferRuns.LateEventRevives` | fileshare/event_manager.go:45-48 | a file event after the end makes the transfer live again |
| `TransferAnswers.FinalizedAnswer` | fileshare/event_manager.go:371-408 | a finalized transfer with a file unfinished tells its subscriber "canceled by peer" iff the peer did it and else "canceled"; with all files finished it tells the status of the reloaded record, or nothing if there is none; then the channel is closed and the transfer gone |
| `TransferAnswers.FailedAnswer` | fileshare/event_manager.go:362-369 | a failed transfer tells its subscriber the code of the failure, closes the channel and is gone |
| `TransferAnswers.ProgressAnswer` | fileshare/event_manager.go:209-237 | progress is recorded, moves the total by the difference modulo 2^64, and the subscriber gets one message whose number is the whole part of the percentage of the new totals |
| `TransferAnswers.FileEndAnswer` | fileshare/event_manager.go:239-360 | a file that was downloaded or uploaded stays and is finished; one that was rejected or failed goes and takes its bytes out of the totals |
| `TransferAnswers.RequestAnswer` | fileshare/event_manager.go:162-207 | a request makes the library finalize iff the peer may not send files, accept each file of the record in order iff the peer is trusted and the record, the directory and the space allow it, and nothing otherwise |
| `TransferAnswers.TrackedAt` | fileshare/event_manager.go:667-683 | of a record with distinct files exactly those with status 0, 100, 101 or 107 are tracked, with their sizes and amounts, and those with status 0 are finished |
| `TransferAnswers.RecordUnfinishedIff` | fileshare/event_manager.go:690-697 | a loaded transfer has an unfinished file iff its record has one that is requested, ongoing or pending |
| `TransferAnswers.LiveDataKeeps` | fileshare/event_manager.go:477-492 | live data replaces the total transferred and the amounts of tracked files and nothing else |
| `TransferAnswers.AcceptedIff` | fileshare/event_manager.go:505-585 | a request to accept is granted iff the directory is fit, the record an incoming request, every path has a file under it and the sizes, added up modulo 2^64, fit |
| `TransferAnswers.RefusedByStatusIff` | fileshare/event_manager.go:543-554 | which refusal means not incoming, canceled by the peer, canceled here, and no longer a request |
| `TransferAnswers.ChosenIff` | fileshare/event_manager.go:556-569 | files are chosen iff every path has one, and their sizes are the sums path by path |
| `LibdropStorage.TransferredFromPath` | fileshare/libdrop/libdrop.go:449-466 | the amount in the last state that tells one; completed files count their size |
| `LibdropStorage.CalculateTotals` | fileshare/libdrop/libdrop.go:556-565 | the sums over the files that count, modulo 2^64 |
| `LibdropStorage.GetTransferStatusByFiles` | fileshare/libdrop/libdrop.go:603-635 | the four flags of the loop decide by all files, in the order of the switch |
| `LibdropStorage.DetermineTransferStatus` | fileshare/libdrop/libdrop.go:567-601 | the status, and in place the canceled files of a transfer cut short |
| `LibdropStorage.ConvertTransfer` | fileshare/libdrop/libdrop.go:355-371 | the record: totals before, files after the adjustment |
| `LibdropStorage.RecordGoodIff` | fileshare/libdrop/libdrop.go:355-371 | a record's totals are the sums over its counted files iff no bytes of unfinished files were canceled out of the count |
| `LibdropStorage.CanceledWhileOngoing` | fileshare/libdrop/libdrop.go:578-594 | a transfer canceled while its file was ongoing counts bytes that no file has |
| `LibdropStorage.OngoingIsGood` | fileshare/libdrop/libdrop.go:355-371 | the same transfer before the cancellation obeys the rule |
| `LibdropStorage.Load` | fileshare/libdrop/libdrop.go:324-340 | one record per id, the last of several |
| `LibdropStorage.LoadStoresById` | fileshare/libdrop/libdrop.go:335-338 | each record is filed under its own id, which is all that the runs take for granted |
| `LibdropStorage.LoadGoodIff` | fileshare/libdrop/libdrop.go:324-340 | a loaded record obeys the rule for totals iff its transfer has distinct files and was not miscounted |
| `LibdropStorage.LiveTotalsIff` | fileshare/libdrop/libdrop.go:355-371 | in any run the totals of a live transfer are the sums iff libdrop's transfer was not miscounted |
| `LibdropStorage.CanceledStaysWrong` | fileshare/libdrop/libdrop.go:578-594 | a run that leaves such a transfer live with a total of bytes that no file has |
| `LibdropStorage.FinishedStatus` | fileshare/libdrop/libdrop.go:572-582 | a finished transfer that is finalized by canceling it still shows success or errors, with its files unchanged |
| `LibdropAnswers.RecordStatusIs` | fileshare/libdrop/libdrop.go:567-601 | a record has the code of a failure; canceled, by the peer or here, iff it was canceled with a file unfinished or all canceled, and then its unfinished files are canceled; success after any other end; else what the files say |
| `LibdropAnswers.StatusByFilesIff` | fileshare/libdrop/libdrop.go:603-635 | each of the five statuses iff a condition on the codes of the files, such as 100 iff there are files and all wait |
| `LibdropAnswers.CutShortIff` | fileshare/libdrop/libdrop.go:578-594 | a cancellation counts iff some file is unfinished or all were canceled |
| `LibdropAnswers.FileStatusIs` | fileshare/libdrop/libdrop.go:423-447 | the last report decides the status of a file |
| `LibdropAnswers.AmountIs` | fileshare/libdrop/libdrop.go:449-466 | the amount is that of the last report that tells one, all of it for a completed file |
| `LibdropAnswers.FileReported` | fileshare/libdrop/libdrop.go:407-421 | a file of the record has the id, relative path and size that were reported |
| `Acceptance.GetTransferFilesByPathPrefix` | fileshare/transfer.go:129-137 | the files under a prefix, in order |
| `Acceptance.ChooseFiles` | fileshare/event_manager.go:556-569 | all files without paths; else the files of each prefix, or refusal if one matches none |
| `Acceptance.SumSizes` | fileshare/event_manager.go:571-577 | the sum of sizes modulo 2^64 |
| `Acceptance.AcceptFiles` | fileshare/server.go:301-322 | each file of the transfer gets exactly one call, Accept iff a path is its prefix or none was given |
| `Acceptance.CheckedCovers` | fileshare/event_manager.go:556-577 | the checked size covers the files then accepted, even with overlapping prefixes |
| `Acceptance.AcceptedFits` | fileshare/event_manager.go:571-584 | accepted files fit the free space that was checked, if the sum stays below 2^64 |
| `Acceptance.AcceptedFitsIff` | fileshare/event_manager.go:571-584 | where no file lies under two paths they fit iff the sum stays below 2^64 |
| `Acceptance.SizeCheckWraps` | fileshare/event_manager.go:571-584 | two files of 2^63 bytes are accepted into no space |
| `StatusStream.StartTransferStatusStream` | fileshare/server.go:110-133 | receives every message of a closed channel, so no send blocks, and relays progress and a known final status |
| `StatusStream.FinalStatusShown` | fileshare/server.go:110-133 | the client learns the end iff its status is one of four, and then as the last message |
| `StatusStream.ProgressShown` | fileshare/server.go:110-133 | the client sees every report of progress with its percentage, in order, and after them at most the end |
| `StatusStream.FailureShown` | fileshare/event_manager.go:362-369 | a run in which a subscribed transfer fails: the client sees nothing iff the code is unknown to the stream |
| `StatusStream.SilentEnd` | fileshare/server.go:110-133 | with code 5 the channel closes and nothing was shown |
| `SendCounting.GetNumberOfFiles` | fileshare/server.go:82-108 | the first problem of a depth-first walk, or the number of files |
| `SendCounting.CountsIff` | fileshare/server.go:80-108 | the walk counts all files iff every directory can be read and lies within the bound; a negative bound is none |
| `SendCounting.CountPaths` | fileshare/server.go:177-206 | the verdict of the loop over the request's paths |
| `SendCounting.GoesIff` | fileshare/server.go:177-206 | a request goes ahead iff all paths are readable and shallow, stand for at most 1000 files, and the first has one |
| `SendCounting.OrderMatters` | fileshare/server.go:203-205 | an empty directory is refused before a file and accepted after it |
| `SendCounting.StopsAt` | fileshare/server.go:177-206 | a request that does not go ahead stops at a first path, and the answer says truly why: missing or unreadable, deeper than 5, more than 1000 files with it, or none |
| `SendCounting.ProblemKind` | fileshare/server.go:82-108 | a readable tree is at worst too deep and a shallow one at worst unreadable |
| `Config.SortStringsCanonical` | daemon/rpc_set_dns.go:29-31 | two lists sort alike iff they are equal as multisets |
| `Config.LoadedAllowlist.UpdateUDPPorts` | config/allowlistlist.go:39-47 | adds or removes exactly the ports given |
| `Config.LoadedAllowlist.UpdateTCPPorts` | config/allowlistlist.go:49-57 | adds or removes exactly the ports given |
| `Rpc.GetPortsInARange` | daemon/rpc_set_allowlist.go:144-150 | the start and every port up to the end |
| `Rpc.ArePortsValid` | daemon/rpc_set_allowlist.go:39-64 | the first reason against a port request, with the end checked only against the start |
| `Rpc.RPC.GetNewAllowlist` | daemon/rpc_set_allowlist.go:66-119 | the new allowlist, or the error; a refused TCP half discards the updated UDP half |
| `Rpc.RPC.SetAllowlist` | daemon/rpc_set_allowlist.go:152-176 | setting and unsetting, as the account on values |
| `Rpc.RPC.SetDNS` | daemon/rpc_set_dns.go:15-83 | as the account on values; the request's own slice is left sorted |
| `Rpc.RPC.SetLANDiscovery` | daemon/rpc_set_lan_discovery.go:13-87 | as the account on values |
| `Rpc.FilterSubnets` | daemon/rpc_set_lan_discovery.go:36-52 | keeps exactly the public subnets and tells whether a private one was dropped |
| `Rpc.RPC.Handle` | daemon/rpc_set_killswitch.go:12-64 | every handler over the store: a request succeeds iff it is granted, and then the stored config is the old one with exactly the requested change; on a refusal it is left alone, but for two exceptions; the rules for stored configs are kept |
| `SettingsInvariants.ServeKeepsConsistent` | daemon/rpc_set_killswitch.go:18-53 | every request keeps all rules, whatever fails |
| `SettingsInvariants.RunKeepsConsistent` | daemon/rpc_login.go:103-114 | so do all runs, from any config that has them, logged in or not |
| `SettingsInvariants.ReachableConsistent` | config/config.go:14-40 | every config reachable from the default one: kill switch needs firewall, post-quantum NordLynx and no mesh, NordLynx UDP, ThreatProtectionLite no name servers; at most 3 valid sorted name servers; no private subnet under LAN discovery; ports from 1 |
| `SettingsInvariants.FirewallHeld` | daemon/rpc_set_firewall.go:24-46 | while nobody turns the kill switch off, no requests turn the firewall off |
| `SettingsInvariants.TechnologyHeld` | daemon/rpc_set_technology.go:42-59 | while nobody turns it off, post-quantum encryption holds NordLynx and UDP and keeps the mesh off |
| `SettingsInvariants.PostQuantumHeldOff` | daemon/rpc_set_postquantum.go:22-32 | while nobody turns the mesh off or logs out, post-quantum encryption stays off |
| `SettingsInvariants.ProtocolHeld` | daemon/rpc_set_protocol.go:26-36 | while nobody chooses another technology, NordLynx keeps to UDP |
| `SettingsInvariants.NameServersHeldOff` | daemon/rpc_set_threat_protection_lite.go:36-41 | while nobody turns it off or asks for name servers, ThreatProtectionLite keeps their list empty |
| `SettingsInvariants.PrivateSubnetsHeldOff` | daemon/rpc_set_lan_discovery.go:36-66 | while nobody turns LAN discovery off, no private subnet gets into the allowlist |
| `SettingsInvariants.LoginThenLogout` | daemon/rpc_logout.go:102-109 | logging in and out again restores the config |
| `SettingsInvariants.AutoConnectOnlyRetargets` | daemon/rpc_set_autoconnect.go:76-97 | the record is written anew field by field and still nothing but the target changes |
| `SettingsInvariants.PortsExactly` | daemon/rpc_set_allowlist.go:66-150 | success changes exactly start..max(start,end) of exactly the chosen protocols; any other answer changes nothing |
| `SettingsInvariants.SetIsUndoable` | daemon/rpc_set_allowlist.go:39-150 | after a successful Set the same Unset succeeds and leaves nothing of it |
| `SettingsInvariants.LimitKeptIff` | daemon/rpc_set_allowlist.go:45 | a successful request keeps all ports within 65535 iff its own end does |
| `SettingsInvariants.PortBeyondLimit` | daemon/rpc_set_allowlist.go:45 | port 70000 is reachable |
| `SettingsInvariants.DnsAlreadySetIff` | daemon/rpc_set_dns.go:23-66 | already set iff at most 3 addresses equal to the stored ones as multisets; what is stored is the request sorted |
| `SettingsInvariants.MeshWithoutRouting` | meshnet/server.go:94-233 | a run with the mesh on and routing off |
| `SettingsInvariants.NordLynxObfuscated` | daemon/rpc_set_obfuscate.go:14-52 | a run with obfuscation under NordLynx |
| `SettingsInvariants.TidyStepIff` | daemon/rpc_set_obfuscate.go:14-52 | a request breaks mesh-needs-routing, NordLynx-without-obfuscation or the port limit iff it succeeds and enables the mesh without routing, obfuscation under NordLynx, or ports beyond the limit |
| `SettingsInvariants.TidyRunsIff` | daemon/rpc_set_routing.go:18-48 | a run keeps these three rules throughout iff no such request in it succeeds |
| `SettingsInvariants.RefusalChangesNothing` | daemon/rpc_set_defaults.go:39-58 | an answer that is no success leaves the stored config as it was, with exactly two exceptions |
| `SettingsInvariants.RepeatChangesNothing` | daemon/rpc_set_technology.go:20-74 | a successful request made again changes nothing, whatever fails then |
| `SettingsAnswers.GrantedIff` | daemon/rpc_set_killswitch.go:12-64 | every request succeeds iff a condition on the stored config, the request and the answers of the outside world, written out per request |
| `SettingsAnswers.SuccessStores` | daemon/rpc_set_killswitch.go:50-59 | a request that succeeds stores the old config with exactly the requested change, written out per request |
| `SettingsAnswers.DependencyIff` | daemon/rpc_set_firewall.go:24-46 | the dependency refusal iff the kill switch holds the firewall, the firewall is off for the kill switch, or the mesh holds routing |
| `SettingsAnswers.PostQuantumRefusedIff` | daemon/rpc_set_postquantum.go:13-45 | which refusal post-quantum encryption and a change of technology get, and when |
| `SettingsAnswers.AllowlistRefused` | daemon/rpc_set_allowlist.go:39-119 | an allowlist request that is refused meets the very reason that the answer gives |
| `SettingsAnswers.AllowlistResetIff` | daemon/rpc_set_lan_discovery.go:36-87 | a successful change tells of a reset allowlist iff it dropped private subnets |
| `SettingsAnswers.DefaultAnswers` | config/config.go:14-40 | on a fresh installation every switch can be changed, and the protocol cannot |
| `Semver.PrefixNeverNewer` | pulp/versions.go:75-83 | a major.minor name that is a string prefix of a valid version never names a newer minor version |
| `Semver.MajorMinorIsPrefix` | pulp/versions.go:71-73 | a valid version starts with its own major.minor name iff it names its minor number |
| `Semver.EarlierIsOrder` | pulp/versions.go:69 | the comparison used for sorting is a strict weak order |
| `Semver.ParseFull` | pulp/versions.go:71 | every MAJOR.MINOR.PATCH string with a fit tail is read as these numbers and this tail |
| `Semver.ValidIff` | pulp/versions.go:71 | valid are exactly MAJOR, MAJOR.MINOR and MAJOR.MINOR.PATCH with a fit tail |
| `Retention.Transform` | pulp/versions.go:24-31 | every element mapped, in order |
| `Retention.Unique` | pulp/versions.go:33-45 | the elements once each, in any order |
| `Retention.Last` | pulp/versions.go:47-65 | the last `count` elements; none once int(count) is negative |
| `Retention.Filter` | internal/filter.go:5-14 | the elements that satisfy the predicate, in order |
| `Retention.PrefixTestIsExact` | pulp/versions.go:75-83 | the string-prefix test decides by the numeric rank of the minor version |
| `Retention.DeleteFrom` | pulp/versions.go:67-84 | by the numbers in the strings: a version with a minor number is deleted iff at least `count` greater pairs (major, minor) are listed; one without iff none is malformed or at least `count` pairs are listed; a malformed one iff that many pairs are listed and it starts with none of the newest `count`; copies share their fate; from 2^63 on everything goes |
| `Retention.NumberedIff` | pulp/versions.go:67-84 | a string has the pair that the comparison sees iff it has one of the three shapes with these numbers |
| `Retention.KeptName` | pulp/versions.go:73 | the names that are kept are those of the newest `count` minor versions |
| `Retention.LoneMajorGoes` | pulp/versions.go:75-83 | the only version there is, without a minor number, is deleted |
| `Credentials.RoundTrip` | internal/socket.go:187-215 | parsing what was printed returns the credentials iff uid and gid are below 2^31, and is an error otherwise |
| `Credentials.AuthTypeInjective` | internal/socket.go:187-190 | distinct credentials print differently |
| `Credentials.PrintedOrder` | internal/socket.go:187-190 | the printed order is process, user, group |
| `Credentials.ReadsThree` | internal/socket.go:193-215 | three numbers are read in this order, and negative ids wrap around |
| `Credentials.ParsesSign` | internal/socket.go:200-213 | a sign is read too, and the 32-bit range decides |
| `PortRanges.BuildRanges` | cli/cli_settings.go:97-122 | the ranges are exact for every port and protocol, ascending, disjoint, and no two neighbours could be joined |
| `PortRanges.DisplayAllowlist` | cli/cli_settings.go:91-122 | the same over the slice as sorting leaves it, which may have overwritten the UDP ports |
| `PortRanges.ShownExactlyIff` | cli/cli_settings.go:91-122 | what is shown is exact iff the UDP slice had no room for the TCP ports or no TCP port is below a UDP port |
| `PortRanges.SharedMemoryMisshows` | cli/cli_settings.go:94-97 | UDP 9 and TCP 1 in a slice with room for both are shown wrongly |
| `PortRanges.ProtocolsIs` | cli/cli_settings.go:97-122 | a port is labelled UDP iff it is in the UDP list and TCP iff it is in the TCP list, UDP first |
| `Names.SnakeCase` | internal/string.go:29-40 | the loop computes the compared form |
| `Names.SnakeOfTitle` | internal/string.go:22-40 | the compared form of a printed name is the compared form of the name |
| `Names.SnakeIdempotent` | internal/string.go:29-40 | a compared form is its own: lower case, without spaces or trailing underscore |
| `Names.TitleMatchesIff` | daemon/servers.go:292-299 | a printed name equals the compared form up to case iff it does not end in an underscore |
| `Names.SnakeOfWords` | internal/string.go:29-40 | two words are compared in lower case and joined by an underscore |
| `Names.SurvivesIff` | internal/string.go:42-44 | exactly letters, digits, spaces, hyphens and underscores survive |
| `Locations.LocationByName` | daemon/servers.go:292-310 | the first country in list order that the name fits, itself or by its first city |
| `Locations.LocationUnique` | daemon/servers.go:287-310 | that specification has one answer |
| `Locations.PrintedNameFound` | daemon/servers.go:292-310 | a listed country's printed name is found, at that country iff no earlier one has the name |
| `Locations.GenerateKeys` | daemon/job_servers.go:135-158 | the names under which a cached server is found, with uk for gb |
| `Locations.OfflineFindsCountry` | daemon/job_servers.go:135-158 | a tag that names a country online finds its cached servers in lower case, with the exact exceptions for gb and uk, and otherwise only by the host's name |
| `Locations.OfflineMissesGb` | daemon/job_servers.go:146-148 | gb fits the country online and is a key only by coincidence |
| `Locations.OfflineFindsCity` | daemon/job_servers.go:150-156 | the same for a tag that names a city online |
| `Locations.OfflineMissesGbCity` | daemon/job_servers.go:146-156 | gb and a city names the city online and is a key only by coincidence |
| `Locations.OnlineMissesUkCity` | daemon/servers.go:345-347 | uk and a city is a key of the cached servers, but online only if the country is named so |
| `Penalties.DistancePenalty` | daemon/penalty.go:14-16 | between 0 and 0.7 within the extremes |
| `Penalties.ObfuscationPenalty` | daemon/penalty.go:37-42 | between 0.85 and 1 for obfuscated servers within the extremes, 0 for others |
| `Ranking.PlaceServers` | daemon/job_servers.go:41-100 | fails iff some date cannot be read; otherwise every server is placed and the bounds are attained extremes |
| `Ranking.SetKeys` | daemon/job_servers.go:72 | every server gets the keys of its own record |
| `Ranking.ScoreServers` | daemon/job_servers.go:102-116 | every server gets its penalty and partial penalty, which `RankedScore` writes out |
| `Ranking.RankServers` | daemon/job_servers.go:31-122 | an empty list and unreadable dates are refused; otherwise the list is the placed, keyed and scored servers, stably sorted by penalty |
| `Ranking.PlainBeforeObfuscated` | daemon/job_servers.go:102-122 | of two servers the plain one ranks before the obfuscated one, by at least 0.15, if its load costs no more and its hub term is no smaller, however far it is |
| `Ranking.BetterFirst` | daemon/penalty.go:44-60 | of two servers of one kind, one that is nearer, younger (if obfuscated), of greater hub term or of cheaper load, and worse in no respect, ranks first |
| `RankingAnswers.RankedScore` | daemon/penalty.go:44-60 | every ranked server is a record of the list whose partial penalty is the formula of distance, age, obfuscation and hub score between the extremes of the list, and whose penalty adds the cost of its load |
| `RankingAnswers.HubTermIs` | daemon/penalty.go:18-35 | the hub score counts abroad only |
| `RankingAnswers.RankedComplete` | daemon/job_servers.go:102-122 | every server of the list is ranked and none is added |
| `Ranking.RankedKeys` | daemon/job_servers.go:72 | every ranked server carries the keys of its own record |
| `Ranking.DataManager.UpdateServerPenalty` | daemon/data_manager.go:145-161 | reprices at most the first server with the id, then sorts stably |
| `Ranking.DataManager.SetServerStatus` | daemon/data_manager.go:163-175 | changes the status of at most the first server with the id |
| `Ranking.DataManager.IndexOf` | daemon/data_manager.go:149-155 | the first server with the id |
| `Ranking.ReplaceFirstAt` | daemon/data_manager.go:149-155 | nothing but the first server with the id changes |
| `Ranking.UpdatesKeepRanked` | daemon/data_manager.go:145-175 | any updates keep the list sorted and a permutation by id and partial penalty |
| `Ranking.OthersKeepOrder` | daemon/data_manager.go:145-175 | an update leaves all other servers unchanged and in order |
| `Ranking.EqualPenaltiesStable` | daemon/data_manager.go:157-159 | servers of equal penalty stay in the order they had |
| `RankingAnswers.UpdatePrices` | daemon/data_manager.go:145-161 | an update adds the cost of the new load to the partial penalty of the first server with the id, stores its status, and otherwise only reorders |
| `RankingAnswers.UpdateRestates` | daemon/data_manager.go:163-175 | a change of status changes the first server with the id in place |
| `RankingAnswers.UnknownChangesNothing` | daemon/data_manager.go:145-175 | an update for an unknown id leaves a ranked list as it is |
| `RankingAnswers.OwnLoadChangesNothing` | daemon/data_manager.go:145-161 | in a fresh ranking an update with a server's own status and load changes nothing |
| `Ranking.DataManager.Countries` | daemon/data_manager.go:231-274 | fails iff the settings name no technology; otherwise the entries sorted by name |
| `Ranking.CountriesListed` | daemon/data_manager.go:231-274 | the listing is sorted and holds exactly the first listed server of each country code |
| `Ranking.EntriesCount` | daemon/data_manager.go:261-268 | one entry per country code |
| `RankingAnswers.CountriesAnswer` | daemon/data_manager.go:231-274 | the entries are exactly the printed names and virtual marks of the first servers of their country code that are online, offer the technology and are not virtual unless that is wanted |
| `Ranking.ListedNameFound` | daemon/data_manager.go:266 | every printed name leads back to a location |
| `ServerSelection.ServerTagFromString` | daemon/servers.go:329-370 | the tag's meaning: group, location, server name, or the right error |
| `ServerSelection.FindServer` | daemon/servers.go:360-368 | the first server with the name, or the error that the tag's shape decides |
| `ServerSelection.SpecificServerRemote` | daemon/servers.go:175-199 | one server that fits technology, protocol and obfuscation, or an error |
| `ServerSelection.ServersRemote` | daemon/servers.go:201-242 | never an empty list without an error |
| `ServerSelection.GetServers` | daemon/servers.go:58-155 | API first, cache on any failure, dedicated-IP and virtual servers dropped, one drawn; which cached servers these are, says `CachedCandidatesIff` |
| `ServerSelection.PickServer` | daemon/servers.go:23-56 | one server, an error, or a crash |
| `ServerSelection.EmptyIffStranded` | daemon/servers.go:117-155 | an empty list without error iff the cache matched two or more servers, all with a dedicated IP, for a tag that is no server's name; otherwise a query for one gets one |
| `ServerSelection.PickCrashesIff` | daemon/servers.go:54-55 | picking crashes exactly for such queries |
| `ServerSelection.QuickConnectCrashes` | daemon/servers.go:54-55 | a quick connect that does |
| `ServerSelection.ChosenFrom` | daemon/servers.go:140-152 | a chosen server is a candidate, and virtual only if that is allowed |
| `ServerSelection.CachedCanConnect` | daemon/servers.go:117-133 | a server from the cache satisfies canConnect, and among several has no dedicated IP |
| `ServerSelection.VirtualRefusedIff` | daemon/servers.go:140-146 | the virtual-server error iff there are candidates and all are virtual and that is not allowed |
| `ServerSelection.GroupOfTitle` | daemon/servers.go:372-378 | a printed group title selects the group of the title |
| `ServerSelection.PrintedNameResolves` | daemon/servers.go:345-358 | a printed country name resolves to a location, that country unless an earlier one has the name; one that reads uk iff gb is known |
| `ServerSelection.OfflineCandidates` | daemon/servers.go:405-447 | a cached server with fresh keys is a candidate for a tag that names its country online, with the exact exceptions |
| `Eligibility.CachedCandidatesIff` | daemon/servers.go:117-133 | without an answer of the API the candidates are exactly the cached servers that are online, speak the protocol, are obfuscated iff wanted, have the tag among their keys and are in the group, or in 17 or 11 if neither is given, without dedicated IPs among several; and it is an error iff there are none |
| `Eligibility.EligibleIff` | daemon/servers.go:405-447 | canConnect holds of exactly these servers |
| `Eligibility.ChosenEligible` | daemon/servers.go:117-152 | a server chosen from the cache is eligible for the very group that the query names, and virtual only if allowed |
| `Eligibility.AllChosen` | daemon/servers.go:117-152 | asked for any number but one, all candidates but forbidden virtual ones are chosen |
| `Eligibility.GroupResolvedIff` | daemon/servers.go:157-173 | the group is the one that the flag names or, without a flag, the tag; naming two and naming none by the flag are the only errors |
| `Eligibility.GroupIdIff` | config/server_groups.go:4-15 | which id goes with which name |
| `Eligibility.TagResolved` | daemon/servers.go:329-358 | a tag that is a location means that country or city by its id, and one that names a group the group |
| `Eligibility.ServerTagIs` | daemon/servers.go:360-369 | any other tag means the first server of that name, or an error that its shape decides |
| `Eligibility.NamedServerIff` | daemon/servers.go:175-199 | a named server is asked for by its id and is the answer iff it is online and fits the settings |
| `Eligibility.RemoteQuery` | daemon/servers.go:201-242 | what the API is asked for: 20 servers to draw one from, the id of the technology, and group 17 for obfuscation without a group |
| `Eligibility.RefusedAtOnceIff` | daemon/servers.go:77-90 | dedicated servers and impossible tags are refused at once |
| `Eligibility.TechnologyIdIff` | daemon/servers.go:380-403 | which technology id goes with which settings |
| `Eligibility.TechnologyConnects` | core/models.go:297-320 | a server that offers it can be connected to with the settings, and settings that name none fit no server |
| `Eligibility.VirtualIff` | core/models.go:327-338 | a server is virtual iff the first specification of that name reads as true |
| `PeerMaps.MakePeerMaps` | meshnet/server.go:3124-3138 | both maps answer like a linear scan of external then local peers |
| `PeerMaps.IndexFinds` | meshnet/server.go:3124-3138 | a name is present iff some peer has it, and leads to the last peer that has it |
| `PeerMaps.LocalFirst` | meshnet/server.go:3127 | an external peer is found only under names that no local peer has |
| `PeerMaps.NamesAreLower` | meshnet/server.go:3129-3134 | only lower-case names are known |
| `PeerMaps.PeerNamesIff` | meshnet/server.go:3129-3136 | a peer is known by its address, its host name with and without the domain, and its nickname with and without the domain, and by nothing else |
| `ProcessMonitoring.ProcessMonitor.ChangeState` | norduser/process_monitor.go:49-104 | the new state and the call made, for every pair of states and every outcome |
| `ProcessMonitoring.ProcessMonitor.HandleUTMPFileUpdate` | norduser/process_monitor.go:161-179 | every tracked user is taken towards the logins, in any order; nothing happens if they cannot be read |
| `ProcessMonitoring.ProcessMonitor.HandleGroupFileUpdate` | norduser/process_monitor.go:124-159 | new members are tracked, former ones stopped and dropped, in any order |
| `Sessions.PhaseIsLanguage` | norduser/process_monitor.go:31-48 | the two phases are the languages (Enable Restart* Stop)* and (Enable Restart* Stop)* Enable Restart* |
| `ProcessMonitoring.TrackedSessions` | norduser/process_monitor.go:49-179 | in every run a tracked user is inactive or running, and the calls that worked since tracking began are whole sessions, then an open one iff it runs |
| `ProcessMonitoring.CallsExplained` | norduser/process_monitor.go:31-104 | in every run each event adds exactly the successful calls that explain a user's change of state: a restart iff the last graphical session went |
| `ProcessMonitoring.CallsMade` | norduser/process_monitor.go:49-179 | which call each event makes for each user: enable on login, stop on logout or leaving, restart only from graphical to text, and none without ids |
| `ProcessMonitoring.UtmpReachesIff` | norduser/process_monitor.go:161-179 | a user reaches the state asked for iff no call was needed or it worked |
| `ProcessMonitoring.UtmpIdempotent` | norduser/process_monitor.go:161-179 | if all calls work, one update reaches exactly the logins and repeating it calls nothing |
| `ProcessMonitoring.OrderIrrelevant` | norduser/process_monitor.go:167-176 | the iteration order shows in no state and in no user's calls |
| `ProcessMonitoring.LeftRunning` | norduser/process_monitor.go:150-156 | a user dropped from the group is left running iff it ran and the stop failed |
| `ProcessMonitoring.EnabledTwice` | norduser/process_monitor.go:124-159 | a run in which such a user joins again and a second session is started on top of the first |

## Left out

- The command line, the HTTP clients, the VPN and firewall back ends, notifications, logging, D-Bus and
  systemd: user interface, foreign calls or code whose bodies are elsewhere.
- Concurrency inside one request or event: mutexes make each of them one step, and an unbuffered channel is
  the log of what was sent on it; `StatusStream.StartTransferStatusStream` shows that every send is received.
- Live files are values in a live transfer's map, not objects of their own, so that two references to one
  file are not modelled.
- The rounding of the progress percentage is that of integer division; the float conversion and its result
  beyond the range of uint32 are not modelled.
- The checks of a download directory (owner, groups, mode bits) are one answer of the file system, and so is its
  free space, a product that the code takes in uint64.
- The path shown for a transfer and the full paths of files (`determineTransferPath`, `determineFull...Path`)
  are not part of this model.
- Requests whose config cannot be loaded, config files of older versions, and the first load of a new
  installation, where maps are nil.
- SetAutoConnect's and SetObfuscate's choice of a server is one answer (`guard`), and the several error codes
  of login, Logout, EnableMeshnet, DisableMeshnet and SetAutoConnect are folded into one per kind of failure.
- The agreement of the networker's live state with the stored config, which SetDefaults and failed saves break.
- What a login stores besides the id of the account, and the two ways to get a token, are not part of this model.
- `net.ParseIP`, `net.ParseCIDR` and the private-network test are uninterpreted; a port range whose end is
  the greatest int64, for which the loop would overflow, is not modelled.
- Semver.EarlierIsOrder: versions that differ only after major, minor and patch are ordered by their bytes, not
  by pre-release precedence, and the grammar of what follows the patch number is a parameter; retention
  depends on neither.
- Text outside ASCII: lower-casing is that of ASCII; folding is exact when one side is ASCII, which holds for
  every name that is compared. Title-casing is a parameter that changes only the case of letters.
- Ranking.RankServers: floats are reals, the two fractional powers are parameters, and the servers must differ
  in distance and, if any is obfuscated, in age, because otherwise scores are not numbers.
- Ranking.BetterFirst: takes from the fractional power only that it rises on the unit interval.
- Ranking.DataManager.Countries: the order among equal names, which the library sort leaves open, is stable here.
- The Cities and Groups listings, dedicated-IP selection after ErrDedicatedIPServer, and `serverTagToServerBy`
  would only add members of the same kind.
- The process monitor's file watching, and the C code that reads the table of logins.
