# A verified model of PactMesh

PactMesh is a mesh VPN whose networks are governed by a signed network state. This project models,
in Dafny, the parts of it where most can go wrong, and proves what they promise over all inputs and
all runs.

- **Packet filter** (`AclTypes`, `AclMeaning`, `AclRules`, `AclEngine`, `AclSimulation`, `AclAnswers`,
  `AclCapacity`, `AclLedgers`, `AclLimits`, `AclProcessors`). Rules are compiled into vectors, a packet takes
  the first match, and the answer is cached with the rate-limit and connection effects to replay. Every
  packet of every run with evictions, sweeps, refills and hot reloads is answered as the configuration says.
- **Whitelists and port lists** (`AclWhitelist`, `Ports`, `PortMeaning`, `Text`,
  `TextMeaning`). What an operator types on the command line is
  what the compiled rules allow.
- **Trust governance** (`TrustState`, `TrustRuns`, `TrustShape`, `TrustMembers`, `TrustDevices`,
  `TrustOverlay`, `TrustStores`, over `Keyed`, `StringOrder`, `HintNames` and `DeviceRows`). The
  `handle_trust_*` commands as transitions of the signed state, and what every run of them keeps.
- **Waiting for instances** (`InstanceWait`). The waiter, the instance threads, the stop tasks and the
  daemon guards as one state machine: no wake-up is lost.
- **Compression** (`Compressor`), **shell quoting** (`ShellQuote`) and **configuration conversion**
  (`ConfigTypes`, `ConfigText`, `ConfigConversion`, `ConfigLaws`, `ConfigFixpoint`, `ConfigMeaning`,
  `ConfigLibrary`, `ConfigLoaders`, `FlagTable`): round trips, and exactly where they stop.

Code that computes values is modelled by functions. Code that updates objects or loops is modelled by
classes and methods, each proved equal to a function, and the theorems are about those functions.

Where a promise does not hold of the code as it is, the code is kept and the exact condition is proved:

- The cache key writes a missing port as port 0, so two such packets share an answer
  (`CacheInvisibleExactly`); the packets the filter extracts never do (`ExtractedRunsFaithful`).
- The missing-bucket panic stays out of reach only while the two sweeps of the cleanup task are at most
  five seconds apart (`PanicFreeExactly`).
- A wake-up can be lost through an instance without a stop task, a reused identifier, or a deletion
  before the stop task is spawned (`NeverStuckExactly`).
- A packet can compress so well that decompression gives up on it (`RoundTripExactly`).
- Renaming a device drops its disabled entry, capability grant, hostname binding and tags, since those
  stay with the old certificate (`RenameKeepsStandingExactly`), and a tag left behind blocks every later
  tag command (`StaleTagsAreStuck`).
- A device approved twice, or revoked and approved again, has two rows in the member listing. From then on
  every rename and tag update of it is refused as ambiguous, whatever is done to it (`LockedForever`,
  `RenamableExactly`).
- At the largest version a reissued certificate can be one that was revoked (`RenameReusesAtSaturation`), and
  a rename can bring back a hostname that another device has taken (`RenameCanDuplicateHostname`).
- Rate limits are kept per chain type and priority, so rules of one priority share a bucket
  (`IndependentExactly`).
- Converting a configuration twice can differ from converting it once when all of its port forwards use
  version 6 addresses (`IdempotentExactly`).

A comment in the source gives the cleanup interval as five minutes; the code says 20 seconds, and the
model follows the code.

Assumptions are parameters with their laws stated: `Lawful` for the compressor's codec and for the
printing and parsing libraries of the configuration, `Signed` and `Reissuable` for the certificates the root issues,
`HonestOrder` for the iteration order of a map, `Level` for device ids, which encode keys and so have
one length (`pactmesh/src/trust/device_view.rs:105-107`). Clocks, random identifiers and the machine's name are
parameters too.

## Model

| member | source | states |
|---|---|---|
| `AclRules.BuildRules` | pactmesh/src/common/acl_processor.rs:322-367 | the loop over enabled chains leaves in each vector exactly the enabled rules of that type, chain by chain, each chain sorted by descending priority with ties in order |
| `AclRules.TagsOrdered` | pactmesh/src/common/acl_processor.rs:322-367 | the compiled vector of a type is the conversion of the configured rules in the order (chain position, priority descending, rule position) |
| `AclRules.DefaultIsFirst` | pactmesh/src/common/acl_processor.rs:280-319 | the default of a type is that of its first chain, enabled or not, and allow when there is none |
| `AclRules.WinnerUnique` | pactmesh/src/common/acl_processor.rs:526-615 | a packet has at most one winner: the matching enabled rule that precedes every other by chain position, then priority, then position |
| `AclMeaning.MatchesMeaning` | pactmesh/src/common/acl_processor.rs:645-730 | a compiled rule matches a packet exactly if the packet meets the rule as configured: protocol, source and destination address each in a readable network of its own list, each port between the numbers of a readable text of its own list, each group named in its own list, where a list without a readable entry and a missing port pass |
| `AclMeaning.ContainsHolds` | pactmesh/src/common/acl_processor.rs:651-681 | a network holds an address exactly if both have one family and lie in one aligned block of the network's size |
| `AclMeaning.DestinationIgnored` | pactmesh/src/common/acl_processor.rs:645-730 | a rule that names no destination does not depend on the packet's destination address, port or groups |
| `AclMeaning.SourceIgnored` | pactmesh/src/common/acl_processor.rs:645-730 | a rule that names no source does not depend on the packet's source |
| `AclRules.WinnerDecides` | pactmesh/src/common/acl_processor.rs:526-615 | the scan decides by the winner exactly if there is one, the default applies exactly if no live rule is met by the packet, and priority never orders rules across chains |
| `AclAnswers.ScanAnswers` | pactmesh/src/common/acl_processor.rs:526-615 | a scan answers as the configuration says: the winning rule's action and id, tracked exactly if it is stateful and allows, dropped for its rate exactly if it has a limit and its bucket no token; without a candidate the default of the first chain of the type |
| `AclAnswers.ProcessAnswers` | pactmesh/src/common/acl_processor.rs:486-615 | so does a call of the cached processor, save the rule id reported with a rate drop |
| `AclAnswers.RunAnswers` | pactmesh/src/common/acl_processor.rs:486-642 | so is every packet of every on-schedule run answered, by the configuration then in force, across evictions, sweeps, refills and reloads |
| `AclAnswers.ExtractedRunsAnswered` | pactmesh/src/peers/acl_filter.rs:140-229 | in particular from a processor just built, over the packets that the filter extracts |
| `AclAnswers.BucketEffect` | pactmesh/src/common/acl_processor.rs:778-809 | a limited rule takes one token of its own bucket when it passes a packet, a new bucket holding the burst, and touches no other |
| `AclAnswers.ConnectionEffect` | pactmesh/src/common/acl_processor.rs:743-776 | only a stateful rule that allows the packet opens or advances a connection, and only the packet's own |
| `AclAnswers.SharedConnectionExactly` | pactmesh/src/common/acl_processor.rs:732-740 | two packets share a connection entry exactly if addresses and ports agree, a missing port counting as 0 |
| `AclAnswers.StatTells` | pactmesh/src/common/acl_processor.rs:486-615 | one call raises one statistic by one, the one that tells how the packet was decided |
| `AclAnswers.AnswerIsCached` | pactmesh/src/common/acl_processor.rs:633-642 | while there is room an answer is in the cache for the next packet of its key, and nothing else in it changes |
| `AclAnswers.ConnsSwept` | pactmesh/src/common/acl_processor.rs:905-927 | connections unseen for more than 60 seconds go, and no other |
| `AclAnswers.BucketsSwept` | pactmesh/src/common/acl_processor.rs:383-386 | buckets unused for 20 seconds go, and no other |
| `AclSimulation.ReplayIsScan` | pactmesh/src/common/acl_processor.rs:434-469 | replaying a cached entry has the effect of scanning the packet again: same buckets, connections and counters, same answer |
| `AclSimulation.HitEntry` | pactmesh/src/common/acl_processor.rs:486-524 | a hit finds exactly the entry that scanning this packet now would leave |
| `AclSimulation.CachedSimulatesPlain` | pactmesh/src/common/acl_processor.rs:486-642 | over every run of packets, clock ticks, sweeps, evictions, refills and reloads the cached processor and the plain scan give the same answers and leave the same tables |
| `AclSimulation.CacheInvisibleExactly` | pactmesh/src/common/acl_processor.rs:93-106 | the cache is invisible on a set of packets if and only if its key tells their flows apart; the key confuses a missing port with port 0 |
| `AclSimulation.ProbeExposes` | pactmesh/src/common/acl_processor.rs:93-106 | a concrete rule and two packets, one without the port and one with port 0, that get one answer from the cache and two from the scan |
| `AclSimulation.TimingStep` | pactmesh/src/common/acl_processor.rs:370-458 | a step on schedule keeps every rate-limit key of a cached entry backed by a bucket at least as fresh as the entry |
| `AclSimulation.NeverPanics` | pactmesh/src/common/acl_processor.rs:434-458 | the missing-bucket panic is unreachable in every run whose bucket sweep follows its cache sweep within five seconds |
| `AclSimulation.PanicFreeExactly` | pactmesh/src/common/acl_processor.rs:370-398 | five seconds is exact: the panic is unreachable for every run if and only if the two sweeps are at most that far apart |
| `AclSimulation.LateSweepPanics` | pactmesh/src/common/acl_processor.rs:370-398 | for every longer gap, a run from a fresh processor that ends in the panic |
| `AclSimulation.PresenceByProtocolSuffices` | pactmesh/src/common/acl_processor.rs:93-106 | a set of packets in which the protocol says which ports are present has its flows told apart by the key |
| `AclSimulation.ExtractedRunsFaithful` | pactmesh/src/peers/acl_filter.rs:140-229 | packets as the filter extracts them carry ports exactly for TCP and UDP, so on every on-schedule run of them from a fresh processor the cache is invisible |
| `AclCapacity.CleanupEvictsOldest` | pactmesh/src/common/acl_processor.rs:400-431 | cleanup drops idle entries, then goes to exactly max - max/5 if more than max remain, and never evicts an entry used later than one it keeps |
| `AclCapacity.RecentMeaning` | pactmesh/src/common/acl_processor.rs:400-405 | an entry survives the idle test exactly if used less than 15 seconds ago, and in the machine's first 15 seconds none does |
| `AclCapacity.CacheBounded` | pactmesh/src/common/acl_processor.rs:633-642 | after any event of any run the cache holds at most twice its nominal size |
| `AclLedgers.CallsConserved` | pactmesh/src/common/acl_processor.rs:486-642 | over every run each call on a supported chain is counted in exactly one statistic, except scans refused for their rate |
| `AclLedgers.PlainCountersAreLedgers` | pactmesh/src/common/acl_processor.rs:460-469 | along every plain run each rule counter is the sum of what its packets earned since the last reload, twice per packet for a rate-limited rule |
| `AclLedgers.PlainConnsAreLedgers` | pactmesh/src/common/acl_processor.rs:743-776 | along every plain run a connection entry records exactly the stateful packets since it was last absent: count, bytes, first and last time, established from the second on |
| `AclLedgers.CachedLedgers` | pactmesh/src/common/acl_processor.rs:486-642 | the same for the real processor, across evictions, sweeps and reloads |
| `AclLimits.BucketsAreIsolated` | pactmesh/src/common/acl_processor.rs:533-536 | over every run the answers to the packets of one bucket stay the same when every other packet is left out |
| `AclLimits.TokensArePasses` | pactmesh/src/common/acl_processor.rs:778-809 | between refills a bucket passes exactly as many of its packets as it has tokens |
| `AclLimits.BurstPasses` | pactmesh/src/common/acl_processor.rs:778-809 | a bucket not yet there passes exactly the burst |
| `AclLimits.IndependentExactly` | pactmesh/src/common/acl_processor.rs:531-545 | a rule's rate limit stands on its own, from all tables and in all runs, exactly if no other limited rule of its type has its priority, among rules that decide some packet |
| `AclProcessors.AclProcessor.constructor` | pactmesh/src/common/acl_processor.rs:240-278 | hot reload keeps the shared tables and starts the cache and the rule counters afresh |
| `AclProcessors.AclProcessor.CheckLimit` | pactmesh/src/common/acl_processor.rs:778-809 | finds or creates the bucket, stamps it, takes one token; the missing bucket is the panic |
| `AclProcessors.AclProcessor.CheckConnection` | pactmesh/src/common/acl_processor.rs:743-776 | creates the connection entry or advances it |
| `AclProcessors.AclProcessor.IncStats` | pactmesh/src/common/acl_processor.rs:460-469 | credits each listed statistics object once per listing |
| `AclProcessors.AclProcessor.ProcessWithEntry` | pactmesh/src/common/acl_processor.rs:434-458 | the loop over rate keys and the effects that follow are the replay of the entry |
| `AclProcessors.AclProcessor.CleanupCache` | pactmesh/src/common/acl_processor.rs:400-431 | in place: idle entries out, then the oldest |
| `AclProcessors.AclProcessor.CacheEntryUnder` | pactmesh/src/common/acl_processor.rs:633-642 | insert, and clean up beyond twice the nominal size |
| `AclProcessors.AclProcessor.ScanRules` | pactmesh/src/common/acl_processor.rs:526-615 | the loop over the rule vector is the plain scan, yields the entry to cache unless refused, and answers as any configuration it was compiled from says |
| `AclProcessors.AclProcessor.Process` | pactmesh/src/common/acl_processor.rs:486-615 | the whole packet path on the object's fields and shared tables is the step function the run theorems are about, and its outcome is what the configuration owes the packet |
| `AclProcessors.AclProcessor.SweepCacheNow` | pactmesh/src/common/acl_processor.rs:376-381 | one cache sweep of the cleanup task |
| `AclProcessors.AclProcessor.SweepBucketsNow` | pactmesh/src/common/acl_processor.rs:383-386 | one bucket sweep of the cleanup task |
| `AclProcessors.AclProcessor.CleanupExpiredConnections` | pactmesh/src/common/acl_processor.rs:905-927 | collecting and then removing idle keys leaves exactly the fresh connections |
| `AclWhitelist.AclRuleBuilder.GenerateAclFromWhitelists` | pactmesh/src/common/acl_processor.rs:1091-1210 | appends one inbound chain exactly if every port list is accepted; otherwise the policy is untouched and the error is the first complaint, TCP list first |
| `AclWhitelist.CompiledRanges` | pactmesh/src/common/acl_processor.rs:837-847 | an accepted whitelist compiles to its ranges one by one, so a non-empty one never becomes an unrestricted rule |
| `AclWhitelist.AppendKeepsDecisions` | pactmesh/src/common/acl_processor.rs:1195-1208 | the appended chain changes no outbound or forward decision and none that a user rule makes |
| `AclWhitelist.WhitelistMeaning` | pactmesh/src/common/acl_processor.rs:1091-1210 | otherwise a packet of a protocol with a whitelist is allowed if and only if its destination port lies between numbers typed in the list or is absent, under the priority given, one below for UDP behind TCP, and any other packet takes the old default |
| `AclWhitelist.OperatorMeaning` | pactmesh/src/common/acl_processor.rs:1091-1210 | the same read off the lists as typed, before the command line prints them and the builder parses them again |
| `AclWhitelist.ApplyTypedLists` | pactmesh/src/pactmesh.rs:4026-4055 | both typed lists through the parser and the builder: succeeds exactly if every element is well formed, and then the compiled policy decides every packet as the typed lists say |
| `Ports.BuilderParsePortList` | pactmesh/src/common/acl_processor.rs:1052-1089 | accepts exactly the lists whose every element is well formed, and reports the first complaint |
| `Ports.CliParsePortList` | pactmesh/src/pactmesh.rs:4026-4055 | the same for the comma-separated list of the command line |
| `Ports.CliListAccepted` | pactmesh/src/pactmesh.rs:4026-4055 | every list the command line accepts is printed in a form the builder accepts, range by range the same |
| `Ports.BuilderTextKept` | pactmesh/src/common/acl_processor.rs:964-973 | what the builder stores, the compiler reads as the same range |
| `Ports.PortsSurviveThePipeline` | pactmesh/src/pactmesh.rs:4026-4055 | end to end the compiled range is the one the operator typed |
| `PortMeaning.SpecMeaning` | pactmesh/src/common/acl_processor.rs:1052-1089 | a specification is accepted as a range exactly if it is typed as its numbers, one or two around a dash, in order |
| `PortMeaning.SpecComplaints` | pactmesh/src/common/acl_processor.rs:1052-1089 | which complaint a refused specification draws |
| `PortMeaning.RangeReads` | pactmesh/src/common/acl_processor.rs:964-973 | the compiler reads a text as a range exactly if it is one numeral or two around the first dash, each between white space |
| `PortMeaning.TypedListReads` | pactmesh/src/pactmesh.rs:4026-4030 | a list typed with commas and white space reads as its specifications |
| `InstanceWait.RunKeepsInv` | pactmesh/src/instance_manager.rs:60-121 | every interleaving of instance threads, stop tasks, guards and the waiter keeps the invariant |
| `InstanceWait.NoLostWakeUp` | pactmesh/src/instance_manager.rs:268-282 | once everything has stopped, a waiter that decided to wait has a wake-up stored or still coming |
| `InstanceWait.ReturnIsJustified` | pactmesh/src/instance_manager.rs:268-282 | wait returns only with no guard held and every instance it set out to visit stopped |
| `InstanceWait.ClosingStepEnabled` | pactmesh/src/instance_manager.rs:268-282 | while the waiter has not returned, some closing step is possible that is neither a deletion nor the drop of a guard |
| `InstanceWait.ClosingStepProgresses` | pactmesh/src/instance_manager.rs:60-121 | each closing step brings the system strictly closer to rest |
| `InstanceWait.WaitReturns` | pactmesh/src/instance_manager.rs:268-282 | from every quiet reachable state, under any schedule, closing steps are at most a computed number, and once no step of a thread, stop task or waiter is left, wait has returned, whether or not stopped instances were deleted |
| `InstanceWait.UnwatchedSticks` | pactmesh/src/instance_manager.rs:102-121 | an instance started without a stop task can leave the waiter asleep for good |
| `InstanceWait.EarlyDeleteSticks` | pactmesh/src/instance_manager.rs:135-145 | so can deleting an instance before its stop task is spawned |
| `InstanceWait.ReuseSticks` | pactmesh/src/instance_manager.rs:60-100 | so can reusing an identifier, whose new task replaces and aborts the old one |
| `InstanceWait.NeverStuckExactly` | pactmesh/src/launcher.rs:436-479 | wake-ups are never lost if and only if none of the three uses is allowed |
| `InstanceWait.RunIsTold` | pactmesh/src/instance_manager.rs:60-121 | after every run guards and instances are in exactly the state that the events of the run put them in |
| `InstanceWait.PermitExactly` | pactmesh/src/instance_manager.rs:264-282 | a permit appears with a notification and goes only with the waiter taking it |
| `InstanceWait.NotifiedWakes` | pactmesh/src/instance_manager.rs:264-282 | after a notification, whatever else happens, a parked waiter can wake |
| `InstanceWait.RunKeepsMapSound` | pactmesh/src/instance_manager.rs:60-145 | in every run whatsoever, ids in the map are distinct and an instance leaves the map only after its thread has ended |
| `InstanceWait.ScanVisitsMap` | pactmesh/src/instance_manager.rs:268-282 | a scan sets out to visit exactly the instances of the map |
| `Compressor.DecompressRaw` | pactmesh/src/common/compressor.rs:60-90 | the five attempts with a doubling buffer succeed exactly up to the last buffer's size |
| `Compressor.ZCPacket.CompressInPlace` | pactmesh/src/common/compressor.rs:95-130 | in place: payload and tail replaced, header flag set, other bytes kept |
| `Compressor.ZCPacket.DecompressInPlace` | pactmesh/src/common/compressor.rs:132-175 | in place: checks of tail, algorithm and length in order, then payload restored |
| `Compressor.CompressExactly` | pactmesh/src/common/compressor.rs:95-130 | a packet is compressed exactly if compression is on, it is not yet compressed, encoding succeeds and the result with its tail is no longer than the header says; it then ends in the tail byte behind bytes that decode to the original; otherwise it is unchanged, with an error exactly if encoding fails |
| `Compressor.DecompressExactly` | pactmesh/src/common/compressor.rs:132-175 | a compressed packet is restored exactly if it ends in the tail byte and the rest decodes to as many bytes as the header says, within the last buffer; else the first reason that applies is the error |
| `Compressor.RoundTripExactly` | pactmesh/src/common/compressor.rs:60-175 | decompressing what compress left gives the packet back exactly if it was not marked compressed before and was left alone, or its header length is right and its payload fits the last buffer |
| `Compressor.CompressShrinks` | pactmesh/src/common/compressor.rs:95-130 | compression never lengthens a payload, and repeating it changes nothing |
| `Compressor.DecompressAllOrNothing` | pactmesh/src/common/compressor.rs:132-175 | a failed decompression leaves the packet as it was |
| `Compressor.OversizePacketIsRefused` | pactmesh/src/common/compressor.rs:60-90 | for every size beyond 64 KiB a lawful codec compresses a payload that decompression then refuses |
| `ShellQuote.QuoteRoundTrip` | pactmesh/src/pactmesh.rs:6418-6420 | reading a quoted string by sections 2.2.1 to 2.2.3 and 2.3 of the POSIX.1-2017 Shell Command Language gives one word, every character literal |
| `ShellQuote.CommandLineRoundTrip` | pactmesh/src/pactmesh.rs:6418-6420 | a line of quoted words reads back as those words, none active |
| `ShellQuote.ScriptReads` | pactmesh/src/pactmesh.rs:5333-5343 | a script of plain text, blanks, operators, double-quoted markers and quoted values reads as exactly the tokens it stands for |
| `ShellQuote.QuotedValueIsWord` | pactmesh/src/pactmesh.rs:5333-5343 | a quoted value between blanks or operators is one word of the script, whatever it contains |
| `ShellQuote.NestedRoundTrip` | pactmesh/src/pactmesh.rs:5333-5352 | the join job inside its wrapper: the outer shell reads the wrapper with the job as one word, the inner shell reads the job with the invitation and every path as one word |
| `TrustRuns.VersionStep` | pactmesh/src/pactmesh.rs:8181-8188 | an effective command moves to the next version, any other changes neither version nor payload |
| `TrustRuns.VersionDeterminesPayload` | pactmesh/src/pactmesh.rs:8181-8188 | along every run, below saturation, equal versions mean equal payloads |
| `TrustRuns.VersionSaturates` | pactmesh/src/pactmesh.rs:8181-8188 | at the largest version they do not |
| `TrustRuns.DisableEnableExactly` | pactmesh/src/pactmesh.rs:8272-8353 | disable then enable restores the payload exactly if the member was not disabled before, with the version up by two |
| `TrustRuns.OtherFacetsKept` | pactmesh/src/pactmesh.rs:7430-7432 | a command leaves the disabled entry, grant and binding of everyone but its target alone, and of everyone who is revoked |
| `TrustRuns.RevokedMemberFrozen` | pactmesh/src/pactmesh.rs:6981-6998 | along every run the revocation list only grows, and a revoked member's disabled entry, grant, binding and tags never change again |
| `TrustShape.RunKeepsShape` | pactmesh/src/pactmesh.rs:7493-7508 | in every reachable state: one disabled entry, grant, binding and address per key, no override equal to its certificate, tags non-empty and strictly sorted, at most 64 of them, hints strictly sorted by URL |
| `TrustShape.AddHintEffect` | pactmesh/src/pactmesh.rs:7758-7814 | adding a hint changes something exactly if its URL is not listed with that very hint, decides its URL, leaves every other URL and the rest of the state alone and is idempotent |
| `TrustShape.RemoveHintEffect` | pactmesh/src/pactmesh.rs:7782-7814 | removing a hint never fails, changes something exactly if its URL is listed, and then takes out that URL and no other, under the next version; repeating it changes nothing |
| `HintNames.NormalizeNames` | pactmesh/src/pactmesh.rs:7685-7693 | the loop and what follows compute the normal form |
| `HintNames.NormalizedMeaning` | pactmesh/src/pactmesh.rs:7685-7693 | the non-empty trimmed lower-case names, each once, strictly ascending |
| `HintNames.NormalizedReads` | pactmesh/src/pactmesh.rs:7685-7693 | said of the names given: exactly the non-empty ones without the white space around them, letters A to Z in lower case |
| `HintNames.NormalizedIdempotent` | pactmesh/src/pactmesh.rs:7685-7693 | normalising twice changes nothing |
| `TrustRuns.RenameOutcome` | pactmesh/src/pactmesh.rs:7311-7380 | a rename changes the state exactly if the name is given and new and the certificate is a live one and the only row of its device, and then to a state written out in full; otherwise the first guard that fails is the error |
| `TrustMembers.MembershipStep` | pactmesh/src/control/mod.rs:359-371 | a command brings at most one certificate into the index and takes out only one that it revokes |
| `TrustMembers.RunKeepsAccounts` | pactmesh/src/pactmesh.rs:8754-8774 | in every run, indexed certificates are on disk and no newer than the state, and only indexed or revoked ones are mentioned anywhere |
| `TrustMembers.RenameIsFresh` | pactmesh/src/pactmesh.rs:7359-7377 | below saturation a reissued certificate was never indexed, revoked or mentioned before, because it names the next version |
| `TrustMembers.RenameReusesAtSaturation` | pactmesh/src/pactmesh.rs:7359-7377 | a signed run at the largest version, renaming there and back, that indexes a certificate it has revoked |
| `TrustMembers.UniqueIndexStep` | pactmesh/src/pactmesh.rs:7284-7377 | a command never indexes a certificate twice: a replacement that is indexed already would be a second row of its device, and then the rename is refused |
| `TrustMembers.RunKeepsUniqueIndex` | pactmesh/src/control/mod.rs:359-371 | so the index is free of duplicates after every run, at every version |
| `TrustMembers.RunKeepsIndexNames` | pactmesh/src/pactmesh.rs:8754-8774 | every index entry carries the name in its certificate, after every run |
| `TrustMembers.RenameKeepsStandingExactly` | pactmesh/src/pactmesh.rs:7328-7377 | a rename carries status, capabilities, hostname and tags over exactly if no disabled entry, grant, binding or tag names the old certificate; the address always carries over |
| `TrustMembers.TagEditExactly` | pactmesh/src/pactmesh.rs:7590-7655 | a tag edit is performed exactly if it is of a live certificate that is the only row of its device, would change something, passes the policy's own checks, and no tag lists a certificate missing from the index |
| `DeviceRows.SelectableExactly` | pactmesh/src/pactmesh.rs:7284-7308 | some device selector finds a certificate exactly if it is indexed, known, and the only row of its device |
| `TrustDevices.LockedUnreachable` | pactmesh/src/pactmesh.rs:7284-7308 | when a device has several rows, or one that is revoked, no selector of it leads to a certificate that is not revoked |
| `TrustDevices.LockedForever` | pactmesh/src/pactmesh.rs:7284-7335 | such a device stays so: along every run every rename and tag update of it is refused, and the tags of its certificates never change |
| `TrustDevices.RenamableExactly` | pactmesh/src/pactmesh.rs:7284-7380 | a listed device is renamed by some signed run exactly if it is not in that condition now |
| `TrustDevices.ReapprovedDeviceIsLocked` | pactmesh/src/pactmesh.rs:8713-8774 | a signed run from an empty network, approve, revoke and approve again, that leaves a live device in that condition |
| `TrustMembers.TagRefusals` | pactmesh/src/pactmesh.rs:7600-7648 | the error of a refused tag edit: the lookup's, then revocation, then the policy's checks in their order |
| `TrustMembers.RenameMakesStale` | pactmesh/src/pactmesh.rs:7363-7377 | renaming a tagged device leaves such a certificate behind |
| `TrustMembers.StaleTagsAreStuck` | pactmesh/src/pactmesh.rs:7605-7655 | from then on no run changes any tag unless it enrols that very certificate anew |
| `TrustOverlay.EditedMeaning` | pactmesh/src/pactmesh.rs:7450-7468 | a capability edit sets what it names, keeps the rest, and lists subnets strictly sorted |
| `TrustOverlay.SetCapabilitiesEffect` | pactmesh/src/pactmesh.rs:7489-7508 | the requested capabilities become the target's effective ones, nobody else's change, and repeating the command changes nothing |
| `TrustOverlay.SetCapabilitiesOutcome` | pactmesh/src/pactmesh.rs:7417-7487 | when and why the command is refused, in the order of the code, and that it is a no-op exactly if nothing new is asked |
| `TrustOverlay.DisableEffect` | pactmesh/src/pactmesh.rs:8248-8286 | disabling records what was given, over any older entry, or says why not |
| `TrustOverlay.EnableEffect` | pactmesh/src/pactmesh.rs:8330-8347 | enabling succeeds exactly on a disabled member that is not revoked; revocation is the first reason to refuse |
| `TrustOverlay.UpdateTagEffect` | pactmesh/src/pactmesh.rs:7610-7629 | a tag command decides its own membership and no other |
| `TrustOverlay.AssignIpv4Effect` | pactmesh/src/pactmesh.rs:8397-8463 | an assignment decides the device's address and no other's; revocation does not stop it |
| `TrustOverlay.TakenMeaning` | pactmesh/src/control/mod.rs:336-356 | the conflict check finds a hostname exactly if another live member with a known certificate has it |
| `TrustOverlay.SetHostnameEffect` | pactmesh/src/pactmesh.rs:8101-8132 | the requested hostname becomes the target's effective one, nobody else's changes, and repeating the command changes nothing |
| `TrustOverlay.SetHostnameOutcome` | pactmesh/src/pactmesh.rs:8079-8118 | when and why the command is refused, in the order of the code: taken exactly if another live member has the name; a no-op exactly if nothing new is asked |
| `TrustOverlay.HostnamesStepExactly` | pactmesh/src/trust/hostname.rs:99-113 | a command keeps live hostnames distinct exactly if it brings in no certificate whose hostname a live member has, where a rename brings one in only if the device lookup lets it |
| `TrustOverlay.RenameCanDuplicateHostname` | pactmesh/src/pactmesh.rs:7359-7377 | a signed run from an empty network that ends with two live members under one hostname: named in a certificate, cleared by a binding, taken by another device, brought back by a rename |
| `TrustOverlay.CreatedHostnamesUnique` | pactmesh/src/pactmesh.rs:8733-8751 | with the certificates the handlers issue, live hostnames are distinct after every run from an empty network |
| `TrustStores.TrustStore.constructor` | pactmesh/src/pactmesh.rs:9122-9208 | a new network: version 1 and an empty payload |
| `TrustStores.TrustStore.Enrol` | pactmesh/src/pactmesh.rs:8754-8774 | never fails: the certificate ends up indexed and stored, under the next version exactly if it was not indexed before |
| `TrustStores.TrustStore.RevokeMember` | pactmesh/src/pactmesh.rs:6955-6998 | fails exactly on an unindexed certificate, else revokes it, even a second time, and nobody else |
| `TrustStores.TrustStore.DisableMember` | pactmesh/src/pactmesh.rs:8248-8290 | records what was given over any older entry, leaves everyone else's entry, refusals in order |
| `TrustStores.TrustStore.EnableMember` | pactmesh/src/pactmesh.rs:8330-8353 | succeeds exactly on a disabled member that is not revoked, and removes that entry and no other |
| `TrustStores.TrustStore.ResolveDevice` | pactmesh/src/pactmesh.rs:7284-7308 | the filter over the member listing and the match on its length |
| `TrustStores.TrustStore.RenameDevice` | pactmesh/src/pactmesh.rs:7311-7380 | by device selector: refused if the label is blank or the lookup fails, else the rename of the certificate found, which revokes it, replaces its index entry and stores the new one |
| `TrustStores.TrustStore.SetMemberCapabilities` | pactmesh/src/pactmesh.rs:7417-7512 | incremental edit of the effective capabilities; an override equal to the certificate is dropped |
| `TrustStores.TrustStore.HostnameTakenBy` | pactmesh/src/trust/hostname.rs:99-113 | the scan of live entries |
| `TrustStores.TrustStore.SetMemberHostname` | pactmesh/src/pactmesh.rs:8069-8135 | the same for the hostname |
| `TrustStores.TrustStore.EditPolicy` | pactmesh/src/pactmesh.rs:7610-7629 | the edit of the policy's copy, and whether it changed anything |
| `TrustStores.TrustStore.UnknownMember` | pactmesh/src/trust/acl_validate.rs:19-26 | the loop over tags finds whether some tag lists a certificate missing from the index |
| `TrustStores.TrustStore.ValidateForSigning` | pactmesh/src/trust/acl_validate.rs:12-39 | rules first, then tag members, then subnets; the first that fails is the error |
| `TrustStores.TrustStore.UpdateMemberTag` | pactmesh/src/pactmesh.rs:7590-7658 | by device selector: refused if the lookup fails, else edit, validate, store, sign |
| `TrustStores.TrustStore.AddPeerHint` | pactmesh/src/pactmesh.rs:7752-7816 | normalise, replace or push, sort, sign |
| `TrustStores.TrustStore.RemovePeerHint` | pactmesh/src/pactmesh.rs:7783-7816 | retain, sort, sign |
| `TrustStores.TrustStore.AssignAddress` | pactmesh/src/pactmesh.rs:8384-8468 | retain, push, sign, keyed by the device |
| `ConfigLaws.ProxyRead` | pactmesh/src/launcher.rs:698-726 | a printed proxy network reads back as itself without its allow list, or is refused for unequal lengths |
| `ConfigLaws.ProxiesRead` | pactmesh/src/common/config.rs:657-694 | reading back a list of proxies keeps the first of each pair of networks, in order |
| `ConfigLaws.ForwardsRead` | pactmesh/src/launcher.rs:815-837 | reading back port forwards keeps exactly those between version 4 addresses |
| `ConfigLaws.FlagsRead` | pactmesh/src/launcher.rs:932-1073 | negated flags, the unlimited rate, the 32-bit cast and the whitelist with its "*" read back; the algorithm choices and the uncarried flags do not |
| `ConfigLaws.NormaliseExactly` | pactmesh/src/launcher.rs:732-1241 | there and back yields the normal form, or fails exactly if a proxy maps between unequal lengths or, after that, a mapped listener has no port |
| `ConfigFixpoint.NormaliseTwice` | pactmesh/src/launcher.rs:732-1241 | whenever it succeeds, converting again succeeds and differs at most in an empty list of forwards becoming absent; a third time changes nothing |
| `ConfigFixpoint.IdempotentExactly` | pactmesh/src/launcher.rs:815-837 | the result is a fixed point at once exactly if there were no forwards or one of them survives |
| `ConfigFixpoint.IdempotenceCanFail` | pactmesh/src/launcher.rs:815-837 | a configuration whose only forward is between version 6 addresses is not a fixed point after one conversion |
| `ConfigFixpoint.IdentityExactly` | pactmesh/src/launcher.rs:732-1241 | the conversion returns a configuration unchanged exactly if every field is already as the conversion writes it |
| `ConfigMeaning.GenConfigSucceedsExactly` | pactmesh/src/launcher.rs:732-1085 | for every exchange form, the conversion succeeds exactly if each text it has to read can be read |
| `ConfigMeaning.GenConfigFollows` | pactmesh/src/launcher.rs:732-1085 | and then every field is what the form asks for; the peers are the given URLs in order (manual), none (standalone), or the one public server (any other method) |
| `ConfigMeaning.GenConfigFault` | pactmesh/src/launcher.rs:732-1085 | a failure names the first setting, in the order of the code, that cannot be read, and in a list its first unreadable text |
| `ConfigMeaning.PeersMeaning` | pactmesh/src/launcher.rs:764-796 | the three networking methods: which URLs must parse, and the peers that result |
| `ConfigMeaning.FlagsMeaning` | pactmesh/src/launcher.rs:932-1073 | every flag from its field, and the default for each absent one |
| `ConfigMeaning.ProxyMeaning` | pactmesh/src/launcher.rs:698-726 | a proxy text is one network, or two of one length around its only arrow |
| `ConfigMeaning.ExchangeShows` | pactmesh/src/launcher.rs:1087-1241 | the switches and the address as the exchange form shows them, a host address with length 24 |
| `ConfigText.WordsRead` | pactmesh/src/launcher.rs:1217-1230 | however a whitelist is spaced, its words are read in order |
| `ConfigText.CleanHostnameMeaning` | pactmesh/src/common/config.rs:586-607 | control characters are as if they were not there, and of the rest the first 32 are kept |
| `ConfigText.SpacingIdempotent` | pactmesh/src/launcher.rs:1217-1230 | splitting a whitelist into words and joining them normalises once and for all |
| `ConfigText.CleanHostnameFixed` | pactmesh/src/common/config.rs:586-607 | a host name is kept exactly if it has at most 32 characters and no control character |
| `ConfigLibrary.LawsCanBeMet` | pactmesh/src/launcher.rs:732-1241 | one set of printing and parsing functions that meets what the conversion asks of the libraries |
| `ConfigLoaders.TomlConfigLoader.ReadId` | pactmesh/src/common/config.rs:718-728 | a missing identifier is made up and remembered |
| `ConfigLoaders.TomlConfigLoader.ReadHostname` | pactmesh/src/common/config.rs:586-607 | the cleaned name is returned and written back |
| `ConfigLoaders.TomlConfigLoader.AddProxyCidr` | pactmesh/src/common/config.rs:657-694 | refuses unequal lengths, pushes unless the networks are there already |
| `ConfigLoaders.TomlConfigLoader.AddProxyNetwork` | pactmesh/src/launcher.rs:698-726 | parses one or two networks around the arrow, errors in order |
| `ConfigLoaders.ParseUrls` | pactmesh/src/launcher.rs:778-809 | the loop over URLs skips empty texts and stops at the first that does not parse |
| `ConfigLoaders.CollectForwards` | pactmesh/src/launcher.rs:815-837 | drops forwards with an empty or unreadable address in silence |
| `ConfigLoaders.BuildConfig` | pactmesh/src/launcher.rs:732-1085 | the loader built by successive settings holds every field as the exchange form asks, or the call fails on the first setting that cannot be read |
| `ConfigLoaders.NewFromConfig` | pactmesh/src/launcher.rs:1087-1241 | the exchange form of a loader; only its identifier and host name are touched, and not so that it would read differently |
| `FlagTable.DumpFlags` | pactmesh/src/common/config.rs:974-1005 | the loop keeps exactly the flags that differ from the defaults |
| `FlagTable.GenFlagTable` | pactmesh/src/common/config.rs:553-570 | the loop takes a given flag, else the default, and ignores unknown names |
| `FlagTable.DumpRoundTrip` | pactmesh/src/common/config.rs:974-1005 | what is dumped reads back as it was, and is the least table that does |

## Left out

- Interleaving inside one packet: `process_packet` is one step of the model; two packets handled at once on the same bucket, connection or cache entry are not interleaved.
- Counter and size wrap-around: statistics, byte counts and token counts are unbounded; only the network state version, the whitelist priority and the MTU casts model their width.
- The wall clock stepping back, and a suspended machine: model clocks only move forward.
- The cache entry's unused fields and the log text of a decision.
- The text of the networks in a rule is not parsed; an unparsable one is an option value.
- An instance thread that panics and so never clears its alive flag: threads of the waiting model stop in order.
- The token bucket's refill task: a refill is an event of the environment that adds tokens up to the capacity.
- A debug build's overflow checks: the priority before 0 wraps, as a release build has it, where a debug build panics.
- AclCapacity.CacheBounded: needs an iteration order that visits every key once, which a concurrent map only promises between its own changes.
- Signatures, keys, passphrases, files and backups of the trust commands: a certificate is its body, found by its fingerprint, and every command completes or fails as a whole.
- Parsing of the trust commands' text arguments (fingerprints, hostnames, tags, dates): commands take the parsed values. A rename or tag update takes the device selector as typed in `TrustStores`, and the certificate it finds in the run theorems.
- The rule checks of a policy, and the controller's own route that replaces a policy: whether rules and subnets pass is an argument of the tag command.
- Expiry of certificates, and the display-label overlay that no modelled command writes.
- TrustOverlay.CreatedHostnamesUnique: assumes that enrolled certificates carry no hostname, as the handlers issue them; a member certificate file from elsewhere may carry one, and `HostnamesStepExactly` says what happens then.
- The secure mode of a configuration, which generates keys during conversion.
- The settings and flags that the exchange form has no field for are one opaque table.
- Routing, NAT traversal, tunnels, peer RPC, DNS, the web controller and the mobile front ends.
