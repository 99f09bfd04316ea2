# BuildWarden in Dafny

BuildWarden runs a build in a VM or container behind a relay that records every network exchange in a signed ledger.
This project models the parts of it that decide whether the record can be trusted, whether a slot's traffic stays in
its slot, and how a build starts and ends, and proves what those parts promise for every input, every interleaving and
every number of slots, streams or requests.

| files | what they model |
|---|---|
| `Bytes`, `LedgerFormat`, `LedgerReader`, `LedgerWriter`, `LedgerTheorems` | the binary ledger: its encoding, the verifier, the writer, and what the two promise together |
| `BodyWrapper`, `RelayChannels` | the relay's hashing body wrappers, and its ledger channels under concurrent requests |
| `Firewall`, `FcProgram`, `FcSetup`, `FcInstall`, `FcSlots`, `FcPhases`, `FcFlush`, `FcTheorems`, `FcOutcome`, `FcDecisions`, `FcHooks`, `FcBridge`, `FcBuild`, `FcQuiesce` | the firecracker driver's setup: the command list, the runner, the firewall it leaves, and what that firewall does with a packet |
| `ClaimServer`, `Completion`, `FairScheduler`, `LayerCache`, `LayerHistory` | four concurrent protocols, each as a state machine over its atomic steps |
| `Prefixes`, `BuildLinks`, `HostNetworks` | IPv4 prefixes, the build link in its two forms, and collisions with the host's networks |
| `ShellQuote`, `IpChecksum`, `PidFile`, `Decimal`, `Options` | quoting read back by the POSIX lexer, the IPv4 checksum, the pid file |

Loops and objects of the source are methods and classes here, each proved equal to a specification function; the
theorems are about those functions. Concurrent code is a relation between states, one label an atomic step (what runs
under one lock, or between two points where another goroutine may run), and the theorems hold of every run.

What stands for code outside the repository is a parameter:

* `Crypto` holds SHA-512, Ed25519 verification and whether CBOR decodes. `GoodKey` says the writer's own signatures
  verify. `NoCollision` and `Unforged` are the ideal-signature hypotheses, stated only over the messages at hand.
* `Hash` is a streaming hash whose state after two writes is its state after their concatenation.
* `Faults` says which of setup's commands fail whatever the host is like, so a theorem with an arbitrary `Faults`
  covers a run that stops at any step.
* `Netip` holds the text forms of addresses and prefixes; `RoundTrips` says IPv4 ones read back as printed.
* `Contents` is what a file's path, size and mtime say about its hash.

Three promises turned out to hold only under a condition, and are stated with it, in both directions:

* A value quoted for ENV reads back as one word, the value itself with only dollar signs live, exactly when its
  expansions are of the forms of section 2.6.2 of the Shell Command Language and closed, hold single quotes in even
  number, are no command substitution, and quote no `"`, `\` or backtick in a pattern or in anything nested in one
  (`ShellQuote.EnvIsOneWordIff`). So `${X#'}` and `${X#${Y-'"'}}` fail and `$$(id)`, whose `$$` is one unit, does not.
  bash departs from this reading in three places: it looks for the end of `$(` and `${` after `$$` too, it reads `$[`,
  which the standard leaves unspecified, and its two modes differ on a `}` or `${` quoted in a nested expansion.
* That path, size and mtime determine contents does not by itself make `Lookup` right: a file that changes while a
  call hashes it, and back, leaves a false entry (`LayerHistory.RacingWriteLies`). Every entry and answer is true
  exactly when every hash reads, block by block, what its file held when its call looked at it (`TrueIffQuiet`).
* A host network is reported exactly when it meets the build link, if its mask has 4 bytes, or 16 with at least 96 ones
  beside a 16-byte address, as `net.InterfaceAddrs` gives them (`HostNetworks.ReportedIffMeets`). Any other mask is
  never reported wrongly, and `MissedIff` says exactly when it is missed; `MappedMissedIff` says it of an IPv4-mapped
  prefix handed to `HostOverlap` itself.

Where the comments and the code differ the model follows the code. `waitBuild`'s comment says a relay exit fails the
build at once; if the grace also ends before the wait returns, the code reports the build VM instead, and so does
`Completion`.

## Model

| member | source | states |
|---|---|---|
| `LedgerFormat.HeaderUnique` | ledger/ledger.go:105-168 | A byte string starts with the encoding of at most one well-formed header |
| `LedgerFormat.RecordUnique` | ledger/ledger.go:172-246 | At any offset at most one well-formed record is encoded: the record encoding is prefix-free |
| `LedgerFormat.RecordsSplit` | ledger/ledger.go:265-275 | If one list of records, followed by anything, encodes to what another list encodes to, the first is an initial segment of the second |
| `LedgerFormat.DecodesUnique` | ledger/ledger.go:249-306 | A ledger decodes to one header and one list of records only |
| `LedgerReader.ReadHeader` | ledger/ledger.go:105-168 | Returns exactly the header the data starts with and its length, and an error exactly when there is none |
| `LedgerReader.ReadRecord` | ledger/ledger.go:172-246 | Returns exactly the record the data starts with and its length, and an error exactly when there is none |
| `LedgerReader.BuildRecordSigInput` | ledger/ledger.go:313-325 | The signed bytes of a record are its encoding's signed part |
| `LedgerReader.CheckRecord` | ledger/ledger.go:276-299 | One turn of the loop adds the chain and signature errors of its record and opens or closes its channel |
| `LedgerReader.Verify` | ledger/ledger.go:249-306 | On every byte string the result is that of the only ledger it encodes, and an error exactly when it encodes none |
| `LedgerReader.VerdictOnEncoding` | ledger/ledger.go:249-306 | On the encoding of a header and records the verdict is their assessment: errors counted, channels left open, records in order |
| `LedgerWriter.Ledger.constructor` | relay/ledger.go:220-255 | A new ledger is the signed header with nothing after it |
| `LedgerWriter.Ledger.Append` | relay/ledger.go:260-306 | Appends exactly the encoding of the entry's record, signed over the previous signature, and returns the new one |
| `LedgerWriter.Ledger.Loop` | relay/ledger.go:257-307 | After any entries the output is the ledger of all of them |
| `LedgerWriter.SignedBytes` | relay/ledger.go:264-278 | The bytes the writer signs are those the verifier checks |
| `LedgerWriter.RecordBytes` | relay/ledger.go:280-298 | The bytes the writer writes are the encoding of the record |
| `LedgerTheorems.WriterHeaderIsOwn` | relay/ledger.go:220-255 | The header the writer makes meets what the theorems below ask of one |
| `LedgerTheorems.ChainDistinct` | relay/ledger.go:257-307 | No two signatures of one chain coincide, by descent to the header's first byte |
| `LedgerTheorems.WrittenIsClean` | ledger/ledger.go:257-285 | A written ledger has no signature error |
| `LedgerTheorems.OpenChannels` | ledger/ledger.go:287-296 | The verifier's open map holds exactly the opens no later Close or Artifact names |
| `LedgerTheorems.UnclosedCount` | ledger/ledger.go:302 | Unclosed is the number of those opens |
| `LedgerTheorems.RoundTrip` | relay/ledger.go:220-307 | What is written verifies as Valid, with exactly the records written, in order, and exactly the unclosed opens counted |
| `LedgerTheorems.CutAnywhere` | ledger/ledger.go:265-271 | A ledger cut at the header end or a record boundary verifies with the records before the cut; any other cut is an error |
| `LedgerTheorems.CutIsBoundary` | ledger/ledger.go:265-271 | A cut that still reads is at a boundary |
| `LedgerTheorems.RedactionKeepsVerdict` | ledger/ledger.go:313-325 | Replacing schema indexes, record metadata and header metadata changes neither Valid, SigErrors nor Unclosed, nor any signed field |
| `LedgerTheorems.ForgedHeader` | ledger/ledger.go:257-260 | A header that verifies under the writer's key has the writer's own prefix |
| `LedgerTheorems.ForgedAt` | ledger/ledger.go:276-285 | The j-th record of a Valid ledger has the signed fields of the writer's j-th |
| `LedgerTheorems.ValidIsCutAndRedacted` | ledger/ledger.go:249-306 | A Valid ledger under the writer's key is the writer's, its tail cut and its unsigned fields replaced at most |
| `LedgerTheorems.CutAndRedactedIsValid` | ledger/ledger.go:249-306 | Every such ledger is Valid |
| `LedgerTheorems.OnlyCutsAndRedactions` | ledger/ledger.go:249-306 | For every byte string under the writer's key, Valid if and only if it is a cut and redaction of what was written |
| `BodyWrapper.ComputeHashBlock` | relay/ledger.go:210-218 | The block is each hash of the whole data in turn |
| `BodyWrapper.ChunkingIsInvisible` | relay/ledger.go:360-366 | Feeding a hash in chunks, in any split, is feeding it once |
| `BodyWrapper.StreamingHasher.Write` | relay/ledger.go:360-366 | The hasher has then taken what it had and p, and its size is their length |
| `BodyWrapper.StreamingHasher.Finish` | relay/ledger.go:369-374 | The one-shot hash block and length of all that was written |
| `BodyWrapper.Wrapper.Read` | relay/relay.go:780-790 | Passes the source's bytes on, hashed, and emits at the end of the source and not before |
| `BodyWrapper.Wrapper.Close` | relay/relay.go:792-808 | Drains the source, then emits unless that was done |
| `BodyWrapper.Wrapper.Emit` | relay/relay.go:810-814 | At most one record, of all bytes the source produced |
| `BodyWrapper.Drive` | relay/relay.go:780-853 | Under any sequence of Read and Close calls, of a source that ends or fails, once or for ever, exactly one record once EOF or Close is reached, covering also what the client never read |
| `RelayChannels.StepKeeps` | relay/relay.go:493-659 | Every step of every request keeps the discipline of the channels and their one owner |
| `RelayChannels.ChannelDiscipline` | relay/relay.go:493-659 | In every interleaving a channel's Open is first, what follows names its signature, and at most one record closes it |
| `RelayChannels.LogOK` | relay/relay.go:493-659 | From payloads the format can carry the requests send only entries it can carry |
| `RelayChannels.UnclosedIsInFlight` | relay/relay.go:555-814 | In every interleaving the verifier's Unclosed is the channels in flight plus the failed artifact uploads |
| `Firewall.DecideConcat` | driver/firecracker/slots.go:142-194 | A chain decides by its first part, and by its second where the first leaves the packet undecided |
| `Firewall.Machine.RunOne` | driver/firecracker/setup.go:302-317 | One step: skipped when its probe succeeds, repeated until it fails, tolerated or reported |
| `Firewall.Machine.RunSteps` | driver/firecracker/setup.go:300-320 | The host, the commands spent and the outcome of a list are those of its specification, with any commands failing |
| `Firewall.RunConcat` | driver/firecracker/setup.go:300-320 | A list in two parts is the second part from where the first one ended, unless it stopped |
| `FcBuild.SetupSteps` | driver/firecracker/slots.go:142-194 | The source's appends and loops, table by table, slot by slot and hook by hook, give exactly the program the theorems below are about |
| `FcBuild.FlushSteps` | driver/firecracker/slots.go:110-131 | The loops over tables and IPv6 hooks give the flush |
| `FcBuild.SlotStepsOf` | driver/firecracker/slots.go:196-265 | The loops over a slot's interfaces and its rules give the slot's steps |
| `FcBuild.JumpSteps` | driver/firecracker/slots.go:184-192 | The jumps appended are one for each hook, to its chain |
| `FcBuild.SlotLoop` | driver/firecracker/slots.go:162-164 | The slot part is every slot's steps in order |
| `FcProgram.NameParts` | driver/firecracker/slots.go:40-50 | Interface names of different slots or roles differ |
| `FcProgram.SlotAddresses` | driver/firecracker/slots.go:67-70 | Slot addresses lie in the /22 and no two slots or offsets share one |
| `FcSetup.OursKeepsOthers` | driver/firecracker/slots.go:110-131 | A command on setup's chains or jumps leaves all other chains and rules in place and in order |
| `FcSetup.ExecLinked` | driver/firecracker/slots.go:110-194 | Commands keep every rule pointing at a chain that exists |
| `FcInstall.AddAll` | driver/firecracker/setup.go:300-320 | A list of additions that finishes has added all of them and nothing else; without faults it finishes |
| `FcSlots.MiddleAdds` | driver/firecracker/slots.go:162-183 | The slot and last-rule steps add to each chain exactly its rules, in order |
| `FcSlots.MiddleLinks` | driver/firecracker/slots.go:196-226 | They add exactly the four interfaces of every slot |
| `FcPhases.NewChainsRun` | driver/firecracker/slots.go:154-159 | Creating the chains succeeds only if none is there, and then each is empty |
| `FcPhases.JumpsRun` | driver/firecracker/slots.go:184-192 | Each hook gets its jump first and nothing else changes |
| `FcFlush.RemoveUpToFacts` | driver/firecracker/setup.go:310-313 | Repeated deletion takes away up to 64 copies of the jump and no other rule |
| `FcFlush.FlushedAt` | driver/firecracker/slots.go:110-131 | A chain survives the flush exactly when it is there and kept referenced by more than its jumps |
| `FcTheorems.SetupInstalls` | driver/firecracker/slots.go:142-194 | From any firewall, with any commands failing, a run that finishes leaves the others' rules as they were, exactly one jump first in each hook, exactly setup's rules in its chains, every slot's interfaces, and forwarding on |
| `FcOutcome.SetupSucceedsIff` | driver/firecracker/slots.go:110-194 | With no command failing of itself setup succeeds if and only if every hook exists and nothing beyond 64 jumps keeps one of its chains referenced |
| `FcOutcome.OnlyItsJumpsStarts` | driver/firecracker/slots.go:110-131 | At most 64 copies of each jump and no other reference is enough |
| `FcOutcome.SetupAgain` | driver/firecracker/slots.go:138-141 | After a successful run another one, with any parameters, succeeds and ends in the state the others' rules and its parameters determine |
| `FcOutcome.SetupIdempotent` | driver/firecracker/slots.go:138-141 | The same run again leaves the host as it is |
| `FcOutcome.OthersSurvive` | driver/firecracker/slots.go:108-131 | Wherever a run stops and whatever it found, every other chain and rule is there in its old order |
| `FcOutcome.ForwardingComesLast` | driver/firecracker/slots.go:138-194 | Setup turns forwarding on if and only if the whole run finished |
| `FcDecisions.ForwardChain` | driver/firecracker/slots.go:142-265 | The forward chain accepts exactly the slots' own traffic, drops all else that touches a TAP and leaves the rest |
| `FcDecisions.ForwardFromTap` | driver/firecracker/slots.go:239-252 | A packet from upstream TAP i passes if and only if it comes from relay i and leaves by the uplink |
| `FcDecisions.ForwardToTap` | driver/firecracker/slots.go:239-252 | A packet to upstream TAP i passes if and only if it comes from the uplink to relay i on an established or related flow |
| `FcDecisions.InputChain` | driver/firecracker/slots.go:233-235 | The host takes from TAPs only a relay's packets of established flows |
| `FcDecisions.OutputChain` | driver/firecracker/slots.go:142-265 | The host sends to TAPs only the owner's claims, established flows and related ICMP |
| `FcDecisions.Ip6Chain` | driver/firecracker/slots.go:182-183 | No IPv6 crosses a TAP |
| `FcDecisions.BridgeChain` | driver/firecracker/slots.go:228-232 | Of frames that touch a TAP the bridge table passes exactly those between one slot's two ports |
| `FcDecisions.RawChain` | driver/firecracker/slots.go:259-262 | What enters bridge i is tracked in zone i + 1, and nothing else in any zone |
| `FcHooks.FirstJump` | driver/firecracker/slots.go:184-192 | A hook that begins with the jump decides as setup's chain does, and by its other rules only where that is undecided |
| `FcHooks.HookDecides` | driver/firecracker/slots.go:142-194 | After setup, on any host, a hook decides what setup's chain decides, whatever rules others have there |
| `FcHooks.ForwardHook` | driver/firecracker/slots.go:142-265 | Every forwarded packet that touches a TAP is accepted if it is a slot's own traffic and dropped otherwise, whatever others' rules say |
| `FcHooks.InputHook` | driver/firecracker/slots.go:142-265 | Every packet from a TAP to the host is accepted if it is a relay's established flow and dropped otherwise |
| `FcHooks.OutputHook` | driver/firecracker/slots.go:142-265 | Every packet from the host to a TAP is accepted if it is a claim or an answer and dropped otherwise |
| `FcHooks.Ip6Hooks` | driver/firecracker/slots.go:182-192 | Every IPv6 packet that touches a TAP is dropped at each of the three hooks |
| `FcBridge.RunKeepsTable` | driver/firecracker/slots.go:110-194 | Wherever a run of setup stops, the bridge table holds only rules setup writes, if it did before |
| `FcBridge.BridgeRulesDecide` | driver/firecracker/slots.go:228-232 | Any such rules, in any order and number, pass only frames between one slot's two ports and drop only frames that touch a TAP |
| `FcBridge.BridgeHook` | driver/firecracker/slots.go:142-265 | After any run that finishes every frame that touches a TAP is decided, passed only between one slot's two ports, also when an older table, from runs finished or not, would not go; with no faults it passes exactly for the slots set up |
| `FcBridge.BridgeInput` | driver/firecracker/slots.go:149-150 | After any run that finishes no frame from a TAP reaches the host by the bridge |
| `FcDecisions.NatChain` | driver/firecracker/slots.go:180-181 | Exactly the relays' packets that leave by the uplink are masqueraded |
| `FcQuiesce.Locks.Quiesce` | driver/firecracker/setup.go:213-254 | On success the lock of every slot made or wanted is held, otherwise none is; busy slots are listed exactly; an error exactly when a lock fails |
| `FcQuiesce.Locks.Release` | driver/firecracker/setup.go:219-223 | Every lock taken is given back |
| `FcQuiesce.InUseIsListed` | driver/firecracker/setup.go:224-244 | The busy list names exactly the slots in use |
| `ClaimServer.ResolveIsGood` | relaycfg/relaycfg.go:190-209 | A claim that passes the checks has a URL, a link that parses, and a transport exactly when it selects the tunnel |
| `ClaimServer.StepKeeps` | relaycfg/relaycfg.go:161-247 | Every step of every handler keeps the log on the one-claim-at-a-time protocol and its handler at the place the protocol says |
| `ClaimServer.ReachableInv` | relaycfg/relaycfg.go:161-247 | So in every run, with any number of requests |
| `ClaimServer.SendNeverBlocks` | relaycfg/relaycfg.go:217-223 | A handler about to send its result never finds the channel full |
| `ClaimServer.StartsDoNotOverlap` | relaycfg/relaycfg.go:210-215 | Between two starts the first one returned ErrRefused |
| `ClaimServer.StartsAreGood` | relaycfg/relaycfg.go:199-209 | start never sees TunnelURL without a transport, a link that does not parse, or a transport that was not opened before |
| `ClaimServer.TunnelOpensOnce` | relaycfg/relaycfg.go:165-173 | The tunnel is opened at most once, with no claim held |
| `ClaimServer.ClaimIsExclusive` | relaycfg/relaycfg.go:180-188 | Between taking a claim and giving it back no tunnel is opened and no other claim taken |
| `ClaimServer.SentIsLast` | relaycfg/relaycfg.go:217-223 | Nothing follows a sent result, so at most one is sent |
| `ClaimServer.SentIsTheOutcome` | relaycfg/relaycfg.go:210-223 | The result sent is the outcome of the last start |
| `ClaimServer.ClaimServerIsSafe` | relaycfg/relaycfg.go:155-247 | All of this for every reachable state |
| `Completion.StepKeeps` | collector/signals.go:77-145 | Every step keeps: completion set exactly when done was sent, the channel holding the first completion, the cause told by the events handled |
| `Completion.CompletionDecides` | driver/session.go:167-201 | A completion recorded before the session's last read decides: session and waitBuild end with the first completion's exit code, whatever else happens |
| `Completion.FailureMeansNoneRead` | driver/session.go:182-200 | A wait that failed read the completion before there was one |
| `Completion.EndingsAreTrue` | driver/firecracker/wait.go:35-68 | Each ending tells the truth: the VM named did exit, the tunnel did end, and a bare context error only when the caller's context ended |
| `Completion.HandledOnce` | driver/firecracker/wait.go:35-68 | Each exit event and the grace are handled at most once, the grace only after the build VM's exit |
| `FairScheduler.StepKeeps` | relay/fair.go:31-108 | Every step keeps the books of every stream and the round's turn |
| `FairScheduler.Conservation` | relay/fair.go:52-65 | Quota stays between 0 and two quanta, and granted plus quota plus discarded is a quantum for joining and one for each refill |
| `FairScheduler.GrantIsFair` | relay/fair.go:94-108 | A positive ask is granted between one byte and what it asked, or parked exactly when there is no quota |
| `FairScheduler.RoundsAreFair` | relay/fair.go:52-75 | Between rounds two streams that lost nothing differ by at most two quanta, beyond the rounds one joined later |
| `FairScheduler.NoLostWakeup` | relay/fair.go:77-108 | A parked reader is seen by the scheduler, and its next refill signals it with quota enough to go on |
| `FairScheduler.LosesNothingIff` | relay/fair.go:52-65 | Over any run a stream has had nothing discarded if and only if it held a quantum at most at each of its turns |
| `FairScheduler.BusyStreamsAreFair` | relay/fair.go:52-75 | Between rounds, streams that did so are within two quanta of each other, beyond the rounds one joined later |
| `LayerCache.Verify` | driver/layercache.go:190-236 | The loop's cache and statuses are the specified ones, key by key |
| `LayerCache.VerifiedIsTrue` | driver/layercache.go:215-231 | What Verify keeps is true of files that are there, keeps a source only with an unchanged hash, and stays so when done again |
| `LayerCache.StepSourced` | driver/layercache.go:114-299 | Every step of every process keeps each source with a hash it was recorded with |
| `LayerCache.SourceIsRecorded` | driver/layercache.go:142-178 | In any interleaving a fetched source is answered only with a hash recorded for that path and source |
| `LayerCache.StepTrue` | driver/layercache.go:114-299 | An honest step keeps every file, entry and answer true |
| `LayerHistory.StampIsFromLook` | driver/layercache.go:147-172 | The stamp a call holds is the one the file had at the call's last stat, and the blocks it has read are those read since, each as the file then was |
| `LayerHistory.HashHonestIff` | driver/layercache.go:239-250 | What a call hashes is what its stamp says if and only if the blocks it read are the file's contents at its last stat |
| `LayerHistory.TrueIffQuiet` | driver/layercache.go:114-250 | If writes keep path, size and mtime determining contents and each Record is given its file's hash, then, however loads and saves overwrite each other and whatever is written during a hash, every entry and answer is true throughout if and only if every hash read what its file held at its call's stat |
| `LayerHistory.StillIsRead` | driver/layercache.go:239-250 | A file that stays as it is from a call's stat to the end of its hash is read so |
| `LayerHistory.AnswersAreTrue` | driver/layercache.go:142-178 | In such runs Lookup's answer is what hashing the file gives |
| `LayerHistory.SameStampIsSame` | driver/layercache.go:154-157 | A file seen twice with one size and mtime has the same contents both times |
| `LayerHistory.RacingWriteLies` | driver/layercache.go:147-173 | A run in which a file changes during a hash, and back before it ends, and the next Lookup answers a hash the file never had |
| `Prefixes.NestedOrDisjoint` | relaycfg/buildlink.go:35-65 | IPv4 prefixes are nested or disjoint (section 3.1 of RFC 4632) |
| `Prefixes.MeetIff` | driver/buildlink/buildlink.go:139-153 | Two prefixes share an address exactly when the shorter contains the longer's address |
| `Prefixes.WithinIff` | cmd/relay/vmlink.go:103-104 | One prefix lies in another exactly when it is no shorter and its address is in it |
| `BuildLinks.ClaimIsAccepted` | driver/buildlink/buildlink.go:81-112 | Every link the configuration accepts is accepted from the claim with the same prefix, relay and guest |
| `BuildLinks.WireLinkOf30` | relaycfg/buildlink.go:35-65 | A /30 accepted from a claim is one the configuration accepts, with the two hosts in either order |
| `BuildLinks.HostOverlap` | driver/buildlink/buildlink.go:139-153 | The two lists are exactly the refused and the warned addresses, in order |
| `BuildLinks.ReportsIff` | driver/buildlink/buildlink.go:139-153 | Of any prefix: refused if and only if its own address is in the link, and reported if and only if it is or the network it is read as shares an address with the link |
| `HostNetworks.HostPrefixes` | driver/hostlink.go:14-38 | The loop lists what each interface is read as, in order |
| `HostNetworks.ReportedIffMeets` | driver/hostlink.go:14-38 | An interface with a 4-byte mask, or a 16-byte mask of at least 96 ones beside a 16-byte address, is reported if and only if its IPv4 network shares an address with the link |
| `HostNetworks.MissedIff` | driver/hostlink.go:28-35 | An interface with any other mask is never reported wrongly, and missed if and only if its network meets the link while neither its address nor its length as written does |
| `HostNetworks.ShortMaskIsMissed` | driver/hostlink.go:28-35 | For every link and every mapped address outside it, a 16-byte mask of 90 ones is such an interface |
| `HostNetworks.SilentMeansDisjoint` | driver/buildlink/buildlink.go:134-153 | An interface that is neither refused nor warned about is on a network disjoint from the link |
| `HostNetworks.MappedMissedIff` | driver/buildlink/buildlink.go:141-151 | An IPv4-mapped prefix of any length is never reported wrongly; past 32 bits it is missed if and only if its IPv4 part meets the link and its address is not in it, and up to 32 bits if and only if the IPv4 prefix of that length does not meet the link |
| `BuildLinks.NoCollision` | cmd/relay/vmlink.go:96-111 | Succeeds if and only if no other address and no other route lies in the link |
| `BuildLinks.MeetingRouteIsLarger` | cmd/relay/vmlink.go:92-95 | A route that meets the link without colliding strictly contains it |
| `ShellQuote.QuoteEnv` | driver/script/translate.go:405-425 | The loop writes the specified quoting |
| `ShellQuote.QuoteIsOneWord` | driver/script/translate.go:393-401 | Every string's quoting lexes to one word, the string itself, with nothing live |
| `ShellQuote.EnvIsOneWordIff` | driver/script/translate.go:405-425 | A value's quoting lexes to one word, the value with nothing but dollar signs live, if and only if the value's expansions are well formed, closed, evenly quoted and no command substitution |
| `ShellQuote.DoubleReads` | driver/script/translate.go:412-424 | Read in double quotes the escaped text is the value, or nothing, or something longer |
| `ShellQuote.OddQuotesAreNotClosed` | driver/script/translate.go:405-425 | For every name, a pattern or default with one quote in it is not |
| `ShellQuote.QuotedInPattern` | driver/script/translate.go:405-425 | Nor, for all names, one with a double quote quoted in a pattern, or in a default nested in a pattern |
| `ShellQuote.ProcessIdIsOneUnit` | driver/script/translate.go:405-425 | A process id followed by parentheses is |
| `ShellQuote.SubstitutionStops` | driver/script/translate.go:405-425 | The lexer stops at a command substitution |
| `IpChecksum.IpChecksum` | cmd/relay/ingress_dhcp.go:129-141 | The loops compute the complement of the folded sum, the sum wrapping at 32 bits, and end |
| `IpChecksum.NoOverflow` | cmd/relay/ingress_dhcp.go:130-136 | Up to 128 KiB the sum does not wrap |
| `IpChecksum.FoldFacts` | cmd/relay/ingress_dhcp.go:137-139 | Folding is remainder by 65535, with 0 only for 0 |
| `IpChecksum.ChecksumCompletes` | cmd/relay/ingress_dhcp.go:51 | Written into its zero field, the checksum makes the header's checksum 0 |
| `IpChecksum.OneWordChanged` | cmd/relay/ingress_dhcp.go:129-141 | Changing one word of a header that checks is detected unless the word keeps its ones' complement value |
| `IpChecksum.ReplyHeader` | cmd/relay/ingress_dhcp.go:43-51 | The reply's header holds the specified fields and checks |
| `PidFile.FormatPidFile` | driver/firecracker/pids.go:35-45 | The loop writes the specified text |
| `PidFile.ParsePidFile` | driver/firecracker/pids.go:49-65 | The loop reads the specified records |
| `PidFile.TornLine` | driver/firecracker/pids.go:52-62 | A line cut anywhere is no record, or the record with its exe cut |
| `PidFile.RoundTrip` | driver/firecracker/pids.go:35-65 | Records with pid above 1 and a non-empty, newline-free exe read back as written |
| `PidFile.TornFile` | driver/firecracker/pids.go:47-65 | A file cut anywhere gives an initial segment of the records and at most the next one with its exe cut short |

## Left out

- Ed25519, SHA-2, BLAKE2b and CBOR internals: parameters with stated hypotheses.
- A write of the ledger's output that fails: the source logs it and goes on, the model's writer takes every write.
- Sends after `Ledger.Finish`, a second waiter on the collector's `done`, and a stream that asks for quota after it left: outside what the callers do.
- HTTP, TLS interception, DNS, the netstack, the tunnel's own protocol and request authorization: input and output over libraries.
- What `ip` and `sysctl` settings other than forwarding mean, and the created and found lists `runSteps` returns: they do not touch the firewall.
- The change TCPMSS, CT and MASQUERADE make to a packet: a chain's decision is modelled, not the rewritten packet.
- Other hooks and tables a packet passes, and a chain's policy when no rule decides: the hooks setup jumps from are modelled.
- Text forms of addresses: read and printed by net/netip, a parameter here; `broadcast`'s bitwise or is the sum of the parts it joins.
- SHA-256 itself: in `LayerCache` a file's hash is taken for its contents, so no two contents hash alike.
- A file replaced or deleted while it is being hashed: Go reads on through its descriptor, the model by the file's path.
- What an expansion does with its operator, pattern or tilde: it belongs to the expansion its dollar sign begins.
- Interface masks whose ones are not all first: they denote no prefix, and HostPrefixes reads them as length 0.
- A string that is not valid UTF-8 given to `shellQuoteEnv`: Go replaces its bad bytes, Dafny strings have none.
- Shell reserved words, aliases and history expansion: recognised after lexing, or not part of POSIX.
- Clocks and timeouts: a heartbeat may be stale, a grace may end and a tick may come at any time.
- The mutexes of one process in `LayerCache` and real scheduling delays: the model allows more interleavings than they do.
- `procStartTime` and `liveVMMs`, ISO9660, cpio, GPT and JKS code, command lines, configuration and VM orchestration: easy or process plumbing.
