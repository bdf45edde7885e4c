# ESAL L2 switch driver: tables, hardware objects and replay

The driver sits between a switch-management layer and two vendor layers (SAI and CPSS). Each entry point changes a
software table and creates or removes hardware objects, and any vendor call may be refused half-way. This project
models the tables, the hardware objects behind them and the refusals, and proves what stays true over every run.

- `Sai`, `Ordered`, `Slots`, `PortMap`: widths and handles, the order of `std::set` and `std::map`, fixed-size
  tables, and the logical/physical port translation.
- `PortTable`, `PortProtocol`, `IfMode`: the append-only port table, its lock-free readers as a step model, and the
  recursive switch-over between SGMII and 1000BASE-X.
- `Mirror`, `MirrorCalls`: the replicator that counts references to hardware mirror sessions, and runs of its entry
  points.
- `Vlan`, `VlanTags`, `VlanCalls`, `VlanRestore`, `VlanRestoreExact`, `WarmBoot`, `VlanDriver`: membership, tagging,
  what each call answers and leaves, and warm-boot replay.
- `Bridge`, `Fdb`, `Switch`: the bridge-port table, the forwarding database driven by notifications, start-up and
  replay after a warm restart.
- `Bits`, `MacText`, `Filter`: the bitwise "and" and its bits, MAC text, and the packet-filter table.
- `Acl`: VLAN translation records and their ACL entries.

Each module has three layers. Step functions say what one call does, given SAI's replies as a parameter. Lemmas prove
what the steps keep over whole runs, and, in those named `...Answer`, exactly when a call succeeds and what it leaves,
told from the tables alone. A class holds the driver's own fields, arrays and loops, and each of its methods is proved
equal to its step function. In the VLAN, mirror and translation classes a `ghost` field is hardware state that the
driver cannot see.

Places where the code does not do what its name or its comments suggest, each of them stated by a member below:

- A refused session creation returns `false`, which is the OK code (esalSaiMc.cc:173).
- A port switched from copper to fibre loses the configured rate for good; the switch-over also brings up a port that
  was administratively down.
- An OK from disabling an unknown port means that a port-table entry with the null handle and id 0 was added
  (esalSaiPort.cc:1506-1567).
- A physical port number of 65536 or more can be listed twice in one VLAN and marked twice for tagging, and a
  translation on it cannot be deleted.
- Warm boot does not save tagging marks, so every member comes back tagged.
- MOVE notifications never change the forwarding table, whichever entry they name, and the flush notification documented in `sai/saifdb.h`
  normally empties it, because two attribute enumerations share their numbers.
- Deleting a filter can bring back another filter whose own delete was refused earlier.
- An ingress translation record does not own its entry for packets other than IPv6, unless its unassigned handle
  happens to name it, so deleting the record strands that entry.
- Restoring translations reports success for a port without a handle and drops its record.

## Model

| member | source | states |
|---|---|---|
| Sai.PortIdIsLow16 | headers/esalSaiDef.h:229-230 | the 40-bit handle mask is invisible after the 16-bit cast |
| PortMap.GetLogicalPort | esalSaiUtils.cc:155-183 | the loop over the ordered map finds the least logical port on that device and physical port, and none when there is none; it translates back |
| PortMap.ReplayedIsIdentity | esalSaiUtils.cc:114-183 | physical to logical, narrowed to 16 bits, and back is the identity exactly when the narrowed name leads to the same physical port |
| PortTable.FirstById | esalSaiPort.cc:371-381 | the first live entry with the id, none before it |
| PortTable.FirstBySai | esalSaiPort.cc:111-121 | the first live entry with the handle, none before it |
| PortTable.IdSaiRoundTrip | esalSaiPort.cc:469-475 | id to handle to id is the identity, without unique ids or handles |
| PortTable.SaiIdRoundTrip | esalSaiPort.cc:469-475 | handle to id to handle is the identity exactly when no earlier entry shares the low 16 bits |
| PortTable.SaiOfInjective | esalSaiPort.cc:371-381 | different ids never resolve to the same handle |
| PortTable.AppendKeepsLookups | esalSaiPort.cc:404-478 | an append never changes an answer already given |
| PortTable.AddedHandleServes | esalSaiPort.cc:1506-1567 | an entry added for an id serves that id exactly when its handle ends in it; the null handle serves id 0 only |
| PortTable.HandlesFollow | esalSaiPort.cc:404-478 | the id-to-handle map the other tables see, and how one append changes it |
| PortTable.PortTable.FindId | esalSaiPort.cc:111-121 | the scan answers for the first entry with the handle |
| PortTable.PortTable.FindSai | esalSaiPort.cc:371-381 | the scan answers for the first entry with the id |
| PortTable.PortTable.AddEntry | esalSaiPort.cc:404-478 | succeeds exactly with room and a granted query, and then appends one entry; otherwise nothing changes |
| PortProtocol.ScansAgree | esalSaiPort.cc:111-121 | the sequential scans compute what the step model's lookup computes |
| PortProtocol.StepMemory | esalSaiPort.cc:44-65 | a step touches the shadow slot or bumps the size; committed cells never change and size stays within 512 |
| PortProtocol.StepSafe | esalSaiPort.cc:44-65 | every step keeps the protocol invariant and commits exactly what the writer appended |
| PortProtocol.RunCommits | esalSaiPort.cc:469-478 | each step of a run adds exactly what it commits |
| PortProtocol.RunSafe | esalSaiPort.cc:44-65 | the invariant holds in every state of every interleaving |
| PortProtocol.NoAppendLost | esalSaiPort.cc:404-478 | between any two points of a run the table grows by exactly the committed pairs, in order |
| PortProtocol.SearchIsAtomic | esalSaiPort.cc:111-121 | a search that gives up sees no match in the whole table at that instant; one that answers gives the first match |
| PortProtocol.SearchLinearizes | esalSaiPort.cc:44-65 | over any interleaving, a failed search had no such key when it began, and a key committed before is found with its answer |
| IfMode.SwitchOverSettles | esalSaiPort.cc:298-369 | one switch-over is enough, ends at the SFP's reading, and keeps the rate only from copper to copper |
| IfMode.PollsFollow | esalSaiPort.cc:1339-1425 | over any sequence of readings the mode follows the last one, and the user's rate is lost exactly when a reading goes from copper to fibre |
| IfMode.ConfinedInStep | esalSaiPort.cc:298-369 | moving the recorded mode and the interface together keeps them equal for every port whose last mode-set call did not fail |
| IfMode.RateTakes | esalSaiPort.cc:820-1042 | what setting a rate comes to: the logical port and the changeable mark are recorded; on a served port outside a warm restart it is up, at the reading, and has the rate asked for unless it had to be switched over to fibre |
| IfMode.PortDriver.SetIfMode | esalSaiPort.cc:298-369 | terminates for every pair of flags, switches the interface exactly as often as the lag says (0, 1 or 2), leaves other ports and interfaces alone, and recorded mode and interface part only where a mode-set call failed |
| IfMode.PortDriver.SwitchOver | esalSaiPort.cc:337-353 | of the three calls only the mode-set decides the interface's mode |
| IfMode.PortDriver.AddEntry | esalSaiPort.cc:404-478 | one entry in 1000BASE-X mode is appended, and recorded modes and interfaces stay in step |
| IfMode.PortDriver.EnablePort | esalSaiPort.cc:1427-1504 | brings the port up and settles its mode; an unknown port changes nothing |
| IfMode.PortDriver.DisablePort | esalSaiPort.cc:1506-1568 | records a known port as down; an OK on an unknown port means the null entry was added; it fails only when a call fails or the table is full |
| IfMode.PortDriver.ResetPort | esalSaiPort.cc:2176-2195 | always OK; when nothing fails a known port ends up and settled, and an unknown one gains the null entry unless the table is full |
| IfMode.PortDriver.SetPortRate | esalSaiPort.cc:820-1042 | saves rate and medium and settles the mode; fails on unknown ports and returns OK on provisioning-disabled ones, both unchanged |
| IfMode.PortDriver.GetPortLinkState | esalSaiPort.cc:1339-1425 | records the reading and settles the port, which is one poll; OK comes with the state SAI reports, a failure leaves the caller's flag alone, an unknown port fails |
| Mirror.SessionsDistinct | esalSaiMc.cc:47-55 | no two rows share a session handle |
| Mirror.MirrorInv | esalSaiMc.cc:96-232 | mirroring keeps rows, live sessions and port lists in agreement at every exit |
| Mirror.UnmirrorInv | esalSaiMc.cc:234-365 | unmirroring keeps the same agreement at every exit |
| Mirror.RemovalSafe | esalSaiMc.cc:312-348 | a session about to be removed is on no port's list |
| Mirror.RunsAgree | esalSaiMc.cc:96-365 | after every run, with any call refused, live sessions are exactly the rows' handles and every list names exactly the port's sessions once |
| Mirror.OkMeansMirrored | esalSaiMc.cc:96-232 | OK means mirrored unless the creation for a new destination was refused |
| Mirror.MirrorAnswer | esalSaiMc.cc:96-232 | the mirror call answers OK exactly when the destination has a session or can ask for one, and the pair is mirrored already, or its programming is granted, or the creation is refused; a failure leaves the pair unmirrored, and no other pair is touched |
| Mirror.UnmirrorAnswer | esalSaiMc.cc:234-365 | the unmirror call answers OK exactly when the pair is mirrored, its port can be reprogrammed, and the session of a last pair is removed; the pair is gone then, with its row if it was the last; a failure changes nothing or leaves the row empty with its session live |
| Mirror.MirrorThenUnmirror | esalSaiMc.cc:96-365 | mirroring a new pair and undoing it restores all lists up to order, and rows and sessions exactly when no empty row was there |
| Mirror.EgressCovers | esalSaiMc.cc:59-94 | where the map gives the ports in question their own numbers an OK mirrors the source to every destination asked for; nothing is ever unmirrored |
| MirrorCalls.CallsAgree | esalSaiMc.cc:59-365 | after every run of the entry points on logical ports, egress calls included, rows, sessions and port lists agree |
| MirrorCalls.AfterInImage | esalSaiMc.cc:96-232 | a row always stands for some logical port's physical port |
| MirrorCalls.EgressCoversIff | esalSaiMc.cc:59-94 | over every run of the entry points an OK mirrors the port to the physical port of every known destination if and only if every physical number that is also a logical port stands for itself |
| MirrorCalls.UnsteadyMisses | esalSaiMc.cc:79-81 | on any other map, the run after which an OK has mirrored another port |
| MirrorCalls.TurnAnswer | esalSaiMc.cc:59-94 | one destination of an egress call: passed over when its number has a row with the port in it, a failure when a number is not a logical port, and otherwise the pair both numbers stand for |
| MirrorCalls.EgressStops | esalSaiMc.cc:59-94 | the first failure stops the call: the destinations before it are done, it is the last to be tried, no later one is |
| MirrorCalls.EmptyRowCleanedUp | esalSaiMc.cc:312-348 | the run that leaves an empty row with a live session, and the two calls that take both away |
| Mirror.Replicator.PortMirrorSessionsList | esalSaiMc.cc:47-55 | collects exactly the sessions whose row contains the port |
| Mirror.Replicator.VendorMirrorPort | esalSaiMc.cc:96-232 | the code's state and return code are those of the step |
| Mirror.Replicator.VendorRemoveMirrorPort | esalSaiMc.cc:234-365 | the same; the hardware removal is only reached with no reference left |
| Mirror.Replicator.VendorSetPortEgress | esalSaiMc.cc:59-94 | the loop equals the sequence of mirror calls, stopping at the first failure |
| Vlan.RecordedOnce | esalSaiVlan.cc:224-307 | a member handle is recorded at one place only |
| Vlan.CreateInv | esalSaiVlan.cc:67-134 | creating a VLAN keeps map and hardware in agreement |
| Vlan.DeleteInv | esalSaiVlan.cc:136-186 | deleting keeps the agreement, given that the hardware refuses to remove a VLAN with members |
| Vlan.AddLoopInv | esalSaiVlan.cc:188-310 | so does every prefix of a batch of additions, whichever creation is refused |
| Vlan.RemoveLoopInv | esalSaiVlan.cc:312-389 | so does a batch of removals, whichever are refused |
| Vlan.RunInv | esalSaiVlan.cc:67-660 | after every run, with any call refused, live members are exactly the recorded ones, each recorded once, under its own VLAN and port |
| Vlan.RunDistinct | esalSaiVlan.cc:224-307 | when every physical port fits 16 bits no run lists a port twice in a VLAN |
| VlanCalls.CreateAnswer | esalSaiVlan.cc:67-134 | OK exactly when the VLAN is there or is granted; a new VLAN has the handle SAI gave, no ports and no default port; a failure changes nothing |
| VlanCalls.DeleteAnswer | esalSaiVlan.cc:136-186 | OK exactly when the VLAN is not there or its removal is granted; then it is gone from the map and its handle from the hardware, and every other VLAN is as it was; a failure changes nothing |
| VlanCalls.AddAnswer | esalSaiVlan.cc:188-310 | the answers of the add call, and what it makes: members for ports it names, each on its own port's bridge port, tagged unless the port is marked |
| VlanCalls.AddLoopAnswer | esalSaiVlan.cc:224-307 | a batch of additions fails exactly when it names a known port, not listed yet, without a bridge port, whatever creations are refused |
| VlanCalls.RefusedPassedOver | esalSaiVlan.cc:278-305 | a refused creation is passed over as if its port were not named |
| VlanCalls.RemoveAnswer | esalSaiVlan.cc:312-389 | for a known VLAN with a granted query the answer is OK, each port loses from the front as many members as the batch is granted for it, the hardware objects that go are exactly those of the members that left, and the rest is as it was |
| VlanCalls.DefaultAnswer | esalSaiVlan.cc:430-508 | OK exactly for a known port with a handle on a VLAN that is there or VLAN 0, with both calls granted; then map and hardware name each other, VLAN 0 coming into being if need be |
| VlanCalls.TagAnswer | esalSaiVlan.cc:587-660 | OK exactly for a known port with a granted query; then exactly the member objects on the port that are not refused become untagged and the port is marked |
| VlanTags.TagStepTags | esalSaiVlan.cc:587-660 | marking a port keeps "untagged exactly when marked" if and only if no refused member was still tagged; for a port of 65536 or more, if and only if no member and no mark has its narrowed number |
| VlanTags.RunTags | esalSaiVlan.cc:278-305 | the order of marking and joining does not matter over every run with narrow ports and granted attribute sets |
| VlanTags.TagsIffNarrow | esalSaiVlan.cc:587-660 | "untagged exactly when marked" holds over every granted run if and only if every physical port fits 16 bits, and so does "marked at most once" |
| VlanTags.WidePortStaysTagged | esalSaiVlan.cc:613-657 | the run that leaves a wide port's member tagged although the port is marked |
| VlanTags.WidePortMarkedTwice | esalSaiVlan.cc:626-657 | the run that marks a wide port twice |
| VlanTags.DistinctIffNarrow | esalSaiVlan.cc:224-307 | no run lists a port twice if and only if every physical port fits 16 bits |
| VlanTags.WidePortTwice | esalSaiVlan.cc:224-307 | the run that lists a wide port twice |
| VlanTags.AddLoopFrame | esalSaiVlan.cc:224-307 | a batch changes its own VLAN only and only appends ports it names |
| VlanTags.AddLoopObjects | esalSaiVlan.cc:224-307 | with new handles every member object there was stays as it was, tagging included, and what comes belongs to the VLAN |
| VlanTags.AddLoopIds | esalSaiVlan.cc:224-307 | with nothing refused the ids are the old ones and then the new ones in order of first mention |
| VlanTags.RemoveLoopFrame | esalSaiVlan.cc:347-386 | whatever is refused, a batch of removals changes its own VLAN only, and there the members that are not both named and granted are the same sequence as before |
| VlanTags.RemoveLoopExact | esalSaiVlan.cc:347-386 | of any list, whatever is refused, each port loses from the front as many members as the batch is granted for it, and the others keep their order; of a list without double ports exactly the members not both named and granted are left |
| VlanTags.CutCopies | esalSaiVlan.cc:347-386 | how many members of a port that leaves |
| VlanTags.RemoveLoopObjects | esalSaiVlan.cc:347-386 | member objects of other VLANs stay, unchanged, and so do those of this VLAN that are not removed |
| VlanTags.DroppedIs | esalSaiVlan.cc:347-386 | a port is named and granted exactly when some turn of the batch names it and is granted |
| VlanTags.RemoveLoopIds | esalSaiVlan.cc:347-386 | with nothing refused a port loses as many members as it is named; of a list without double ports exactly the named ports go |
| VlanRestore.SaveLoad | esalSaiVlan.cc:848-940 | loading what was saved gives the map back |
| VlanRestore.RestoreOneSpec | esalSaiVlan.cc:800-846 | one turn brings back one entry and disturbs no other |
| VlanRestore.RestoredTagged | esalSaiVlan.cc:800-846 | whatever the records and whatever SAI refuses, every member that comes back is tagged |
| VlanRestore.ReplayBack | esalSaiVlan.cc:800-940 | save, load and replay give the same ids, ordered ports and default ports, all members tagged |
| VlanRestoreExact.WarmBootRoundTrip | esalSaiVlan.cc:800-940 | the same, and each port's PVID is the greatest VLAN naming it |
| VlanRestoreExact.ReplayExact | esalSaiVlan.cc:814-827 | replayed port ids are the saved ones exactly when each is replayed to an unlisted port with the same low bits and a bridge port |
| VlanRestoreExact.AddLoopReplays | esalSaiVlan.cc:814-827 | the driver's batch over the translated ports computes that replay |
| VlanRestoreExact.RestoreOneExact | esalSaiVlan.cc:804-844 | one granted turn brings its entry back exactly when its ports and its default port come back |
| VlanRestoreExact.RestoreOneStatus | esalSaiVlan.cc:800-846 | exactly when one turn reports success |
| VlanRestoreExact.RestoredStatus | esalSaiVlan.cc:800-846 | the replay reports success exactly when every turn does; a failed turn neither stops it nor is forgotten |
| VlanRestoreExact.WarmBootExact | esalSaiVlan.cc:800-846 | with every call granted all VLANs come back, and each entry comes back exactly when its own ports do, whatever the others |
| VlanRestoreExact.GreatestIsLast | esalSaiVlan.cc:848-877 | in the saved order the last VLAN to set a port's default is the greatest |
| VlanRestoreExact.WarmBootPvid | esalSaiVlan.cc:829-843 | for any saved map and granted calls, a port's PVID is the greatest VLAN whose default port is replayed to it, and unset without one |
| VlanRestoreExact.RestoredInv | esalSaiVlan.cc:800-846 | with new handles, whatever is refused, the replay ends with map and hardware in agreement |
| WarmBoot.InitEnv | esalSaiSwitch.cc:665-724 | start-up's tables resolve exactly the switch's own port ids, each to the handles of the first port with it |
| WarmBoot.RestoredEnvKnows | esalSaiBridge.cc:527-536 | and a bridge restore on top changes none of these answers |
| WarmBoot.WarmBootAfterInit | esalSaiVlan.cc:800-846 | after start-up and any bridge restore, a saved map that names the switch's own ports comes back as it was when SAI grants the VLAN calls |
| VlanDriver.VlanDriver.VendorCreateVlan | esalSaiVlan.cc:67-134 | the code equals the step |
| VlanDriver.VlanDriver.VendorDeleteVlan | esalSaiVlan.cc:136-186 | the code equals the step, whose outcome is that of `VlanCalls.DeleteAnswer` |
| VlanDriver.VlanDriver.VendorAddPortsToVlan | esalSaiVlan.cc:188-310 | the loop equals the recursive batch, with its early exits |
| VlanDriver.VlanDriver.VendorDeletePortsFromVlan | esalSaiVlan.cc:312-389 | the loop equals the recursive batch, whose outcome is that of `VlanCalls.RemoveAnswer` |
| VlanDriver.VlanDriver.VendorGetPortsInVlan | esalSaiVlan.cc:391-428 | the list is the one a replay would use, in member order |
| VlanDriver.VlanDriver.VendorSetPortDefaultVlan | esalSaiVlan.cc:430-508 | the code equals the step |
| VlanDriver.VlanDriver.VendorTagPacketsOnIngress | esalSaiVlan.cc:587-660 | the nested loops untag exactly the recorded members of the port that SAI does not refuse |
| VlanDriver.VlanDriver.RestoreVlans | esalSaiVlan.cc:800-846 | the replay loop equals the recursive replay |
| Bridge.CreateInv | esalSaiBridge.cc:210-308 | a create keeps keys unique, size within 1024 and port ids equal to the low half of the handle |
| Bridge.RemoveInv | esalSaiBridge.cc:310-359 | so does a removal |
| Bridge.Lookups | esalSaiBridge.cc:72-110 | the three finds answer from the first entry with the key asked for, or not at all |
| Bridge.CreateAnswer | esalSaiBridge.cc:210-308 | a create answers true exactly when the switch is up and the key is there already, or there is room and SAI does not refuse, whether or not the port is known; it adds one entry, with the new object's handle or the caller's, exactly for a known port and a new key |
| Bridge.RemoveAnswer | esalSaiBridge.cc:310-359 | a removal answers true exactly when the key is not there or the removal is granted; otherwise nothing changes |
| Bridge.RemoveExact | esalSaiBridge.cc:310-359 | swap-with-last takes out exactly the one entry with the key |
| Bridge.RemoveForgetsKey | esalSaiBridge.cc:310-359 | afterwards that key is gone and every other is still there |
| Bridge.RunInv | esalSaiBridge.cc:210-359 | the invariant over every run |
| Bridge.StepOrphans | esalSaiBridge.cc:275-308 | a create whose port id is missing strands the object it made; entering an existing handle takes it in again; a removal strands nothing |
| Bridge.RunOrphans | esalSaiBridge.cc:210-359 | over every run the live objects that no entry names are exactly those |
| Bridge.InitPairs | esalSaiBridge.cc:361-438 | initialisation joins port i with bridge port i |
| Bridge.InitStops | esalSaiBridge.cc:361-438 | in general initialisation pairs the ports before the first null handle or the end of the port table, and reports success although it stops there |
| Bridge.PairedInv | esalSaiBridge.cc:361-438 | the result satisfies the invariant exactly when the port handles are distinct |
| Bridge.RestoreExact | esalSaiBridge.cc:527-536 | whatever is refused, unknown or out of room, a restore keeps every entry and adds exactly the keys that can be committed at their turn |
| Bridge.RestoreAnswer | esalSaiBridge.cc:527-536 | a restore reports success exactly when at each turn the key is there, or there is room and SAI does not refuse |
| Bridge.RestoredEntries | esalSaiBridge.cc:527-536 | every entry a restore adds is a saved one under the same key, with the id the port has now and the new object's handle, or the saved handle when the object is there already |
| Bridge.RestoreInv | esalSaiBridge.cc:527-536 | the invariant survives any restore |
| Bridge.RestoreKeys | esalSaiBridge.cc:527-536 | with room, known ports and no refusal it leaves exactly the keys that were there and the saved ones |
| Bridge.PortIdRoundTrip | esalSaiBridge.cc:72-110 | port number to bridge handle and back always ends at some port, and at the same one exactly when no entry before the port's first one carries its handle |
| Bridge.AgreeUnambiguous | esalSaiBridge.cc:72-110 | a table whose entries never share a handle across ports has no such port |
| Bridge.PairedAgree | esalSaiBridge.cc:361-438 | initialisation from distinct handles gives such a table |
| Bridge.PortIdRoundTripFails | esalSaiBridge.cc:275-307 | two creates, the second finding the object there already, reach a table where the trip ends at another port |
| Bridge.BridgeTable.FindBridgePortId | esalSaiBridge.cc:72-84 | the scan by bridge handle |
| Bridge.BridgeTable.FindBridgePortSaiFromPortSai | esalSaiBridge.cc:86-97 | the scan by port handle |
| Bridge.BridgeTable.FindBridgePortSaiFromPortId | esalSaiBridge.cc:99-110 | succeeds exactly when some live entry has the id |
| Bridge.BridgeTable.BridgePortCreate | esalSaiBridge.cc:210-308 | the code equals the step, including the true result with no entry for an unknown port |
| Bridge.BridgeTable.BridgePortRemove | esalSaiBridge.cc:310-359 | the in-place removal equals the step |
| Bridge.BridgeTable.BridgePortListInit | esalSaiBridge.cc:361-438 | a refused query or list read changes nothing; otherwise the unchecked first write is in range and the loop equals the recursive initialisation |
| Bridge.BridgeTable.RestoreBridges | esalSaiBridge.cc:527-536 | the replay loop equals the recursive replay |
| Fdb.AgeExact | esalSaiFdb.cc:111-134 | AGED removes exactly one copy, and no entry with that MAC and port is left |
| Fdb.KeepMembers | esalSaiFdb.cc:149-185 | flushing keeps exactly the entries that do not match, with unique keys |
| Fdb.KeepPlaces | esalSaiFdb.cc:149-175 | the entries a flush keeps stay in table order |
| Fdb.AttrsRead | esalSaiFdb.cc:48-68 | an attribute is read from the first place that carries its id, and there only |
| Fdb.LearnedAnswer | esalSaiFdb.cc:82-110 | LEARNED appends the MAC, port and VLAN of the notification for a known port, unless MAC and port are there or the table is full |
| Fdb.AgedAnswer | esalSaiFdb.cc:111-134 | AGED takes out one entry with the MAC and the port it names, and nothing when either is not there |
| Fdb.FlushedAnswer | esalSaiFdb.cc:143-185 | FLUSHED keeps exactly the entries off its port; or, without a known port, outside its VLAN; or, with neither, none |
| Fdb.ApplyRefines | esalSaiFdb.cc:70-185 | one notification on the array is one step on a map from (MAC, port) to VLAN |
| Fdb.RunRefines | esalSaiFdb.cc:70-185 | and so is every stream, from any table with unique keys, however the bridge-port table changes between notifications |
| Fdb.RunFromEmpty | esalSaiFdb.cc:70-185 | from the empty table keys stay unique, size stays within 4096, and the content is the map specification's |
| Fdb.DocumentedFlush | sai/saifdb.h:304-326 | the documented flush empties the table unless its entry type happens to be a bridge-port handle |
| Fdb.MoveMissed | esalSaiFdb.cc:129-142 | a MOVE leaves what it is meant to leave exactly when its port is unknown, its MAC is absent, or the first entry with the MAC is on that port already |
| Fdb.ReplayIdempotent | esalSaiFdb.cc:82-110 | replaying LEARNED events, wholly or a leading part, changes nothing, from any table and also when it fills up on the way |
| Fdb.MacsOnPrefix | esalSaiFdb.cc:283-313 | MACs found first stay in front as the scan goes on |
| Fdb.FirstMacsReported | esalSaiFdb.cc:283-313 | what the walk lists is the MACs at the first places of the port, up to one more than the room, which counts as 256 at least |
| Fdb.FdbTable.FindPortIdInAttr | esalSaiFdb.cc:48-57 | only the first attribute with the id counts |
| Fdb.FdbTable.FindVlanSaiInAttr | esalSaiFdb.cc:59-68 | the same for the VLAN |
| Fdb.FdbTable.Compact | esalSaiFdb.cc:149-185 | compaction in place is the order-preserving filter |
| Fdb.FdbTable.AlterForwardingTable | esalSaiFdb.cc:70-185 | the code equals one step |
| Fdb.FdbTable.OnFdbEvent | esalSaiSwitch.cc:431-437 | a batch of notifications is a run |
| Fdb.FdbTable.VendorGetMacTbl | esalSaiFdb.cc:283-313 | for a known logical port there is a strictly increasing list of exactly the places of its physical port, and the buffer holds the MACs at the first limit + 1 of them, the limit being the room for MACs and at least 256; the byte count is six times their number, without wrapping; an unknown port changes nothing |
| Switch.NoticeFindsPort | esalSaiSwitch.cc:542-589 | the replayed notification resolves to the entry's own port exactly when that port's first bridge entry is the first to carry its handle |
| Switch.NoticesExact | esalSaiSwitch.cc:474-593 | the j-th notification is the one of the j-th valid entry before the first that blocks, with its MAC, VLAN and port; no other entry has one, and the pass completes exactly when none blocks |
| Switch.PassCompletes | esalSaiSwitch.cc:499-590 | the pass completes exactly when every slot can be read and every valid one has a bridge port and a known command |
| Switch.NoticeCarries | esalSaiSwitch.cc:536-585 | read back by attribute id, the notification says whether the entry is static and carries its packet action |
| Switch.NoticesCover | esalSaiSwitch.cc:474-593 | a completed pass notifies every valid entry |
| Switch.ReNotifyRecords | esalSaiSwitch.cc:474-593 | after a completed pass every valid hardware entry is recorded under its MAC and the port its handle resolves to, or the table is full; that is its own port under the same per-port condition |
| Switch.ReNotifyOnly | esalSaiSwitch.cc:474-593 | every entry a pass adds, completed or not, has the MAC, the VLAN and the resolved port of a valid hardware entry the pass reached |
| Switch.SecondPassIdle | esalSaiSwitch.cc:1217-1235 | the second pass changes nothing, wherever it stops |
| Switch.SecondPassFollows | esalSaiSwitch.cc:1217-1235 | a first pass that does not complete is the only one; after a completed one, a second that completes records what the hardware holds by then |
| Switch.SwitchDriver.WarmRestartReNotifyFdb | esalSaiSwitch.cc:474-593 | the loop raises exactly the notifications of `Switch.NoticesExact`, and answers OK exactly when it got to the end |
| Switch.SwitchDriver.VendorConfigEnd | esalSaiSwitch.cc:1191-1247 | two passes, the second only after a completed first |
| Switch.SwitchDriver.InitTables | esalSaiSwitch.cc:665-724 | succeeds exactly with at most 512 ports, no null handle among them, granted additions and a granted read of the bridge's list; then entry i of either table is for port i of the switch, with bridge port i, and every port id finds a bridge port |
| MacText.NextChar | esalSaiHost.cc:147-190 | what one more character does to the segments and bytes |
| MacText.ConvertMacStringToAddr | esalSaiHost.cc:147-190 | for any string byte k is the base-16 value modulo 256 of the k-th colon-separated segment |
| MacText.SplitJoin | esalSaiHost.cc:147-190 | splitting undoes joining |
| MacText.ParsePrint | esalSaiHost.cc:147-190 | parsing undoes printing for all six bytes in any letter case |
| MacText.OtherIsZero | esalSaiHost.cc:147-190 | a character that is neither a colon nor a hexadecimal digit reads as a zero digit |
| Bits.AndBit | esalSaiHost.cc:244-270 | a bit of the "and" is set exactly when it is set in both numbers |
| Bits.SameUnderMask | esalSaiHost.cc:244-270 | two numbers agree under a mask exactly when they have the same bit wherever the mask has one |
| Filter.TagRead | esalSaiHost.cc:217-225 | a tag is read back: any priority nibble, any 12-bit VLAN |
| Filter.MatchesWanted | esalSaiHost.cc:192-315 | a filter matches exactly the packets its rule asks for, bit by bit under its masks, with the MACs read from the rule's texts |
| Filter.LoneVlanAccepts | esalSaiHost.cc:192-315 | a rule on a VLAN alone accepts a tagged packet exactly when it names the packet's VLAN |
| Filter.LoneMacAccepts | esalSaiHost.cc:192-315 | a rule on a MAC alone, in any letter case, accepts exactly the packets sent to it |
| Filter.AddInv | esalSaiHost.cc:379-586 | names stay unique and the table stays within 32 |
| Filter.DeleteInv | esalSaiHost.cc:588-629 | the same after a delete, refused or not |
| Filter.AddAnswer | esalSaiHost.cc:379-586 | when the add call answers OK, and what it leaves: the rule with its texts read, its ACL handles, and the bytes of the slot where it gives no text; a failure changes nothing |
| Filter.DeleteAnswer | esalSaiHost.cc:588-629 | the delete call answers OK exactly when the name is not there or both removals are granted, and then it is gone; a failure leaves every rule where it is |
| Filter.AddAccepts | esalSaiHost.cc:379-586 | a new filter adds exactly its own packets |
| Filter.DeleteAccepts | esalSaiHost.cc:588-629 | after a delete a packet is accepted exactly when another filter matches, or the last entry was pending and is brought back |
| Filter.RefusedDeleteAccepts | esalSaiHost.cc:588-629 | a refused delete silences exactly its own filter |
| Filter.RevivalAccepts | esalSaiHost.cc:588-629 | the run in which removing one filter brings back another whose removal was refused |
| Filter.RunAccepts | esalSaiHost.cc:192-629 | over every run with granted removals a packet is accepted exactly when a registered rule wants it, whatever the reordering and the left-over bytes |
| Filter.RunAcceptsListed | esalSaiHost.cc:192-629 | over every run, with any removal refused, a packet is accepted exactly when some rule of the ordered list of rules and pending marks is not pending and wants it |
| Filter.FilterTable.SearchFilterTable | esalSaiHost.cc:192-315 | the least index of a live filter matching port, masked VLAN and masked MAC, or none; what matching means is `Filter.MatchesWanted` |
| Filter.FilterTable.VendorAddPacketFilter | esalSaiHost.cc:379-586 | the code equals the step, left-over shadow bytes included |
| Filter.FilterTable.VendorDeletePacketFilter | esalSaiHost.cc:588-629 | the in-place delete equals the step |
| Acl.SetInv | esalSaiAcl.cc:509-673 | an egress set keeps two live entries per record, one per table, and no handle owned twice, at every exit |
| Acl.DeleteInv | esalSaiAcl.cc:718-760 | so does a delete, with either removal refused |
| Acl.SetCarriesOut | esalSaiAcl.cc:240-412 | a granted set of either direction puts in two entries that carry out the translation on the port, one in a table for IPv6 packets and one in a table for the rest, matching input ports except for the first of an egress pair; older entries stay as they are, and one record is added |
| Acl.SetAnswer | esalSaiAcl.cc:240-412 | OK exactly for a known logical port that has no handle, or one for which everything is granted; no failure adds a record |
| Acl.DeleteAnswer | esalSaiAcl.cc:718-760 | OK exactly for a known logical port; without a record to name nothing changes |
| Acl.DeleteTakes | esalSaiAcl.cc:737-754 | the first equal record goes, and of its two entries those whose removal is granted |
| Acl.RunInv | esalSaiAcl.cc:509-760 | over every run, while ports are added to the port table; and the live entries are exactly the owned ones and those a refusal stranded |
| Acl.RunTables | esalSaiAcl.cc:558-603 | over every such run the live tables are the two cached ones and those stranded when a pair is created again |
| Acl.DeleteExact | esalSaiAcl.cc:737-754 | a granted delete takes the first equal record and exactly its two entries |
| Acl.SetThenDelete | esalSaiAcl.cc:606-754 | deleting what was just set undoes it exactly when the port fits 16 bits and no equal record was there |
| Acl.IngressStrands | esalSaiAcl.cc:403-411 | an ingress record holds the first entry only when the unassigned handle names it, so a set and its delete leave that entry live unless the record that goes names it |
| Acl.SetThenGet | esalSaiAcl.cc:675-716 | a granted set appends to its own port's list only |
| Acl.DeleteThenGet | esalSaiAcl.cc:675-760 | a delete takes the first equal translation out of its own port's list only |
| Acl.ShownReported | esalSaiAcl.cc:675-716 | what is shown is the translations at the first places of the port, up to the caller's room |
| Acl.WarmBootRoundTrip | esalSaiAcl.cc:1936-2083 | with calls granted, both directions come back record by record in order exactly when every saved port resolves |
| Acl.RestoredOk | esalSaiAcl.cc:2052-2080 | with calls granted, one direction reports success exactly when every saved port is replayed to a physical port, and then leaves exactly the records whose port has a handle, in order |
| Acl.RestoredStops | esalSaiAcl.cc:2052-2080 | the first port that is not replayed stops the replay: the records before it are there and nothing after it is |
| Acl.DroppedWithOk | esalSaiAcl.cc:536-539 | success with a record dropped comes back exactly when in addition one of these ports has no handle |
| Acl.WarmBootOk | esalSaiAcl.cc:2022-2083 | the handler reports success exactly when every port of both lists is replayed; a failed ingress list leaves the egress side empty |
| Acl.TranslationTable.VendorSetVlanTranslation | esalSaiAcl.cc:240-412 | the code of either direction equals the step, whose outcome is that of `Acl.SetCarriesOut` and `Acl.SetAnswer` |
| Acl.TranslationTable.VendorDeleteVlanTranslation | esalSaiAcl.cc:464-507 | the loop of either direction equals the step |
| Acl.TranslationTable.VendorGetVlanTranslation | esalSaiAcl.cc:414-462 | there is a strictly increasing list of exactly the places of the port, and the answer is the translations at the first of them, up to the caller's room, with their number |
| Acl.AclWarmBootRestore | esalSaiAcl.cc:2022-2083 | ingress, then egress, stopping at the first failure |

## Left out

- Builds other than the Marvell one, the unit-test build, and the path with SAI switched off.
- SAI, CPSS, SFP, libconfig, profile files, logging and threads other than the port-table readers and writers: their
  replies are parameters, and a saved file is the list of its records.
- IfMode.PortDriver: holds the live prefix of the port table as a sequence; the array itself is in `PortTable`. The
  value an SFP read yields does not change during one call; the code ignores the return codes of those reads, so a
  failed read counts as the value it leaves behind. The host port's attribute branches and the unit-code shortcut of the
  link-state call are not modelled.
- PortProtocol.RunSafe: memory accesses are sequentially consistent, and the clean handler does not run.
- Switch.SwitchDriver.InitTables: spanning-tree groups are not modelled.
- Acl.RunInv: is about egress; an ingress record owns one entry only, as `Acl.IngressStrands` shows. The two
  directions keep separate shares of the hardware, so an unassigned ingress handle that names an egress entry is not
  modelled, nor is which port each ACL table is bound to.
- Fdb.FdbTable.VendorGetMacTbl: the buffer is a sequence of MACs, not raw memory.
- Handles are unbounded naturals: the drivers compare them, order them and read their low bits.
- Port warm-boot restore: it compares a field that the saved record does not carry.
- Raw-data matching of packet filters, and failures of ACL creation there, which the code ignores.
- Lock-free reads during a removal from the bridge, filter and forwarding tables.
- Warm-boot clean handlers, the BPDU port-list union, ACL samples and attribute builders, policers, counters,
  spanning tree, NNI tag mode, serdes and flow control: each would only add easy members.
