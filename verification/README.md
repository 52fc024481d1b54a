# KubeVPN protocols and data plane in Dafny

KubeVPN connects a developer's machine to a Kubernetes cluster. Many clients share one ConfigMap that
holds address leases, mesh rules and a reference count. A control plane compiles the mesh rules into
Envoy resources. Workloads get sidecars injected while they have a rule. A tunnel carries packets over
UDP or framed over TCP. This project models those parts and proves what holds of every input, every run
and every interleaving. Where a promised property fails, it gives the failing run and the exact condition.

Check everything with `dafny verify dfyconfig.toml`.

| file | models |
|---|---|
| `Text.dfy`, `Lists.dfy` | number formatting, splitting at a separator, deletion inside an index loop |
| `MeshRules.dfy` | the rule list: join, leave, header merge |
| `MeshCompiler.dfy` | rules to listeners, routes, clusters and endpoints; first-match routing |
| `Snapshots.dfy` | resources indexed by name, the consistency check, where a request ends up |
| `Processors.dfy` | the caching publisher |
| `Allocator.dfy`, `ConfigStore.dfy`, `DhcpManager.dfy` | address allocation; the ConfigMap as a versioned store with many clients |
| `Containers.dfy`, `Injection.dfy` | probe removal and restore, sidecars, the inject and leave lifecycle |
| `OverlappingCalls.dfy` | injects and leaves whose steps interleave and whose patches may fail |
| `LeaveAll.dfy` | a client leaving every workload |
| `Framing.dfy`, `TunnelConn.dfy` | datagrams and the session header on a byte stream, and the buffers they pass through |
| `BufferPool.dfy` | goroutines handing pooled buffers to each other |
| `NatTable.dfy`, `ConnTable.dfy` | the two source-address learning tables |
| `TarPipes.dfy` | the resuming archive reader |
| `Daemons.dfy` | the user daemon and the sudo daemon |

Concurrent parts are state machines: `Enabled` and `After` define one step, `Run` a whole run, and an
invariant is carried over every run. Code that updates objects or works in loops is a class or method
whose contract ties it to the function the theorems are about.

Assumptions: JSON, YAML and base64 encoders are inverse to their decoders; an Update commits only with the
current resource version and every write changes the version; a merge patch (section 2 of RFC 7396) touches
only the keys it names. `sync.Map.Range` may show any mapping a key had during the call. `big.Int.Int64` of a
number that does not fit is its low 64 bits, signed. A JSON patch is all or nothing. Its `replace` needs the
parent to exist but not the key, as in the library the repository vendors; section 4.3 of RFC 6902 asks for
the key as well.

Where comments or messages in the code say something else than it does, the model follows the code:
`util.Merge` announces that a nil map may be merged into, but writes to it first; the comment on
`ParseProxyInfo` speaks of 20 bytes, while the header's length varies with the addresses.

## Model

| member | source | states |
|---|---|---|
| Lists.DeleteUnwanted | pkg/handler/envoy.go:267-272 | deleting inside an index loop keeps exactly the wanted elements in order, and counts the others |
| MeshRules.MergeInPlace | pkg/util/util.go:403-413 | merged entries: the second map wins; the result is nil exactly when both maps are; it panics exactly when the first map is nil and the second is not empty |
| MeshRules.AddEnvoyConfig | pkg/handler/envoy.go:202-238 | the list edit of a join is AddRule, which JoinChangesEntries and AddRulePanics describe in full |
| MeshRules.MergeLoop | pkg/handler/envoy.go:221-227 | every rule of the client's address pair gets the headers merged in, others are untouched, `found` is exact |
| MeshRules.JoinChangesOwnRule | pkg/handler/envoy.go:208-238 | a join changes its own node only: the client's rule carries its old headers overridden by the new ones, or is new and last; every other rule stays in its place |
| MeshRules.JoinChangesEntries | pkg/handler/envoy.go:202-238 | what a join does to every whole entry: a new one, last, has the given ports; otherwise all keep their places, all but the node's first stay as they are, and that one keeps its ports, except that missing ones are filled when the client is new there |
| MeshRules.AddRulePanics | pkg/handler/envoy.go:222-226 | a join dies exactly when it brings headers and the client's rule at that node was stored without any |
| MeshRules.RemoveEnvoyConfig | pkg/handler/envoy.go:265-283 | the list edit of a leave is RemoveRule, and the flag is true exactly when an entry was dropped |
| MeshRules.RemoveAtOneEntry | pkg/handler/envoy.go:265-283 | with distinct ids a leave changes one entry only, and drops it exactly when no rule of another client is left in it |
| MeshRules.LeaveKeepsOtherNodes | pkg/handler/envoy.go:265-283 | the entries of all other nodes are in the list afterwards exactly if they were before |
| MeshRules.LeaveFiltersOwnEntry | pkg/handler/envoy.go:265-283 | an entry of the node that remains holds the other clients' rules in order, and the flag is false |
| MeshRules.RemovedHasNone | pkg/handler/envoy.go:265-273 | after a leave no rule of that IPv4 address is left at the node |
| MeshRules.LeaveChangesEntries | pkg/handler/envoy.go:265-283 | what a leave does to the whole list: the node keeps the others' rules in order, has an entry exactly if there are any, and the entries of other nodes stay as they are, in order |
| MeshRules.AddKeepsWellFormed | pkg/handler/envoy.go:202-238 | a join keeps ids distinct, address pairs distinct within a node, and no node without rules |
| MeshRules.RemoveKeepsWellFormed | pkg/handler/envoy.go:265-283 | a leave keeps the same |
| MeshRules.EveryRunWellFormed | pkg/handler/envoy.go:202-283 | all three over every sequence of joins and leaves from the empty list |
| MeshRules.AddThenRemove | pkg/handler/envoy.go:202-283 | join then leave restores the list, nil ports aside, exactly when the address had no rule at the node |
| MeshRules.DroppedIsGone | pkg/handler/envoy.go:274-283 | a dropped entry is gone from the list, and all its rules were the leaver's |
| MeshCompiler.ToRoute | pkg/controlplane/cache.go:156-192 | the header matchers list the header map, each entry once, in whatever order the map yields them |
| MeshCompiler.RulesTo | pkg/controlplane/cache.go:55-64 | for every rule the IPv4 and then the IPv6 cluster, endpoint and route, and the default route last |
| MeshCompiler.To | pkg/controlplane/cache.go:43-79 | one listener and route table per port, and the clusters and endpoints of all rules plus the origin cluster |
| MeshCompiler.RouteMeansRule | pkg/controlplane/cache.go:156-192 | a compiled route accepts a request exactly when its rule's headers all match, case ignored, in any listing order |
| MeshCompiler.CarriesIff | pkg/controlplane/cache.go:158-169 | a header is found under its lower-case name and matches letter by letter up to case |
| MeshCompiler.FirstRuleIsFirst | pkg/controlplane/cache.go:56-63 | the rule chosen accepts the request and none before it does |
| MeshCompiler.FirstMatchIsFirst | pkg/controlplane/cache.go:61-72 | the route chosen accepts the request and none before it does |
| MeshCompiler.CompilerPreservesMeaning | pkg/controlplane/cache.go:50-77 | for every rule list, port and request, first match over the routes picks the IPv4 cluster of the first matching rule, else the origin cluster |
| MeshCompiler.Ipv6RouteIsShadowed | pkg/controlplane/cache.go:57-62 | no request ever takes the IPv6 route of a rule |
| MeshCompiler.ClusterNameInjective | pkg/controlplane/cache.go:58 | equal cluster names mean equal address and port, for any address text |
| MeshCompiler.OriginNameIsFree | pkg/controlplane/cache.go:58-65 | no tunnel cluster can be named like the origin cluster |
| MeshCompiler.ListenerNameInjective | pkg/controlplane/cache.go:51 | equal listener names at a node mean the same port and protocol |
| Snapshots.NamesIdentify | pkg/controlplane/processor.go:65-75 | resources of equal name are equal, route tables up to header order |
| Snapshots.IndexKeepsLast | pkg/controlplane/processor.go:65-75 | of several resources of one name the last is kept |
| Snapshots.PublishKeepsAll | pkg/controlplane/processor.go:65-75 | indexing by name therefore drops no listener, cluster, endpoint group or route table |
| Snapshots.PublishedListener | pkg/controlplane/cache.go:217-226 | every port has its listener, on the port's number and on UDP exactly for protocol UDP, with the route table of its name and the origin cluster for plain TCP |
| Snapshots.ListenersArePorts | pkg/controlplane/cache.go:50-54 | and there are no other listeners |
| Snapshots.DeliveredAsIntended | pkg/controlplane/cache.go:43-79 | through listener, routes, cluster and endpoint, every request reaches the client its rules ask for, on its port |
| Snapshots.DeliveredOnPort | pkg/controlplane/cache.go:81-103 | a request that a rule takes goes to that client's IPv4 address on the number of the port it was sent to, every int32 included; other requests go to no client |
| Snapshots.SnapshotIsClosed | pkg/controlplane/processor.go:75-85 | every compiled snapshot passes the consistency check, reference names equal resource names, and no route or listener names an undefined cluster |
| Snapshots.LeavingIsIsolated | pkg/handler/envoy.go:265-273 | without a client's rules no request goes to it, and requests it did not get go where they went |
| Snapshots.LeaveThenCompile | pkg/handler/envoy.go:249-292 | the same through the stored list, the compiler and the snapshot |
| Processors.Processor.NewVersion | pkg/controlplane/processor.go:39-45 | versions stay in 1..MaxInt64 and differ from their predecessor, across the wrap as well |
| Processors.Processor.ProcessFile | pkg/controlplane/processor.go:47-94 | with any cache state and any expiry, each named node ends up served as compiling its last entry in the file would; the others keep their snapshot |
| Processors.Processor.Publication | pkg/controlplane/processor.go:65-92 | publishing updates cache and snapshot together, under a version that differs from the last one published |
| Processors.Compile | pkg/controlplane/processor.go:65-85 | the result serves the entry; the consistency check cannot fail |
| Processors.ServedAsIntended | pkg/controlplane/processor.go:65-92 | requests at a served node go where its rules say |
| Processors.LastLeaveIsNotPublished | pkg/controlplane/processor.go:53-93 | when a node's last rule goes, its old snapshot stays and matching requests still go to the client that left |
| Processors.LeaverIsServedIff | pkg/controlplane/processor.go:53-93 | after a leave is processed some request still goes to the client that left exactly when the leave dropped the node's entry |
| Allocator.AllocateNext | vendor/github.com/cilium/ipam/service/allocator/bitmap.go:103-116 | the least free offset, or none exactly when all are taken |
| Allocator.RentOffset | pkg/handler/dhcp.go:96-103 | the loop ends; it yields the least offset that is free and not local, and fails exactly when there is none |
| Allocator.RentTakesLeast | pkg/handler/dhcp.go:96-103 | a rent takes the least offset neither marked nor local, and marks that one and the local ones it passed |
| Allocator.NetworkBounds | pkg/config/config.go:37-56 | which distances from the first offset lie inside the two networks, as address numbers |
| Allocator.ClearsV4Iff | vendor/github.com/cilium/ipam/service/ipallocator/allocator.go:163-250 | releasing an IPv4 address clears its own offset, exactly inside the network |
| Allocator.ClearsV6Iff | vendor/github.com/cilium/ipam/service/ipallocator/allocator.go:163-250 | each IPv6 offset is cleared by exactly one address: its own inside the network, beyond its end the one whose distance wraps around in 64 bits |
| ConfigStore.TransactionsAreAtomic | pkg/handler/dhcp.go:185-245 | in every interleaving each committed Get/Update equals its function applied at once to the content it replaced |
| ConfigStore.NoWriteIsLost | pkg/handler/cleaner.go:108-133 | with leases, rules, counts, resets, wipes and the first patch of the Envoy key all among the writers, what a write left under a key stays until something that writes this key comes; no Update reverts a patch and no patch reverts another key |
| ConfigStore.JoinCommitted | pkg/handler/envoy.go:191-247 | in every run a join that commits gives the client its rule, headers merged, in the list as it is at that moment, whoever wrote it since the Get, and changes nothing else |
| ConfigStore.LeaveCommitted | pkg/handler/envoy.go:249-292 | in every run after a leave commits no rule of that address is left at the node, the node's other rules and all other entries stand in order, and nothing else changed |
| ConfigStore.PutCommitted | pkg/handler/dhcp.go:247-263 | in every run a Set that commits leaves its value under its key, and nothing else changed |
| ConfigStore.RentCommitted | pkg/handler/dhcp.go:76-163 | in every run a rent that commits takes in each family the least offset that is neither marked at that moment nor the renter's own; a renter that sees the commit holds the two |
| ConfigStore.ReleaseCommitted | pkg/handler/dhcp.go:165-183 | in every run a release that commits clears exactly the marks of the addresses it names, as far as the allocator maps them to offsets |
| ConfigStore.BeginsIff | pkg/handler/dhcp.go:185-245 | an operation comes as far as an Update exactly when it does not fail on what it read: no offset left, no Envoy key for a leave, headers for a client stored without any |
| ConfigStore.WipeFreesAll | pkg/handler/cleaner.go:155-160 | a wipe takes both DHCP keys and all leases away, and nothing else |
| ConfigStore.TriesAgain | pkg/handler/dhcp.go:185-245 | a client that met a conflict can begin again, and commits if nobody writes in between |
| ConfigStore.StoredRulesStayWellFormed | pkg/handler/envoy.go:191-292 | in every interleaving of all clients the stored rule list keeps ids distinct, clients distinct within a node, and no node without a rule |
| ConfigStore.InitLosesRulesIff | pkg/handler/dhcp.go:39-57 | the patch that adds a missing Envoy key takes rules away exactly when there are any by then, which takes a write of the key since the Get |
| ConfigStore.InitWipesRule | pkg/handler/dhcp.go:39-57 | a run in which a rule committed in between is gone |
| ConfigStore.StepKeepsLeasesIff | pkg/handler/dhcp.go:165-245 | a step keeps the held addresses apart and marked exactly when it is no release, other than the holder's own, that names one of them |
| ConfigStore.LeasesExclusiveIff | pkg/handler/dhcp.go:95-245 | in every interleaving, errors after a commit included, held addresses are all along pairwise different in IPv4 and in IPv6 and marked, if and only if no such release commits |
| ConfigStore.LeasesAreExclusive | pkg/handler/dhcp.go:95-117 | so they are in every interleaving in which clients release only what they hold, however often they try |
| ConfigStore.StrayReleaseIsSafeIff | pkg/handler/dhcp.go:165-183 | a release by anybody leaves all held addresses marked exactly when it names none of them that lies inside its network, and no alias of an IPv6 one that lies beyond |
| ConfigStore.DoubleReleaseSharesAddress | pkg/daemon/action/disconnect.go:14-50 | a run in which both daemons release one lease and two later clients hold the same addresses |
| ConfigStore.ReleaseFreesIff | pkg/handler/dhcp.go:165-183 | the holder's release frees its addresses exactly when they lie inside the two networks |
| ConfigStore.MarkClearedIff | vendor/github.com/cilium/ipam/service/ipallocator/allocator.go:163-229 | a write other than a wipe takes a mark away exactly when it is a release that names the one address the allocator maps to that offset |
| ConfigStore.OutsideStaysMarked | vendor/github.com/cilium/ipam/service/ipallocator/allocator.go:163-229 | past the end of its network an IPv4 offset stays marked through every write but a wipe, an IPv6 offset until a wipe or a release of its alias |
| ConfigStore.AliasFreesOutside | vendor/github.com/cilium/ipam/service/ipallocator/allocator.go:219-250 | releasing the alias, which is no lease's address, does free an IPv6 offset past the end |
| ConfigStore.CountPatched | pkg/handler/cleaner.go:108-133 | in every run the count written is the one read at the Get, none being zero, plus the increment, or zero where that is negative |
| ConfigStore.CountPatchIsAtomicIff | pkg/handler/cleaner.go:108-133 | in every run a count patch does what an atomic increment would exactly when the count is what it was at the Get, or both sums are cut off at zero |
| ConfigStore.UndisturbedCountPatchIsAtomic | pkg/handler/cleaner.go:108-133 | it is atomic when nobody wrote the count since the Get |
| ConfigStore.SeparateCountsAddUp | pkg/handler/cleaner.go:94-133 | in every run whose Get-to-patch windows do not overlap the stored count is the increments and resets applied one after another, each sum cut off at zero |
| ConfigStore.OverlappingIncrementsAreLost | pkg/handler/cleaner.go:108-133 | two overlapping connects add one to the count where two are due |
| DhcpManager.RentIP | pkg/handler/dhcp.go:76-163 | with any writes of others between Get and Update: exactly when there are none, a commit that takes in each family the least offset neither marked nor the renter's own; a failure without a write exactly when a family has no such offset; else a conflict that leaves what the others wrote |
| DhcpManager.ReleaseIP | pkg/handler/dhcp.go:165-183 | likewise for the release of all given addresses; nothing is written for none |
| DhcpManager.UpdateRefCount | pkg/handler/cleaner.go:94-150 | with any writes of others before the patch and before the last Get: the count is set from the one first read, not below zero, everything else others wrote stands, and the count read back last is returned |
| DhcpManager.ApiServer.Update | pkg/handler/dhcp.go:240-243 | an Update with an old version changes nothing |
| Containers.PathInjective | pkg/handler/remote.go:685-687 | different containers or probe kinds have different paths |
| Containers.PathIsPointer | pkg/handler/remote.go:685-687 | every path is the JSON pointer to that probe of that container behind the template's own path |
| Text.DecimalReads | pkg/handler/remote.go:685-687 | a container index is printed in decimal: reading it back gives the index, and no zero leads it |
| Containers.Patch | pkg/handler/remote.go:682-727 | both patch lists name the three probes of every container in order, once to clear and once to restore |
| Containers.FromPatchToProbe | pkg/handler/remote.go:729-775 | with a matching count every container gets the last value named for each of its probes, else nothing changes |
| Containers.EntriesSet | pkg/handler/remote.go:682-775 | a full list of entries gives every container exactly the probes saved for it, whatever it had |
| Containers.RemoveContainers | pkg/mesh/controller.go:20-27 | exactly the containers named vpn or envoy-proxy go, the rest keep their order |
| Containers.AddMeshContainer | pkg/mesh/controller.go:30-150 | the two sidecars, once each, behind the other containers |
| Injection.CollectPorts | pkg/handler/envoy.go:51-54 | all container ports: a port is there exactly if some container has it, and the list is nil exactly if none has any |
| Injection.AllPortsAppend | pkg/handler/envoy.go:51-54 | the ports of two lists of containers are those of the first and then those of the second |
| Injection.AllPortsOne | pkg/handler/envoy.go:51-54 | the ports of one container are its own |
| Injection.Cluster.InjectSidecar | pkg/handler/envoy.go:34-115 | the call is Perform with Inject; a panic leaves rules and workload alone |
| Injection.FirstInjectRecordsPorts | pkg/handler/envoy.go:51-57 | the first committed inject of a node leaves an entry whose ports are exactly those of all the workload's containers, in order |
| Injection.Cluster.UnPatchContainer | pkg/handler/envoy.go:117-189 | the call is Perform with Leave |
| Injection.InjectTurnsPlain | pkg/handler/envoy.go:80-107 | injecting a plain workload gives its injected form: probes cleared and saved, sidecars behind |
| Injection.InjectAnyWorkload | pkg/handler/envoy.go:64-107 | what an inject makes of any annotated workload: nothing with both sidecars there, else the other containers without probes and the sidecars behind, unless the patch clears more containers than it leaves and is refused |
| Injection.LeaveTurnsInjected | pkg/handler/envoy.go:141-187 | the last leave turns the injected form back into the original, all three probes of every container included |
| Injection.EveryRunKeepsForm | pkg/handler/envoy.go:34-189 | over every run of injects and leaves, conflicts and other workloads included, the template is injected exactly while the node has a rule and is the original otherwise |
| Injection.RestoresExactlyWithoutSidecars | pkg/mesh/controller.go:20-27 | inject and leave restore the original containers exactly when none of them had a sidecar's name |
| Injection.InjectsExactlyWhenAnnotated | pkg/handler/envoy.go:91-107 | the first inject adds the rule in any case, but the sidecars exactly when the workload has annotations |
| Injection.UnannotatedNeverChanges | pkg/handler/envoy.go:91-107 | over every run a workload without annotations stays as it is, so it has the containers it should have exactly while the node has no rule |
| Injection.NoRuleNoRestore | pkg/handler/envoy.go:134-187 | once the rules are gone no leave touches the workload, so a failed restore is not tried again |
| Injection.NextUserHeals | pkg/handler/envoy.go:57-78 | the next inject of a workload left with sidecars and no rule puts it in form, and the leave after it restores the original |
| OverlappingCalls.NeverMangled | pkg/handler/envoy.go:34-189 | however calls overlap and whichever patches fail, the template is the original or its injected form |
| OverlappingCalls.OverlapRecordsPorts | pkg/handler/envoy.go:51-57 | over every interleaving, whichever form of the workload each inject found, the node's entry has the ports of the workload's own containers |
| OverlappingCalls.OverlapKeepsFormIff | pkg/handler/envoy.go:34-189 | over every interleaving, failed patches included, the form is right if and only if the node has a rule now just as it had right after the decision of the call whose patch arrived last |
| OverlappingCalls.SendKeepsFormIff | pkg/handler/envoy.go:90-107 | a patch that arrives sets the form right exactly when it is an inject's and the node has a rule, or a leave's and it has none |
| OverlappingCalls.PromptCallKeepsFormIff | pkg/handler/envoy.go:57-107 | a call decided and delivered without interruption keeps a workload in form, exactly unless it is an inject that found sidecars which have gone since |
| OverlappingCalls.OrderlyRunKeepsForm | pkg/handler/envoy.go:34-189 | over every run, overlapping calls included, in which no patch fails, rules change only while no patch is on its way and no inject relies on sidecars that have gone, the template is injected exactly while the node has a rule, whenever no patch is on its way |
| OverlappingCalls.ApartRunKeepsForm | pkg/handler/envoy.go:34-189 | the same for all runs whose calls to this workload do not overlap |
| OverlappingCalls.AloneIsPerform | pkg/handler/envoy.go:34-189 | in any state of any run the three steps of a call that nothing interrupts are Perform |
| OverlappingCalls.OverlapLeavesRuleBare | pkg/handler/envoy.go:57-78 | an overlapping leave and inject can end with a rule and no sidecars |
| OverlappingCalls.StaleInjectLeavesRuleBare | pkg/handler/envoy.go:36-78 | so can an inject that read the workload just before the restore arrived, although no decision falls inside another call |
| OverlappingCalls.FailedRestoreWaitsForNextUser | pkg/handler/envoy.go:134-187 | a restore that fails leaves sidecars without a rule, no further leaves change that, and the next inject and leave set it right |
| LeaveAll.ParsesBackIff | pkg/handler/reset.go:69-70 | a node id leads back to its workload exactly when the name has no dot |
| LeaveAll.LastDot | pkg/handler/reset.go:69 | the position of the last dot, where the id is cut; negative exactly when there is none |
| LeaveAll.LeaveProxyResources | pkg/handler/reset.go:45-80 | the loop leaves the entries it first read one after another from the list as it is by then; it panics exactly on an id without a dot; the error it returns is exactly that of the last turn, be it before the rules change or after, when the workload cannot be patched |
| LeaveAll.LeaveOne | pkg/handler/reset.go:67-77 | one turn: the client's rules at that node go exactly if the workload is found and the update goes through, and when it reports an error |
| LeaveAll.TurnsLeaveAll | pkg/handler/reset.go:67-78 | the loop over a changing list equals leaving every reachable entry once |
| LeaveAll.LeftAllRules | pkg/handler/reset.go:67-78 | each node keeps the rules of others in order, and the client's only where the workload was not found or the rule update did not go through |
| LeaveAll.LeavesEverywhere | pkg/handler/reset.go:60-78 | with reachable, dot-free workloads the client's rules are gone everywhere and nobody else's are touched |
| LeaveAll.DottedNameIsMissed | pkg/handler/reset.go:69-70 | a workload with a dotted name keeps the client's rules unless the misread workload exists |
| Framing.FrameRoundTripIff | pkg/core/udpovertcp.go:36-70 | a datagram comes back and the stream stays in step exactly up to 65533 bytes |
| Framing.FrameLayout | pkg/core/udpovertcp.go:63-70 | a frame is the length with its high byte first and then the data, up to 65533 bytes of it |
| Framing.ParsedFitsBuffer | pkg/config/config.go:136 | any announced length fits the buffer |
| Framing.CutStreamYieldsPrefix | pkg/core/udpovertcp.go:36-47 | a stream cut anywhere yields the datagrams that arrived whole and then an error, which error depending on the cut |
| Framing.StreamRoundTrip | pkg/core/udpovertcp.go:36-70 | all datagrams come back in order exactly when each has at most 65533 bytes |
| Framing.InfoRoundTripIff | pkg/core/gvisortcpforwarder.go:84-137 | the session header comes back exactly when both addresses have 0, 4 or 16 bytes |
| Framing.InfoLayout | pkg/core/gvisortcpforwarder.go:84-98 | a header is the local and the remote port with their high bytes first, then the local and the remote address, each behind its length |
| Framing.CutInfoFails | pkg/core/gvisortcpforwarder.go:101-137 | a header cut short is an error |
| Framing.SessionRoundTrip | pkg/core/gvisorudphandler.go:87-106 | header and datagrams together come back as sent |
| Framing.CutSession | pkg/core/gvisorudphandler.go:131-165 | a session cut anywhere yields an error, or the header and a prefix of the datagrams |
| TunnelConn.ReadDatagramPacket | pkg/core/udpovertcp.go:36-61 | reading into a pooled buffer gives what parsing the stream gives, with every slice in range |
| TunnelConn.WriteDatagram | pkg/core/udpovertcp.go:63-70 | what goes out of a buffer with arbitrary old contents is exactly the frame of the data |
| TunnelConn.WriteProxyInfo | pkg/core/gvisortcpforwarder.go:84-98 | the bytes sent are the header WriteInfo defines |
| TunnelConn.ParseProxyInfo | pkg/core/gvisortcpforwarder.go:101-137 | reading field by field gives what parsing the stream gives |
| BufferPool.StepKeepsLinear | pkg/core/tunhandler.go:183-234 | every step of every goroutine moves at most one buffer, so a buffer stays in one place |
| BufferPool.EveryRunSound | pkg/core/tunhandler.go:458-585 | over every interleaving: each buffer is in the pool, one queue slot or one goroutine's hands, or nowhere; waiting packets are as they were read; everything transmitted was read in, is unaltered, and goes out at most once |
| BufferPool.NeverReturnedTwice | pkg/core/tunhandler.go:201-213 | a buffer that is Put is not in the pool yet, and then is nowhere else |
| BufferPool.NeverSentAfterReturn | pkg/core/tunhandler.go:531-585 | a buffer being transmitted is in the sender's hands alone |
| BufferPool.GoesOutFramed | pkg/core/udpovertcp.go:63-70 | over every run the roles that write to a TCP connection, and only those, can frame a packet, and uninterrupted send exactly the frame of what was read |
| BufferPool.PutBackUnsent | pkg/core/tunhandler.go:560-585 | routeTUN, and no other, can return a packet's buffer without sending it |
| BufferPool.AfterWrite | pkg/core/tunhandler.go:531-558 | over every run, where a packet's buffer is after its write: nowhere exactly if routePeer could not write its datagram, still in hand for a copy loop that wrote, else in the pool |
| BufferPool.BufferLostIff | pkg/core/tunhandler.go:183-585 | over every run a step loses a buffer to the pool exactly if the pool forgets it, a parser drops its packet, a read other than a copy loop's fails, or routePeer cannot write its datagram |
| BufferPool.EndsIff | pkg/core/tunhandler.go:183-585 | a goroutine ends exactly with a failed read or a failed write |
| BufferPool.GoesOnIff | pkg/core/tunhandler.go:183-585 | a goroutine that has not ended can go on exactly when it does not wait for a packet in an empty queue or, having read one, for room in a full one |
| BufferPool.HandsOverIff | pkg/core/tunhandler.go:350-406 | which goroutine a packet goes to after which: with nothing else under way one can send it and the other receive it exactly for these pairs |
| BufferPool.EveryRunFlows | pkg/core/tunhandler.go:350-624 | over every run each queue and each goroutine holds only packets read by the roles on the way there |
| BufferPool.EveryRunRegular | pkg/core/tunhandler.go:21 | over every run no queue holds more than 1000 packets, none is received before it is sent, and only readers fill buffers |
| BufferPool.OnlyOwnBufferWritten | pkg/core/udpovertcp.go:63-70 | no step writes into a buffer somebody else holds |
| NatTable.Nat.RemoveAddr | pkg/core/tunhandler.go:47-61 | in any key order, every list is filtered, and the count is the number of places the address was in |
| NatTable.Nat.LoadOrStore | pkg/core/tunhandler.go:63-86 | alone, it reports exactly whether the address was listed, and appends it if not |
| NatTable.Nat.RouteTo | pkg/core/tunhandler.go:88-98 | the address of the list at the random index, none exactly for an empty list |
| NatTable.Nat.Remove | pkg/core/tunhandler.go:100-116 | removes the address from this key's list only |
| NatTable.PurgeRemovesExactly | pkg/core/tunhandler.go:47-61 | afterwards no list routes to the address and the others are kept in order |
| NatTable.TableIsMultimap | pkg/core/tunhandler.go:47-116 | after any sequence of calls each list holds, without repeats, exactly what was stored for its key and not dropped since |
| NatTable.RoutesOnlyToStored | pkg/core/tunhandler.go:63-98 | over every interleaving, with LoadOrStore split at its unlocked gap, a list holds only addresses stored for its key |
| NatTable.UninterruptedIsStore | pkg/core/tunhandler.go:63-86 | test and write with nothing in between are the whole call, whatever else is under way |
| NatTable.UndisturbedRunIsSerial | pkg/core/tunhandler.go:47-116 | over every run in which nobody changes a call's list inside its gap, the table is what the completed calls make of it one after another |
| NatTable.UndisturbedRunIsMultimap | pkg/core/tunhandler.go:47-116 | and so a multimap without repeats |
| NatTable.WriteLosesIff | pkg/core/tunhandler.go:75-80 | a write drops another address exactly when the call had found no list and one is there now |
| NatTable.WriteRepeatsIff | pkg/core/tunhandler.go:81-85 | a write repeats an address exactly when the call had found a list and the address is in it now |
| NatTable.OverlapLosesPeer | pkg/core/tunhandler.go:63-86 | a run that loses a peer |
| NatTable.OverlapRepeatsPeer | pkg/core/tunhandler.go:63-86 | a run that lists a peer twice |
| ConnTable.RouteConnNat.Learn | pkg/core/tcphandler.go:97-106 | alone, the source address leads to this connection afterwards |
| ConnTable.RouteConnNat.Teardown | pkg/core/tcphandler.go:59-71 | alone, exactly the connection's entries are gone |
| ConnTable.EveryRunTended | pkg/core/tcphandler.go:55-108 | every entry leads to a connection whose handler will still meet that key in its clean-up |
| ConnTable.NoEntryOutlivesItsHandler | pkg/core/tcphandler.go:55-108 | over every interleaving an entry leads to a connection that sent from that address and whose handler is not done |
| ConnTable.RoutesBackWhileReading | pkg/core/tcphandler.go:80-106 | if no two connections share a source address, every address a connection used leads back to it while its handler reads |
| ConnTable.EveryRunMarksOwn | pkg/core/tcphandler.go:59-71 | over every interleaving a handler marks only addresses its own connection has sent from |
| ConnTable.EntryLostIff | pkg/core/tcphandler.go:59-106 | a step makes an address stop leading to its connection exactly when it deletes the address or another connection takes it over, and whoever does it has sent from that address |
| ConnTable.LeadsBackIff | pkg/core/tcphandler.go:55-108 | in every run, from when an address leads to a connection until that connection stores itself again, it still leads there exactly when no step in between deleted it or took it over |
| ConnTable.OnlySharersTake | pkg/core/tcphandler.go:55-108 | in every run an address is taken away only by a connection that has sent from it |
| ConnTable.LateDeleteDropsFreshEntry | pkg/core/tcphandler.go:59-71 | a run in which an old handler's clean-up deletes a new connection's entry |
| ConnTable.NextPacketRestores | pkg/core/tcphandler.go:97-106 | the connection's next packet puts its entry back |
| TarPipes.TarPipe.constructor | pkg/cp/cp.go:237-243 | a new reader starts at the first byte |
| TarPipes.TarPipe.Read | pkg/cp/cp.go:274-289 | one read is Next: bytes, a restart behind the bytes had, or the end exactly when no try is left |
| TarPipes.DeliversPrefix | pkg/cp/cp.go:245-289 | for any failure pattern the delivered bytes are the archive's first bytesRead bytes, and restarts stay within a non-negative limit |
| TarPipes.GivesUpIff | pkg/cp/cp.go:274-289 | over every run a reader at the end of a stream gives up exactly when it has a limit and has used it up, and otherwise goes on behind the bytes it has |
| TarPipes.UnlimitedNeverGivesUp | pkg/cp/cp.go:277 | with a negative limit it never does |
| TarPipes.EndsWholeIff | pkg/cp/cp.go:245-289 | over every run a reader that ends has the whole archive exactly when the command it started last was not cut short |
| TarPipes.UncutIsWhole | pkg/cp/cp.go:274-289 | so it has if every command runs to its end |
| TarPipes.CutLooksLikeEnd | pkg/cp/cp.go:274-289 | for every limit of tries and every proper prefix of the archive, a run that ends with that prefix as it would with the whole |
| TarPipes.RetryCompletes | pkg/cp/cp.go:274-289 | a run in which a retry completes what a cut command left |
| Daemons.Server.Disconnect | pkg/daemon/action/disconnect.go:47-80 | the daemon's own part of a disconnect: the new lists, which connections are cleaned up, and that it dies exactly on a negative index, in 32-bit arithmetic |
| Daemons.DiesIff | pkg/daemon/action/disconnect.go:72-80 | the daemon dies of exactly the negative ids, except the most negative one, whose index wraps around |
| Daemons.ClosedOrHeld | pkg/daemon/action/disconnect.go:47-80 | every connection is cleaned up once or still held |
| Daemons.Server.Status | pkg/daemon/action/status.go:12-28 | a row 0 for the full connection and rows from 1 for the lite ones |
| Daemons.RowsIff | pkg/daemon/action/status.go:12-28 | row 0 is the full connection, and row k the lite connection at position k |
| Daemons.DisconnectShiftsRows | pkg/daemon/action/disconnect.go:64-80 | disconnecting id k takes row k away; the rows behind a lite connection move up by one, all others stay |
| Daemons.Server.AlreadyConnected | pkg/daemon/action/connect-fork.go:142-153 | true exactly when a comparable connection to the same cluster has equal options |
| Daemons.ConnectFork | pkg/daemon/action/connect-fork.go:142-177 | the paired append as one step of the pair, for each way the call to the sudo daemon can end |
| Daemons.ConnectsIff | pkg/daemon/action/connect-fork.go:142-177 | a served connect is appended by both daemons exactly when every comparable connection leads to another cluster or has other options |
| Daemons.DisconnectBoth | pkg/daemon/action/disconnect.go:14-80 | the paired removal as one step of the pair, likewise |
| Daemons.ConnectAddsLastRow | pkg/daemon/action/connect-fork.go:93-177 | a served connect adds one row, behind all others, in both daemons |
| Daemons.ListsAgree | pkg/daemon/action/connect-fork.go:93-177 | from any equal lists, full connection or not, over every run without a broken stream or a dying daemon both daemons hold the same connections at the same positions |
| Daemons.StaysTogetherIff | pkg/daemon/action/connect-fork.go:142-177 | exactly which calls keep agreeing daemons in agreement: refused ones, ones served on both sides, broken ones that ask for no change, and deadly ones for a daemon with nothing to lose |
| Daemons.DisconnectRemovesShownRow | pkg/daemon/action/disconnect.go:72-80 | disconnecting id k removes the connection shown as k from both daemons and moves later ones up by one |
| Daemons.NeverConnectedTwice | pkg/daemon/action/connect-fork.go:142-153 | if every cluster can be compared, no two of the user daemon's lite connections lead to the same cluster with equal options |

## Left out

- Kubernetes, Docker, SSH, gRPC, port-forward, TUN and driver calls are foreign; only the API server's version check and patch rules appear, as assumptions.
- Encodings: JSON, YAML and base64 are taken as inverse pairs, so undecodable text under a ConfigMap key does not occur, and `Set` on the keys that hold decoded values is not modelled; the code sets only the CIDR key.
- ConfigStore.LeasesExclusiveIff: a wipe of the DHCP keys ends all leases, so what holders from before a wipe still use is not followed.
- DhcpManager.UpdateRefCount: a missing ConfigMap and other errors of the server are left out; the retry on conflict has nothing to retry, since a patch without a version meets none.
- Injection.EveryRunKeepsForm: takes calls as whole and their patches as delivered; OverlappingCalls says exactly what holds otherwise.
- Creating and deleting the ConfigMap; a missing one, on which a leave reports the entry as dropped; and Pods without a controller, which are deleted and created again.
- `InjectVPNSidecar` and `pkg/exchange`: another injection path, with another encoding of the saved patch.
- MeshCompiler.CompilerPreservesMeaning: concerns HTTP requests; timeouts, filters and the plain TCP filter chain, which always uses the origin cluster, are not modelled beyond their cluster name. Header names are looked up in lower case, as Envoy keeps them.
- NatTable.Nat.RemoveAddr: works on list values; the sharing of backing arrays between slices appears only as the free outcome of a search that a removal overtakes.
- BufferPool.EveryRunSound: packets too short for their address fields, logging after Put, the buffers `pkg/tun` takes and returns within one call, and channel shutdown are left out; the server's and the client's roles may all be present at once, which only adds runs.
- ConnTable.EveryRunTended: reading the address bytes out of the packet is not modelled; a packet is its source address.
- A zero-length datagram ends a gvisor UDP session in `handle`; sessions here are the byte stream only.
- TarPipes.DeliversPrefix: for an archive that does not change between commands.
- Daemons.Server.Disconnect: lists of 2^31 connections and more, whose length does not fit the 32-bit comparison, are left out.
- Daemons.ListsAgree: calls do not overlap, full connections are not begun during a run, and the hang-up of a foreground lite connect, which passes a list index as an id, is left out.
- DNS, routes, hosts files, `pkg/dev`, upgrade, CLI commands and webhook admission, which drive other programs or call the operations modelled here.
