# Verified model of the cluster platform's provisioning core

This project models the parts of the platform that decide something over unbounded inputs or
runs, and proves what they promise:

- **Address ranges** (`Arith`, `Bits`, `Cidr`): prefix blocks in the notation of section 3.1 of
  RFC 4632, the exact overlap test, numbered sub-blocks by shift and bitwise OR, first fit of a
  /24, equal blocks, and the Kubernetes pod and service ranges.
- **Cloud reconciliation** over the recorded cloud resources (`Registry`, `RegistryFacts`): the
  Ali network pipeline of five diff engines (`AliCloud`, `AliSubnets`, `AliEips`, `AliNats`,
  `AliRoutes`, `AliNetwork`), AWS subnets and addresses (`AwsProvision`), AWS network deletion
  and subnet pruning (`AwsNetwork`), security-group rules of both clouds (`SecurityGroup`,
  `AliRules`), load-balancer ports (`AwsBalancer`), and the choice of zones (`ZoneChoice`). The
  cloud is an abstract store whose calls may fail at any point.
- **Cluster and node lifecycle** (`Cluster`, `Lifecycle`, `LifecycleFacts`, `Placement`): the
  event handler as a method proved against a function of the outcomes of its calls, facts about
  every run of events, bare-metal nodes from an address range, and the load of each subnet.
- **Persistence and events** (`Store`, `ClusterRepo`, `ClusterRepoFacts`, `WorkflowRepo`,
  `EventQueue`): the transactional upsert-and-delete of a cluster and of a workflow, loading it
  again, and the event channel with its per-cluster locks as a state machine.
- **Ordering and codecs** (`Workflow`, `Text`, `Labels`, `IpRange`): step and task iteration
  against sorted flattening, label texts, and IPv4 ranges.

Objects the source updates in place are classes; each method is proved against a specification
function or an outright statement of the new state. Results of calls into code outside the model
are nondeterministic values. Every lemma switches automatic induction off, so an inductive proof
is exactly the recursive calls it shows.

Where the code falls short of what one would expect, a failing input is given and the exact
condition is proved:

- labels and rule keys round-trip or decide equality if and only if no part holds a separator;
- rules in force stay untouched, for wishes without a dash, if and only if every wished protocol
  is in upper case;
- Kubernetes ranges exist for ids up to 159 only;
- under unique record keys AWS subnet pruning drops exactly the stale subnets if and only if the
  keys of stale subnets happen to be references of stale subnets;
- the iteration over steps and tasks visits what the sorted list holds if and only if no step has
  two tasks of equal order and a step of an order met before has no tasks;
- target groups have one name for a port in the whole account, so without faults a load-balancer
  run fails if the name for a port without an attached group is taken in another VPC. The service
  decides the rest, and the condition is exact for each kind of service: one that refuses repeated
  creates fails it also when the cluster's own group is there unattached (of a port closed before,
  or left by a failed run), or when two public ranges share a port not yet served; one that keeps
  groups in use fails it when an attached group is on an unwanted port. With a service that repeats
  creates, any failed run can be repeated with success;
- new cloud nodes with a system disk each cannot be saved even once, their blank disk keys being
  equal; other clusters keep their rows if and only if no saved key is theirs; the row of a new
  cluster is lost for good if and only if a save fails after inserting it;
- the basic resources are managed at some time if and only if the level is not yet the one for the
  sizes, so never for a cluster started as the interface starts it, and by one event at most
  unless the cluster is changed in between; a
  failed stop is not tried again but turns into a start; while Kubernetes answers, a cluster in
  ERROR stays as it is through all events;
- without faults an Ali network is provisioned if and only if the range has room for the zones that
  need a subnet; an AWS one cannot be taken down if the recorded VPC is already gone.

Run `dafny verify dfyconfig.toml` to check everything.

## Model

| member | source | states |
|---|---|---|
| `Bits.OrIsAddition` | utils/cidr.go:249-254 | bitwise OR of an aligned base and a number that fits below the alignment is their sum |
| `Bits.ToNatInjective` | utils/cidr.go:226-236 | byte strings of one length with the same big-endian value are equal |
| `Cidr.IntToIP` | utils/cidr.go:238-247 | filling the bytes from the end gives the address whose value is the given integer: the inverse of the conversion to an integer |
| `Cidr.InsertNumIntoIP` | utils/cidr.go:249-254 | shift and OR put the number into the address: value = base + num * 2^(addrLen - prefixLen) on an aligned base |
| `Cidr.SubnetBig` | utils/cidr.go:204-224 | the numbered sub-block is valid and is exactly block num of the parent; both refusals and when they occur |
| `Cidr.BlockIsInside` | utils/cidr.go:188-224 | every numbered block lies in its parent |
| `Cidr.DifferentBlocksAreApart` | utils/cidr.go:188-224 | blocks of different numbers share no address |
| `Cidr.InsideBlockHasNumber` | utils/cidr.go:188-224 | every block of that prefix length inside the parent is one of the numbered ones |
| `Cidr.BlocksTileParent` | utils/cidr.go:188-224 | the addresses of the parent are those whose quotient is a block number, and of all numbered blocks exactly the one of that number covers the address |
| `Cidr.OverlapIsExact` | utils/cidr.go:157-173 | testing each base address against the other block is true exactly when the address sets intersect |
| `Cidr.BlocksNestOrAreApart` | utils/cidr.go:157-173 | two prefix blocks are nested or disjoint |
| `Cidr.GenerateSubnet` | utils/cidr.go:23-64 | first fit is sound (inside, free), least, and complete: it fails exactly when no /24 number is free |
| `Cidr.CarvingTakesOne` | utils/cidr.go:41-60 | handing out a free /24 takes exactly one number from those that are free |
| `Cidr.GenerateSubnets` | utils/cidr.go:66-95 | n pairwise disjoint blocks inside the range with ceil(log2 n) extra bits, or failure exactly when these do not fit |
| `Cidr.GenerateKubernetesCidrs` | utils/cidr.go:97-155 | the first pod range clear of the VPC and the first service range clear of both, or which search failed |
| `Cidr.KubernetesCidrsExist` | utils/cidr.go:97-155 | in the cluster's own 10.id.0.0/16 the ranges exist exactly for ids up to 159, and which they are |
| `Registry.CloudRegistry.DeleteCloudResource` | internal/biz/cluster.go:854-862 | exactly the resources of the type are dropped, order kept |
| `Registry.CloudRegistry.DeleteCloudResourceByID` | internal/biz/cluster.go:865-874 | exactly the resources of the type with the key are dropped, order kept |
| `Registry.CloudRegistry.DeleteCloudResourceByRefID` | internal/biz/cluster.go:877-886 | exactly the resources of the type with the reference are dropped, order kept |
| `Registry.CloudRegistry.Prune` | infrastructure/alicloud.go:869-881 | deleting while running over a snapshot drops exactly the unlisted resources of the type |
| `RegistryFacts.PrunedIsLive` | infrastructure/alicloud.go:990-1001 | after pruning everything of the type is listed, listed entries and other types are kept, and nothing changes if all were listed |
| `AliSubnets.CreateVpc` | infrastructure/alicloud.go:750-844 | success leaves a recorded VPC that exists; if none was before, it is the only one and has the cluster's name and range; with a recorded one nothing is asked or changed; without faults it always succeeds |
| `AliSubnets.AdoptVpc` | infrastructure/alicloud.go:775-797 | a listed VPC is adopted exactly when one has the cluster's range |
| `AliSubnets.Survey` | infrastructure/alicloud.go:883-898 | all ranges of complete switches are collected, and each zone gets its first complete switch |
| `AliSubnets.FirstInIsFirst` | infrastructure/alicloud.go:886-898 | the switch of a zone is the first complete one listed for it |
| `AliSubnets.AdoptSubnets` | infrastructure/alicloud.go:899-918 | in any order of zones: the chosen switches end up recorded, each new entry is the private subnet of its zone, references stay distinct, and a zone whose switch was not recorded gets its name |
| `AliSubnets.CreateSubnet` | infrastructure/alicloud.go:921-962 | a zone whose name is recorded is left alone; else the one create call is for the least free range, and its switch is in range, unblocked, and recorded as the zone's private subnet; without faults it fails exactly if no range is free |
| `AliSubnets.CreateMissing` | infrastructure/alicloud.go:920-964 | through the whole loop all created switches are carved safely, new, and recorded; on success every zone has its name; without faults it succeeds exactly if the zones lacking one are no more than the free ranges |
| `AliSubnets.CreateSubnets` | infrastructure/alicloud.go:846-965 | every created subnet is inside the VPC, apart from every complete listed one and from each other; every new entry stands for a switch of the zone it is tagged with; success with a listing settles the stage; a settled stage asks for nothing and succeeds; without faults it succeeds exactly if the range has room for the zones that pruning and adoption leave without a subnet |
| `AliSubnets.EachZoneHasLiveSubnet` | infrastructure/alicloud.go:920-964 | in a settled stage each zone has a recorded subnet of its name that is live in the cloud |
| `AliEips.ServeZone` | infrastructure/alicloud.go:1005-1057 | one zone's turn keeps the one-to-one assignment and the source of every address; a served zone is left alone |
| `AliEips.AdoptEip` | infrastructure/alicloud.go:1010-1031 | a new address is asked for only when no listed one is free and unrecorded |
| `AliEips.CreateEips` | infrastructure/alicloud.go:967-1090 | success serves every zone with listed addresses; one-to-one is kept; adopted addresses were free and unrecorded when listed; new entries carry name, zone and address of a listed one; a settled stage asks for nothing; without faults it always succeeds |
| `AliEips.ExactlyOneAddress` | infrastructure/alicloud.go:1003-1057 | a served zone has exactly one address, which is listed and recorded once |
| `AliNats.AdoptNats` | infrastructure/alicloud.go:1131-1173 | afterwards every listed gateway is recorded or does not qualify; nothing changes if that held before |
| `AliNats.AdoptNat` | infrastructure/alicloud.go:1131-1173 | a gateway is recorded exactly if it qualifies and is not recorded, in its subnet's zone with its first recorded address |
| `AliNats.FirstEipIsFirst` | infrastructure/alicloud.go:1145-1155 | the address of a gateway is the first of its list that is recorded |
| `AliNats.ServeZone` | infrastructure/alicloud.go:1176-1298 | one zone's turn serves it, with the zone's own address if it was not, keeps every served zone served, serves no other, and touches nothing if it was served; without faults it fails exactly if the zone is not served and lacks a private subnet or an address |
| `AliNats.MakeNat` | infrastructure/alicloud.go:1210-1297 | the three calls made, and the gateway recorded with its name and tags and the subnet and address they used |
| `AliNats.CreateNatGateways` | infrastructure/alicloud.go:1092-1301 | success settles gateways for all zones; other types and address ids are kept; a settled stage asks for nothing; without faults it succeeds if every zone has a private subnet and an address, or the stage is settled |
| `AliNats.ServeZones` | infrastructure/alicloud.go:1175-1298 | without faults the loop succeeds exactly if each zone is served or has a private subnet and an address |
| `AliRoutes.MakeTables` | infrastructure/alicloud.go:1341-1398 | every zone gets a table, zones stay distinct; nothing happens if all have one |
| `AliRoutes.BindTables` | infrastructure/alicloud.go:1404-1431 | though judged by the old listing, in an orderly registry all private tables end up bound to their zone's subnet |
| `AliRoutes.BindStep` | infrastructure/alicloud.go:1418-1425 | binding one table takes no other table's subnet away |
| `AliRoutes.RouteTables` | infrastructure/alicloud.go:1433-1476 | all private tables end up routed to their zone's gateway and, if changed, associated with it; bindings kept; without faults it fails exactly if a private table's zone has no gateway |
| `AliRoutes.CreateRouteTables` | infrastructure/alicloud.go:1303-1478 | success in an orderly registry settles the tables; new tables are private ones of an availability zone; a settled stage asks for nothing; without faults it succeeds exactly if each private table, also one to be made, has a private subnet and a gateway of its zone |
| `AliNetworks.CreateNetwork` | infrastructure/alicloud.go:172-186 | success settles all five stages; on a settled network a run changes nothing, makes no changing call and, without faults, succeeds; without faults any run on a registry tagged as the code tags it succeeds exactly if the range has room for the zones that pruning and adoption leave without a subnet; every run, failed ones too, keeps tags and order of the registry, and its new switches belong to the recorded VPC, in range and apart from its listed ones and each other |
| `AliNetworks.RunAgain` | infrastructure/alicloud.go:172-186 | a run on a settled network, as a successful run leaves it, issues no create, allocate, associate or tag call, changes neither registry nor cloud and, without faults, succeeds |
| `AliNetworks.SubnetsStay` | infrastructure/alicloud.go:846-965 | later stages leave the subnet stage settled |
| `AliNetworks.NatsStay` | infrastructure/alicloud.go:1092-1301 | the table stage leaves the gateway stage settled |
| `RegistryFacts.DistinctOfType` | infrastructure/alicloud.go:172-186 | distinctness of references or zones depends only on the resources of the type, so stages for other types keep it |
| `AwsProvision.CreateSubnets` | infrastructure/awscloud.go:812-933 | every created subnet, recorded or not, is in range and apart from every complete listed one and each other; success names a subnet for each zone; without faults it succeeds exactly if a VPC is recorded and the range has room for the zones that pruning and adoption leave without a subnet |
| `AwsProvision.CreateEips` | infrastructure/awscloud.go:935-1006 | success serves every zone with listed addresses; one-to-one is kept; adopted addresses were free and unrecorded when listed; without faults it always succeeds |
| `AwsNetworks.PruneSubnets` | infrastructure/awscloud.go:838-850 | pruning by key with a reference drops the subnets whose key equals some stale reference |
| `AwsNetworks.PruneIsExactIff` | infrastructure/awscloud.go:838-850 | with keys unique in their type it drops exactly the stale subnets if and only if the key of each stale one is the reference of a stale one |
| `AwsNetworks.StaleSubnetStays` | infrastructure/awscloud.go:838-850 | a stale subnet with a key of its own stays |
| `AwsNetworks.DeleteEach` | infrastructure/awscloud.go:191-457 | wherever a loop stops, a prefix of the snapshot is gone, each entry deleted, not found or, for route tables, not listed, by the answers of this loop; deletes are asked for recorded entries only, each right after an answer that it is there; none is skipped; other types are untouched; without faults it succeeds |
| `AwsNetworks.DeleteNetwork` | infrastructure/awscloud.go:191-457 | wherever it stops, earlier types are gone on such evidence, of the type in hand a prefix is, later and unhandled types are unchanged and not asked about; only recorded resources are deleted, and no VPC that is the default one or not listed; success leaves none of the handled types, with exactly one of deleted, default and not listed for the VPC; without faults it fails exactly if no VPC is recorded or the recorded one is not found |
| `AwsNetworks.GoneMeansEvident` | infrastructure/awscloud.go:191-457 | a vanished entry other than a VPC was deleted in the cloud, not found or, for a route table, not listed there |
| `SecurityGroups.KeyDecidesIff` | infrastructure/awscloud.go:1382-1398 | the joined key of a wanted rule decides equality with every other triple exactly when no part holds a dash |
| `SecurityGroups.ManageAwsRules` | infrastructure/awscloud.go:1375-1433 | success leaves exactly the old rules without the unmatched plus the missing ones; every call, also of a failed run, is one of those; without faults it fails exactly if an unmatched wish comes to a rule that is kept or was just added |
| `SecurityGroups.CleanWishesClash` | infrastructure/awscloud.go:1414-1433 | with clean upper-case wishes that is exactly if a missing rule is wished for twice |
| `SecurityGroups.PlanIsDifference` | infrastructure/awscloud.go:1375-1433 | with clean upper-case wishes the calls planned are the two set differences |
| `SecurityGroups.RulesConverge` | infrastructure/awscloud.go:1375-1433 | then the ingress set becomes the wanted one, egress is untouched, common rules are not touched, and from the wanted set nothing is planned |
| `SecurityGroups.ManageAwsRulesAgain` | infrastructure/awscloud.go:1375-1433 | a run from the wanted set makes no changing call |
| `SecurityGroups.QuietIffUpperCase` | infrastructure/awscloud.go:1382-1411 | once the wanted set is reached with dashless wishes, no call is planned if and only if every wished protocol is in upper case |
| `SecurityGroups.LowerCaseWishNeverRests` | infrastructure/awscloud.go:1382-1411 | a lower-case wish is revoked and authorized again in every run |
| `AliRules.ManageAliRules` | infrastructure/alicloud.go:1554-1611 | success keeps matching rules under their ids, drops the others, adds the missing; with nothing unwanted or missing no call is made; without faults it always succeeds |
| `AliRules.AliRulesConverge` | infrastructure/alicloud.go:1554-1611 | with clean upper-case wishes the contents become the wanted ones and nothing is unwanted or missing any more |
| `AliRules.AliQuietIffUpperCase` | infrastructure/alicloud.go:1554-1611 | once the wanted contents are reached with dashless wishes, nothing is missing if and only if every wished protocol is in upper case |
| `AwsBalancer.ManagePorts` | infrastructure/awscloud.go:1543-1652 | success serves exactly the ports; every run, failed ones too, keeps the wanted listeners, points new ones to a group of their port, drops only attached groups of other ports and adds only own ones; without faults a run succeeds if and only if CanServe holds: names of ports without an attached group are free (or own, if the service repeats creates), no group in use must go that the service keeps, and without repeats no port not yet served is listed twice; an aligned balancer is left alone |
| `AwsBalancer.ManageRules` | infrastructure/awscloud.go:1533-1652 | the same for security rules: success serves exactly the ports of the public ranges, and without faults a run succeeds if and only if that condition holds, where ports listed twice are overlapping ranges |
| `AwsBalancer.PortIsOpened` | infrastructure/awscloud.go:1533-1541 | the ports to serve are exactly those of some public range |
| `AwsBalancer.DoubledIffOverlap` | infrastructure/awscloud.go:1533-1541 | an unserved port is asked for twice exactly when two public ranges share it |
| `AwsBalancer.OverlapFails` | infrastructure/awscloud.go:1533-1541 | two public ranges that meet in one port can be served on a new balancer if and only if the service repeats creates |
| `AwsBalancer.RetryCanServe` | infrastructure/awscloud.go:1543-1652 | with a service that repeats creates, wherever a run that could succeed stops, the next one can succeed |
| `AwsBalancer.DoubledPortsDoNotMatter` | infrastructure/awscloud.go:1589-1650 | with a service that repeats creates only the set of ports decides success |
| `AwsBalancer.SecondClusterFails` | infrastructure/awscloud.go:1591-1605 | a group of a public port in another VPC keeps a cluster without an attached one from serving the port, whatever the service |
| `AwsBalancer.ClosedPortsLeaveGroups` | infrastructure/awscloud.go:1543-1588 | from an aligned balancer no run deletes a group, and the group of a closed port stays behind without a listener |
| `AwsBalancer.CloseAndReopen` | infrastructure/awscloud.go:1543-1652 | over two runs, a port that was closed can be opened again only if the service repeats creates, and then it can if the names are not taken by others |
| `AwsBalancer.ClearGroups` | infrastructure/awscloud.go:1566-1588 | each wanted port among the attached groups is mapped to a group of that port; exactly the attached groups on other ports are deleted; without faults it fails exactly if there are some and the service keeps groups in use |
| `AwsBalancer.OthersSurvive` | infrastructure/awscloud.go:1575-1587 | deleting a group by its ARN deletes no other |
| `ZoneChoice.SetZoneByLevel` | internal/biz/cluster.go:1098-1125 | zones are only added, the first unrecorded ones of the offer, never twice, and exactly up to the level's number |
| `ZoneChoice.RecordedAreEnough` | internal/biz/cluster.go:1106-1124 | distinct offered zones that are all recorded are no more than the recorded ones, so the loop cannot run short |
| `Placement.LoadIsExact` | internal/biz/cluster.go:959-973 | with more nodes than subnets, subnet j gets q + min(q, max(0, r - j*q)) nodes, between q and 2q |
| `Placement.FewNodesApart` | internal/biz/cluster.go:959-973 | with enough subnets different nodes get different subnets |
| `Placement.FewNodesInDifferentSubnets` | internal/biz/cluster.go:959-973 | then the chosen subnets are recorded private ones with different references, if those of the record are distinct |
| `Clusters.Cluster.SetNodeStatusFromTo` | internal/biz/cluster.go:1243-1249 | exactly the nodes in the one status move to the other |
| `Clusters.Cluster.SettingClusterLevelByNodeNumber` | internal/biz/cluster.go:1070-1096 | BASIC below 50 nodes, ADVANCED below 100, none from 100 to 199, STANDARD above, by the wrapped sum; whether it changed |
| `Clusters.TotalIsWrappedSum` | internal/biz/cluster.go:1078-1080 | the number is the sum of the sizes up to multiples of 2^32 |
| `Clusters.Cluster.SetCidr` | internal/biz/cluster.go:1047-1064 | the ranges derived from the id are set, or which error leaves what set |
| `Clusters.Cluster.SetBareMetalNode` | internal/biz/cluster.go:1127-1157 | the node list becomes the specified function of the address range |
| `Clusters.BareMetalMatchesRange` | internal/biz/cluster.go:1127-1157 | each address has exactly one node, in-range nodes keep their status, others are to be deleted, new ones are named by position, roles stay but for the first node's if there was no master, and a master exists |
| `Clusters.BareMetalIdempotent` | internal/biz/cluster.go:1127-1157 | doing it again changes nothing |
| `Lifecycle.ClusterUsecase.HandleClusterEvent` | internal/biz/cluster.go:1606-1689 | state, calls and error after an event are the specified function of the state before and the outcomes |
| `Lifecycle.ClusterUsecase.HandlerClusterNotInstalled` | internal/biz/cluster.go:1691-1733 | the same for the path where Kubernetes already answers |
| `LifecycleFacts.PlanIsFollowed` | internal/biz/cluster.go:1606-1733 | whatever fails, the calls are the planned ones up to the first that fails, then one save; the event fails exactly if a planned call does, with the nodes as they were at that call |
| `LifecycleFacts.EventJoins` | internal/biz/cluster.go:1642-1689 | a failure-free event where it does not: nodes to be found, created or joined run, those to be deleted are deleted, others are as before |
| `LifecycleFacts.EventInstalls` | internal/biz/cluster.go:1691-1733 | a failure-free event where Kubernetes answers, not local and with nodes left, makes both installations; cluster and pending nodes run, others are as before |
| `LifecycleFacts.EventStops` | internal/biz/cluster.go:1613-1638 | a failure-free stop makes exactly its calls, with every node not gone marked for deletion, and ends with all deleted |
| `LifecycleFacts.CallsSeeTheirNodes` | internal/biz/cluster.go:1639-1733 | also in events that fail later: when machines are managed no node is to be found any more, and when nodes are joined or the cluster installed none is to be created |
| `LifecycleFacts.RunningOnlyAfterBringUp` | internal/biz/cluster.go:1606-1733 | a node runs after an event only if it ran before or was pending in a join or installation of that event that succeeded |
| `LifecycleFacts.ClusterRunningOnlyAfterInstall` | internal/biz/cluster.go:1691-1733 | the cluster becomes running only in an event with both installations successful |
| `LifecycleFacts.RunIsExplained` | internal/biz/cluster.go:1606-1733 | at every point of every run of events, user commands and returns to an earlier stored state, each running node and a running cluster go back to such an event before it |
| `LifecycleFacts.OneSaveAndErrors` | internal/biz/cluster.go:1606-1689 | exactly one save, last; the event fails exactly when an earlier call failed, and then the cluster is in ERROR |
| `LifecycleFacts.RetrySettles` | internal/biz/cluster.go:1606-1689 | from any state a failure-free event leaves no node in a passing status, and a failure-free stop deletes all |
| `LifecycleFacts.ErrorStaysForever` | internal/biz/cluster.go:1639-1695 | while Kubernetes answers, a cluster neither starting nor stopping stays exactly as it is through any number of events |
| `LifecycleFacts.BasicsManagedIffLevelChanges` | internal/biz/cluster.go:1650-1663 | basic resources are managed exactly when the level is defined and new |
| `LifecycleFacts.BasicsCalledIff` | internal/biz/cluster.go:1639-1706 | whatever else fails, basic resources are managed exactly when the event works on the cluster, the level changes and the zones were got |
| `LifecycleFacts.BasicsAreTriedOnce` | internal/biz/cluster.go:1650-1663 | after an event that works on the cluster no later event manages the basic resources, though that one succeeded with them only if neither the zones nor they failed; a later failure-free event settles all nodes nonetheless |
| `LifecycleFacts.BasicsNeverIff` | internal/biz/cluster.go:1639-1706 | no sequence of events, whatever fails in them, manages the basic resources if and only if the level is already the one for the sizes |
| `LifecycleFacts.StartedWithoutBasics` | internal/biz/cluster.go:1541-1580 | a cluster with level BASIC and one group of three never gets basic resources |
| `LifecycleFacts.StopIsTriedOnce` | internal/biz/cluster.go:1606-1689 | when an event of a stopping cluster fails, no later event uninstalls or deletes the basic resources, and the next failure-free one starts the cluster |
| `ClusterRepos.ClusterRepo.SaveNodes` | internal/data/cluster.go:586-615 | nodes are upserted with the cluster's key, new ones numbered, missing rows deleted |
| `ClusterRepos.ClusterRepo.SaveDisks` | internal/data/cluster.go:680-714 | disks get the key of their node, also of one inserted in this call, and missing rows are deleted |
| `ClusterRepos.ClusterRepo.Save` | internal/data/cluster.go:381-415 | all tables become as specified and of the clusters only the one row is written, every given column and no other, or a failed statement leaves the database unchanged; either way the memory changes in owners and keys handed out only, distinct keys stay so, and it can be saved again |
| `ClusterRepos.ClusterRepo.Get` | internal/data/cluster.go:417-474 | the loaded cluster has exactly the stored rows, disks grouped under their nodes |
| `ClusterRepoFacts.SaveOnce` | internal/data/cluster.go:381-415 | the cluster row is missing after a save exactly if it was or this save failed after inserting it; without faults a first save does so exactly if blank keys do not fit |
| `ClusterRepoFacts.SaveRepeatedly` | internal/data/cluster.go:381-474 | over any number of saves of a new cluster: the row is missing exactly if a save failed after inserting it; the children are committed all the same and no load finds the cluster; otherwise loading after a good save gives it back |
| `ClusterRepoFacts.SaveIsExact` | internal/data/cluster.go:381-415 | after commit the cluster's rows in the five child tables are exactly those in memory, if keys given were distinct |
| `ClusterRepoFacts.SaveOwnsAndPoints` | internal/data/cluster.go:381-415 | a save makes all of the memory the cluster's own and every disk point to its node |
| `ClusterRepoFacts.OthersKeepTheirRows` | internal/data/cluster.go:555-714 | other clusters keep all their rows exactly when no saved key is one of theirs |
| `ClusterRepoFacts.DisksPointToNodes` | internal/data/cluster.go:680-714 | after any save each of the cluster's disk rows points to a node row of the same cluster, also to one inserted in it |
| `ClusterRepoFacts.LoadAfterSave` | internal/data/cluster.go:381-474 | loading after a save rebuilds the same nodes, each with its disks, and the same lists |
| `ClusterRepoFacts.ClusterRowAfterSave` | internal/data/cluster.go:388-399 | the cluster row after a save, zero values not overwriting |
| `ClusterRepoFacts.TwoBlankDisksDoNotFit` | internal/data/cluster.go:680-714 | two disks with blank keys can not both be inserted |
| `ClusterRepoFacts.InitialCloudNodesDoNotFit` | internal/biz/cluster.go:1159-1190 | three new cloud nodes, two of them with a system disk, run into that, so their first save fails |
| `Store.OwnRowsAreMemory` | internal/data/cluster.go:555-584 | after upsert and deletion of missing rows the owner's rows are the given ones |
| `Store.OthersUnchangedIff` | internal/data/cluster.go:555-584 | other owners' rows are unchanged exactly when no given key is theirs |
| `Store.ReconcileTwice` | internal/data/cluster.go:555-584 | doing it again changes nothing |
| `WorkflowRepos.WorkflowRepo.SaveWorkflow` | internal/data/service.go:373-437 | steps and tasks are saved with their keys or fresh ones and unkept rows deleted, or nothing changes; what was saved can be saved again |
| `WorkflowRepos.SaveWorkflowIsExact` | internal/data/service.go:373-437 | after commit the workflow's rows are exactly the steps and tasks in memory, tasks under their steps, if keys given were distinct |
| `EventQueue.MutualExclusion` | internal/data/cluster.go:163-188 | in every reachable state at most one handler per positive cluster id runs |
| `EventQueue.SameMutexForever` | internal/data/cluster.go:136-149 | an id keeps its mutex |
| `EventQueue.LocksAreReleased` | internal/data/cluster.go:172-186 | only a consumer between lock and unlock holds a mutex, and it unlocks the one it locked, after an error too |
| `EventQueue.HolderCanStep` | internal/data/cluster.go:172-186 | a holder for a positive id can always go on to the release |
| `EventQueue.StopsForAReason` | internal/data/cluster.go:163-188 | in every run a stopped consumer stopped while idle, or after an event whose handler failed |
| `EventQueue.ErrorStopsForGood` | internal/data/cluster.go:180-186 | a consumer whose handler failed takes nothing more |
| `EventQueue.GoesOn` | internal/data/cluster.go:180-186 | after an event without error the consumer can unlock and take the next event of the queue |
| `EventQueue.OneRound` | internal/data/cluster.go:163-188 | an idle consumer can take the first event, if nobody works on its id, and handle it: idle again after success, stopped after an error, the mutex free |
| `EventQueue.EventsConserved` | internal/data/cluster.go:151-188 | accepted events are handled, in hand or queued, each once and taken in order; the queue stays within 1024 |
| `EventQueue.SingleConsumerIsFifo` | internal/data/cluster.go:163-188 | with one consumer accepted = handled ++ in hand ++ queued |
| `Workflows.GetFirstStep` | internal/biz/workflow.go:206-217 | the first of the steps of least order |
| `Workflows.GetNextStep` | internal/biz/workflow.go:219-232 | the first of the steps of least greater order |
| `Workflows.GetFirstTask` | internal/biz/workflow.go:234-245 | the first of the tasks of least order |
| `Workflows.GetNextTask` | internal/biz/workflow.go:247-260 | the first of the tasks of least greater order |
| `Workflows.NextOfIsLeast` | internal/biz/workflow.go:206-260 | the item found has a greater order than the last and no item lies between |
| `Workflows.Visit` | internal/biz/workflow.go:206-260 | the nested iteration ends and visits the chains of steps and tasks |
| `Workflows.ChainIsSortIff` | internal/biz/workflow.go:206-260 | iteration gives the sorted list exactly when orders are distinct |
| `Workflows.GetAllTasksByOrder` | internal/biz/workflow.go:263-280 | the tasks of the steps sorted by order, each step's tasks sorted |
| `Workflows.VisitIsFlatteningIff` | internal/biz/workflow.go:206-280 | for any orders: the iteration visits exactly that sequence if and only if no step holds two tasks of equal order and a step of an order met before holds none |
| `Workflows.VisitIsSortedFlattening` | internal/biz/workflow.go:206-280 | with distinct orders the iteration visits exactly that sequence |
| `Workflows.AllTasksKept` | internal/biz/workflow.go:263-280 | for any orders the sequence is a permutation of all tasks |
| `Workflows.EqualOrdersSkip` | internal/biz/workflow.go:247-260 | of two tasks of equal order in a step the second is never visited, though listed |
| `Workflows.EqualStepOrdersSkip` | internal/biz/workflow.go:219-232 | of two steps of equal order the second is never visited, though its tasks are listed |
| `Labels.LablesToMap` | internal/biz/biz.go:52-64 | the map of the pieces that hold exactly one equals sign, later ones winning |
| `Labels.MapToLables` | internal/biz/biz.go:66-75 | an encoding of the map in some order of its keys |
| `Labels.LabelsRoundTrip` | internal/biz/biz.go:52-75 | for every order, parsing the encoding gives the map back exactly when no key or value holds a comma or equals sign |
| `Labels.Service.SetBaseLables` | internal/biz/service.go:445-461 | base labels win and other parsed labels stay, exactly when the names are clean |
| `Labels.BaseLabelsRest` | internal/biz/service.go:445-461 | with clean names a second call in the same context changes no label |
| `IpRange.NumberRoundTrip` | utils/utils.go:139-166 | from number to dotted text and back is the identity |
| `IpRange.TextRoundTrip` | utils/utils.go:139-166 | from text to number and back is the identity exactly on canonical addresses |
| `IpRange.RangeIps` | utils/utils.go:122-137 | the addresses from start to end |
| `IpRange.RangeListsEachOnce` | utils/utils.go:122-137 | an address is in that list exactly when it is canonical and its number in the range; the numbers grow strictly, so none is listed twice |

## Left out

- IpRange.RangeIps: an end of 255.255.255.255 is excluded, since the 32-bit counter wraps and the source never ends; SetBareMetalNode and HandleClusterEvent carry the same precondition.
- Cidr.GenerateSubnets: log2 is exact here; the source's floating-point log2 may differ above some 2^48 blocks.
- Lifecycle.ClusterUsecase.GetNodesSystemInfo: on success it drops an arbitrary set of nodes; which nodes the bare-metal loop drops, deleting from the slice it ranges over, is not modelled.
- Lifecycle.ClusterUsecase.HandleClusterEvent: cloud resources and zones are not part of the lifecycle state; the calls that change them are single outcomes.
- Clusters.Cluster.SetBareMetalNode: nodes are values with an identity key in a list; aliasing of node pointers is not captured.
- ClusterRepoFacts.ClusterRowAfterSave: scalar columns of a cluster are only merged, because struct updates skip zero values; no round trip of them holds.
- ClusterRepos.ClusterRepo.SaveTable: one generic table save stands for the three alike source functions for groups, cloud resources and securities; statements of the database library are outcomes, and automatic keys are never reused.
- AwsNetworks.DeleteEach: the calls that clear listeners, rules, associations and routes before a delete are one outcome.
- AwsProvision.CreateSubnets: no liveness is claimed, because stale subnets stay recorded.
- AliNetworks.CreateNetwork: the second run is quiet given faithful, order-stable listings, no change by others in between, and a registry whose subnets have distinct references and whose private tables have distinct zones; a failed call is taken to have had no effect.
- AwsBalancer.ManagePorts: creation of the balancer itself and the registration of master nodes are one outcome; listings are complete, though the source reads only one page of them. How the service answers a create with the settings of an existing object, and a delete of a group in use, is a parameter; a name or port taken with other settings is taken to be refused, and an ARN never to be given twice.
- SecurityGroups.ManageAwsRules: a rule that is there is taken to be refused; adopting or creating the group itself, and listing limits, are not modelled.
- AliRules.ManageAliRules: as above; rules of both directions appear in one listing.
- EventQueue.MutualExclusion: cancelling is a consumer stopping while idle; a panic in the handler is not modelled; ids that are not positive are outside the claim, as the source never locks them jointly.
- Texts of CIDRs: a range is what the standard parser makes of it, IPv4-mapped IPv6 texts are not told apart, and the text kept in a subnet's value is not modelled.
- Tags: decoded tags are a record of name, access and zone with one kind of value each.
- Letters: upper and lower case are those of ASCII.
- Waiting: sleeps, waiters and polling loops are a ready-or-failed outcome; what was created is in the next listing.
- AwsBalancer.PublicPorts: port numbers are unbounded here; a range up to the largest 32-bit number would never end.
- Ali network deletion: it drops registry entries after failed deletes, so no crash consistency holds.
- AWS gateways and route tables, and Ali load balancers: the same diff pattern as the modelled engines.
- Services, users, workspaces and apps: name-keyed saves of the same pattern; status aggregation over steps and tasks; name validation; the autoscaler.
- SDK, SSH, Kubernetes, Kafka, metrics and HTTP calls, generated code, authentication, and tables of instance types.
