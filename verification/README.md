# Verification of decco

decco is a Kubernetes operator. Its space controller watches Space resources and turns each
into a namespace with certificates, permissions and a private ingress controller; for every
active space it starts an app controller, which watches the App resources of that namespace
and compiles each into services, ingresses, TLS side-cars and a workload.

This project models that machinery in Dafny and proves what it is meant to guarantee. Check it
with `dafny verify dfyconfig.toml`.

## How it is organised

**The list/watch loop.** `ServerHistory` is the API server's side: a log of changes with
revisions. `WatchSpec` gives the loop as a machine that reacts to one environment move at a
time; `WatchLoop` is the code, nested loops over a mutable map, proved to drive the machine for
every script of answers; `WatchLaws` says what happens at each interaction of any run;
`WatchSafety` proves life cycles (for any server) and agreement (for a well-behaved one). Other clients may write before every answer; lists, watches and streams may
fail, close or be resumed at any point.

**Creation.** `Creation` is one process of the protocol that apps and spaces share: a phase
persisted around a many-step creation. `CreationSafety` adds the API server, which accepts status
updates only at the latest resource version, with lost replies, crashes, stale copies, edits of
the specification and racing processes. `AppRuntime` and `SpaceRuntime` are the two runtimes as
classes, each proved to be a process of that protocol; `SpacePlan` has the steps that create a
space, `SpaceSafety` what becomes of its certificates and what Active says.

**The compiler.** `ApiTypes`, `Decimal`, `Stunnel` and `Generate` translate an App;
`Allocation` proves when that succeeds and what is numbered how; `Routing`, `PortPlanning`,
`FrontDoor` and `Workloads` give the output a meaning, connections followed through ingress,
service, side-car and port, and prove that the specification's meaning is preserved. `PrivateIngress` applies
this to the App that a space makes for its own ingress controller.

**Ownership and cleanup.** `Ownership` has the goroutines that start, stop and outlive app
controllers; `Cluster`, `References`, `Gc` and `Teardown` the objects of a namespace, their names
and their removal; `Dns`, `EndpointDns` and `Hostnames` the records and host names. `Departures`
shows, at one concrete input each, where the code departs from its intent.

## What is assumed

- The API server is well behaved (`WatchSafety.Answers`): a list is the collection at its own
  revision, a stream sends the changes after the requested revision in order, a bookmark carries
  the position of the stream. Only the agreement results need this.
- Watch loops identify objects by bare name. No two live objects of a watched collection may
  share one (`ServerHistory.NeverShared`): true of the apps of one namespace, and required of
  spaces across namespaces, where a second space of the same name is refused
  (`WatchSafety.DeliveryRefusedIffNamesCollide`).
- When the resource definition has just been created, nothing is registered yet
  (`WatchSafety.FreshOnlyWhenEmpty`); `FreshDefinitionAgreesIffEmpty` shows that this is needed.
- Other clients edit specifications at will but do not write a phase, and an object created anew
  starts without one.
- Routing holds for apps whose endpoint names are distinct, whose own containers do not set the
  variable a side-car listens by, whose volumes do not bear side-car names, and whose fixed
  ports are distinct and off the automatic range (`Routing.Routable`, `PortPlanning.Planned`,
  `PlainVolumes`). All of these can be read off the App.
- While one space is being created nobody else writes the two namespaces' secrets.

## Where the code departs from its documentation or intent

Each of these has an exact condition, proved for all inputs, and a concrete input in `Departures`.

| departure | exactly when | at an input |
|---|---|---|
| `AddStunnelToPod` is documented as mutating the pod (pkg/k8sutil/stunnel.go:110) but drops the slices that `InsertStunnel` returns, so TLS is not terminated | `PortPlanning.CodeRoutesIffNoTls` | `SidecarIsLostSomewhere` |
| the ingress of a metrics endpoint with a URL path names port 443 in a space that encrypts HTTP, although its service keeps the endpoint's port | `PortPlanning.RoutingPreservedIff` | `MetricsIngressIsMispointed` |
| a role and binding made under a preset service account's name are deleted under the app's name, and so stay behind | `Teardown.DeleteUndoesCreateIff` | `RoleIsLeftBehind` |
| an error in creating the ingress controller's role binding is overwritten (pkg/space/space.go:561-582), so Active does not imply that step | `SpaceSafety.ActiveMeansEveryStepIff` | `RefusedRoleBindingStoresActive` |
| a space that names one secret for HTTP and for TCP can never become Active | `SpaceSafety.CanCompleteIff` | `SharedSecretNeverCompletes` |
| reconciliation keeps the old handle of an object deleted and created again between two lists | `WatchSafety.ReplayRetainsIff` | `OldHandleIsKept` |
| spaces of one name in different namespaces are taken for one | `WatchSafety.DeliveryRefusedIffNamesCollide` | `NamesCollide` |
| a resource definition created anew is not reconciled | `WatchSafety.FreshDefinitionAgreesIffEmpty` | `FreshDefinitionBreaksAgreement` |
| a DNS record is made for an endpoint's plain name even if its SNI host differs | `Hostnames.RecordNamesTheHostIff` | `RecordMissesTheHost` |
| of several record sets of a name only the first is ever removed | `Dns.SuccessSettlesIff` | `SecondRecordSetStays` |

`Stunnel.AddStunnelToPod` and `Generate.GenerateResources` follow the code as written.
`Compile(.., keepSidecars)` has both readings of `AddStunnelToPod`: with the slices stored back
routing is preserved.

## Model

| member | source | states |
|---|---|---|
| WatchSafety.EveryRunAgrees | pkg/watcher/watcher.go:87-137 | for every interleaving of other clients' writes with lists, streams, closures, resumed and failed requests of a well-behaved server, `itemMap` holds exactly the names alive at the revision consumed so far, the changes consumed since the last resync are consecutive (none skipped, none repeated), and no run ends in an "unsafe state" error |
| WatchSafety.ExitsOnlyForCause | pkg/watcher/watcher.go:87-137 | against a well-behaved server Run ends only at a step where a watch request fails or is rejected, or an open stream breaks, delivers a status object or meets the stop signal; failed lists, closed streams and soft restarts never end it |
| WatchSafety.EveryRunKeepsLifecycles | pkg/watcher/watcher.go:87-115 | whatever the server does, every managed item is told Init, then Updates, then at most one Delete; when `Run` is left, exactly the items still registered have been told Stop, once, as their last call |
| WatchSafety.NoCallAfterTheLast | pkg/watcher/watcher.go:233-268 | no continuation of a run makes another call on an item after its Delete or its Stop |
| WatchSafety.ReconcileRefinesReplay | pkg/watcher/watcher.go:325-356 | from any map that agrees with revision a, reconciling with the list at revision b registers the same names as handing every change in between to `handleEvent`, none of which is refused |
| WatchSafety.ReplayRetainsIff | pkg/watcher/watcher.go:325-356 | reconciliation keeps the handle of every name still alive; replay keeps it exactly if the name was, in addition, not deleted in between |
| WatchSafety.DeliveryRefusedIffNamesCollide | pkg/watcher/watcher.go:233-268 | delivering the next change of a proper history is refused exactly if it makes two live objects share a name, and otherwise carries the agreement on by one revision |
| WatchSafety.FreshDefinitionAgreesIffEmpty | pkg/watcher/watcher.go:306-321 | the branch of `resync` that finds the definition newly created restores agreement exactly if nothing was registered |
| WatchSafety.ResumingAtADeletedObjectFails | pkg/watcher/watcher.go:218-227 | the version carried by a DELETED event is older than the deletion, and a watch resumed there would be refused: the reason for the soft restart |
| WatchSafety.EverySweepSeesTheConsumedRevision | pkg/watcher/watcher.go:119-121 | each time `PeriodicTask` runs, it is shown exactly the names alive at the revision that the loop has consumed at that step |
| WatchLaws.SweepsBeforeEveryRequest | pkg/watcher/watcher.go:119-121 | at every interaction of every run: `PeriodicTask` is shown the registered names before each watch request, whatever becomes of it, and at no other time |
| WatchLaws.ExitsIff | pkg/watcher/watcher.go:117-229 | Run ends with an error exactly if that error's own cause occurs at some interaction: failed or rejected request, broken stream, status object, stop signal on an open stream, or an event that does not fit the map |
| WatchLaws.EventReachesItsItem | pkg/watcher/watcher.go:233-268 | an accepted event reaches exactly the item registered under its name: ADDED makes and initialises it, MODIFIED tells it Update, DELETED tells it Delete and forgets the name; no other item is told anything |
| WatchLaws.ListReachesItems | pkg/watcher/watcher.go:325-356 | a list tells exactly the items no longer listed Delete, leaves the listed ones alone, and makes one item for each new name |
| WatchLaws.ResumesWhereItGotTo | pkg/watcher/watcher.go:218-227 | a closed stream is resumed at the version of its last event (or that it was opened with), without a list; a resync follows exactly if its last event was a deletion or bore no version |
| WatchLaws.ResyncOtherwise | pkg/watcher/watcher.go:306-321 | without a list nothing changes: it is tried again, or, the definition being new, watched from "0" |
| WatchSafety.NextKeepsInv | pkg/watcher/watcher.go:165-268 | one reaction of the loop to a well-behaved server keeps the agreement, the position of the stream, and the resume version in step |
| WatchSafety.StepKeepsLifecycles | pkg/watcher/watcher.go:87-137 | one reaction of the loop, to any server, keeps the life cycle of every item |
| WatchSafety.CallsOnlyGrow | pkg/watcher/watcher.go:233-268 | the calls made on an item are never taken back: earlier traces are prefixes of later ones |
| WatchSafety.HaltEndsLifecycles | pkg/watcher/watcher.go:91-97 | the deferred loop turns every open life into one ended by Stop and touches no other |
| WatchSafety.DropKeepsLifecycles | pkg/watcher/watcher.go:337-347 | forgetting names while telling their items Delete ends exactly those lives |
| WatchSafety.ReconcileKeys | pkg/watcher/watcher.go:325-356 | after reconciliation the registered names are exactly the listed ones, duplicates in the list notwithstanding |
| WatchSafety.FeedAgrees | pkg/watcher/watcher.go:233-268 | replaying any stretch of a proper history is never refused and ends in agreement with its end |
| WatchLoop.WatchLoop.Run | pkg/watcher/watcher.go:87-115 | for every script of environment answers the nested loops leave the map, the calls and the sweeps exactly as the machine `WatchSpec.Exec` does |
| WatchLoop.WatchLoop.Watch | pkg/watcher/watcher.go:117-137 | the watch loop follows the machine from opening to its outcome: next version, failure, or end of observation |
| WatchLoop.WatchLoop.ProcessWatchResponse | pkg/watcher/watcher.go:165-229 | reading one stream follows the machine, including the empty version after a DELETED event |
| WatchLoop.WatchLoop.HandleEvent | pkg/watcher/watcher.go:233-268 | succeeds exactly if the machine does not refuse, with the machine's map and calls; a refusal changes nothing |
| WatchLoop.WatchLoop.ReconcileItems | pkg/watcher/watcher.go:325-356 | both loops, in whatever order the map is walked, yield the machine's `Reconcile` |
| WatchLoop.WatchLoop.DeleteUnlisted | pkg/watcher/watcher.go:337-347 | the first loop, in whatever order the map is walked, is the machine's `Prune` |
| WatchLoop.WatchLoop.InitUnknown | pkg/watcher/watcher.go:348-353 | the second loop is the machine's `Admit` |
| WatchLoop.WatchLoop.StopAll | pkg/watcher/watcher.go:91-97 | stops each registered item once, in whatever order |
| WatchLoop.WatchLoop.constructor | pkg/watcher/watcher.go:74-85 | starts with an empty map |
| ServerHistory.OneNamespaceNeverShares | pkg/appcontroller/appcontroller.go:145-158 | the apps of one namespace never share a name, so that the watch loop's use of bare names is safe for them |
| CreationSafety.CreatedAtMostOnce | pkg/app/app.go:156-238 | over any run of crashes, restarts, lost replies, edits and racing controllers at most one process calls `internalCreate` for one object |
| CreationSafety.StoredPhaseNeverFalls | pkg/app/app.go:135-211 | between any two versions of one object the stored phase does not fall in None < Creating < Active < Failed |
| CreationSafety.StoredActiveMeansMade | pkg/app/app.go:193-238 | an Active version goes back to the one that first was, and that one carries exactly the specification which a process had read, found valid, and worked through the plan of, every request succeeding except those whose error the code drops |
| CreationSafety.AloneStoresActive | pkg/app/app.go:193-238 | left alone, a process stores Active for every valid specification whose resources can be generated |
| CreationSafety.AloneStoresFailed | pkg/app/app.go:193-211 | left alone, a process one of whose tasks fails stores Failed after Creating, with no task requested after it |
| CreationSafety.UngeneratedStoresFailed | pkg/app/app.go:193-211 | and likewise where the resources cannot be generated |
| CreationSafety.UnfinishedIsFailed | pkg/app/app.go:44-74 | in any state of the protocol a process that finds an object in phase Creating, or an invalid specification, stores Failed with its first update |
| CreationSafety.MemoryActiveMeansMade | pkg/spacecontroller/spacecontroller.go:173-187 | a runtime whose in-memory phase is Active (the condition for starting an app controller) belongs to an object that was stored as Active and made so for the specification stored with it |
| Creation.CreationOutcomeIff | pkg/app/app.go:44-238 | a process that is answered throughout ends knowing Active to be stored exactly if it was before (and still may be), or the phase was None, the specification is valid, the resources can be generated and every request that must succeed does |
| Creation.WorkOutcomeIff | pkg/app/app.go:215-238 | from any point inside `internalCreate`: Active gets stored exactly if all remaining requests that must succeed do |
| Creation.FailedOutcomeIff | pkg/app/app.go:44-238 | an answered process knows Failed to be stored in the end exactly if it was before or it gives up and that update is granted: on an invalid specification or a phase found Creating, a refused Creating update, resources that cannot be generated, a task that fails, a refused Active update; in memory the phase is Failed in exactly these cases, granted or not |
| Creation.WorkOutcome | pkg/app/app.go:215-238 | from any point inside `internalCreate` to the end: which tasks are requested (up to the first failure that counts, none after it), and what is stored and remembered |
| CreationSafety.NextKeepsInv | pkg/app/app.go:44-74 | every act of a client, a new process or a running process keeps the protocol's invariant |
| CreationSafety.PutKeepsInv | pkg/app/app.go:135-152 | a status update, accepted only at the latest version, with its reply possibly lost, keeps the invariant |
| CreationSafety.SpawnKeepsInv | pkg/app/app.go:44-60 | materialising a runtime from any version, however stale, keeps the invariant |
| AppRuntime.New | pkg/app/app.go:44-74 | for every sequence of API answers the runtime goes through exactly the steps of a process of `Creation`, to the end unless it crashes |
| AppRuntime.AppRuntime.Create | pkg/app/app.go:193-211 | Creating is stored before, Active only after `internalCreate`; each error leads to the Failed path |
| AppRuntime.AppRuntime.UpdateCRStatus | pkg/app/app.go:135-152 | no request if the statuses agree; otherwise one, of the phase that the protocol calls for; on success the copy takes the new status and version, on error it is unchanged |
| AppRuntime.AppRuntime.InternalCreate | pkg/app/app.go:215-238 | success means every task of the plan was carried out in order; the first failure ends it |
| AppRuntime.AppRuntime.ConfigureDns | pkg/app/app.go:303-311 | the DNS tasks follow the endpoints that ask for a record, in order |
| AppRuntime.AppRuntime.Perform | pkg/app/app.go:224-234 | the request of the plan that is due, and no other; its failure gives up the creation |
| AppRuntime.ActiveAppIsFullyCreated | pkg/app/app.go:193-238 | an app stored as Active goes back to the version that first was, and for the specification in that very version one process generated the resources, wrote every one of them and configured every DNS record |
| AppRuntime.PlanMustSucceed | pkg/app/app.go:215-238 | no task of an app's plan may fail unnoticed |
| AppRuntime.PlanIs | pkg/app/app.go:215-238 | an app's plan is one request for each generated object, that object, in order, then one DNS record for each endpoint that asks for one, in order; nothing if its resources cannot be generated |
| SpaceSafety.SecretsConserved | pkg/space/space.go:186-236 | after every step of `internalCreate`, the last one possibly failed or left unanswered (and so after a crash anywhere), each secret is still in the source or the target namespace with its data, for all delete-after-copy flags and even if both secret names coincide |
| SpaceSafety.DoConserves | pkg/space/space.go:726-774 | one request conserves the secrets, a deletion provided that the copy is there |
| SpaceSafety.DeleteFollowsCopy | pkg/space/space.go:204-217 | each deletion directly follows the copy it depends on |
| SpaceSafety.CanCompleteIff | pkg/space/space.go:186-236 | a space can be created, all requests being answered, exactly if its namespace does not exist and its certificates do, under different names; with one name for both it never becomes Active |
| SpaceSafety.ActiveSpaceIsFullyCreated | pkg/space/space.go:164-182 | a space stored as Active goes back to the version that first was, and every step that the specification in that very version asks for was done by one process, except perhaps the one whose error is overwritten |
| SpaceSafety.ActiveMeansEveryStepIff | pkg/space/space.go:560-582 | for a valid specification, every step of every run that stores Active succeeded exactly if the space has no private ingress controller |
| SpaceSafety.RefusedRoleBindingGoesUnnoticed | pkg/space/space.go:560-582 | for every valid and creatable space with an ingress controller: the role binding is refused, `internalCreate` returns no error, and Active is stored |
| SpaceSafety.AfterReflects | pkg/space/space.go:186-236 | what a successful prefix of the plan leaves in the source and target namespaces |
| SpaceSafety.PlanOrder | pkg/space/space.go:186-236 | which steps precede which in the plan, for all settings of the space |
| SpacePlan.PlanIs | pkg/space/space.go:186-236 | the plan holds exactly the steps that the space's settings ask for, each once and in this order: every deletion, network policy, permissions, default backend, controller and DNS step by its own flag |
| SpaceSafety.CreatedSpaceHoldsItsCertificates | pkg/space/space.go:186-236 | whenever `internalCreate` succeeds, the new namespace holds exactly the certificates asked for, with the data they had, and the source has lost exactly those to be deleted |
| SpaceRuntime.New | pkg/space/space.go:55-81 | for all answers of the API server the runtime goes through exactly the steps of a process of `Creation`, to the end unless it crashes |
| SpaceRuntime.StepsReact | pkg/space/space.go:164-182 | `internalCreate` takes a process of `Creation` through the plan, to the first failure that is not overwritten |
| SpaceRuntime.SpaceRuntime.Create | pkg/space/space.go:164-182 | Creating is stored before, Active only after `internalCreate`; each error leads to the Failed path |
| SpaceRuntime.SpaceRuntime.Finish | pkg/space/space.go:169-182 | Creating being stored, `internalCreate` and, after it, the Active update |
| SpaceRuntime.SpaceRuntime.MarkFailed | pkg/space/space.go:70-81 | the phase becomes Failed in memory and is put to the server, once |
| SpaceRuntime.SpaceRuntime.UpdateCRStatus | pkg/space/space.go:106-122 | no request if the statuses agree; otherwise one, of the phase that the protocol calls for; on success the copy takes the new status and version, on error it is unchanged |
| SpaceRuntime.SpaceRuntime.InternalCreate | pkg/space/space.go:186-236 | makes the requests of the plan in order, goes on exactly as long as they succeed or may fail, and returns without error only after the last |
| SpaceRuntime.SpaceRuntime.Prepare | pkg/space/space.go:187-203 | certificates read, namespace, network policy and permissions made, in this order |
| SpaceRuntime.SpaceRuntime.CreatePermissions | pkg/space/space.go:240-271 | role and binding, if the space has permissions |
| SpaceRuntime.SpaceRuntime.TransferHttpCert | pkg/space/space.go:204-209 | copy, then delete if so configured |
| SpaceRuntime.SpaceRuntime.TransferTcpCertAndCa | pkg/space/space.go:210-217 | copy, then delete if so configured, if the space has this secret |
| SpaceRuntime.SpaceRuntime.CreateServices | pkg/space/space.go:218-235 | default backend, ingress controller and DNS, in this order |
| SpaceRuntime.SpaceRuntime.CreatePrivateIngressController | pkg/space/space.go:513-690 | its requests in order; the error of the role binding does not stop it |
| PrivateIngress.PodPortsDistinctIff | pkg/space/space.go:597-631 | in the pod compiled for the private ingress controller all listen ports, springboard ports and the controller's own 80, 443, 10254 are distinct exactly if at most 3464 TCP endpoints are configured |
| PrivateIngress.IngressListenPorts | pkg/space/space.go:597-631 | its side-car j listens on 444 + j, for the metrics endpoint and each TCP endpoint |
| PrivateIngress.IngressAppCompilesIff | pkg/space/space.go:625-683 | the App posted for it is accepted and compiles exactly if the space has a TCP certificate |
| PrivateIngress.HostsAreTheDefaults | pkg/space/space.go:597-618 | its endpoints answer to the hosts that endpoints of those names and suffix have by default in the space, and to the space's public host |
| PrivateIngress.IngressAppIsRouted | pkg/space/space.go:597-683 | connections through that App, side-cars being stored back: the controller is reached on 443 untouched, its metrics on 10254 and its HTTP port for each TCP endpoint through TLS, for distinct names and up to 9808 TCP endpoints |
| PrivateIngress.IngressAppPlanned | pkg/space/space.go:625-631 | its ports keep to a plan for up to 9808 TCP endpoints |
| PrivateIngress.IngressAppRuns | pkg/space/space.go:632-683 | one replica of the controller runs, under the account made for it and no other, with its environment and ports |
| PrivateIngress.BuildEndpoints | pkg/space/space.go:598-618 | two fixed endpoints, then one per configured name, in order |
| Generate.GenerateResources | pkg/app/generate.go:23-57 | succeeds exactly if both specifications validate and `Compile` does, with its objects in order; otherwise reports the first fault |
| Generate.GenerateEndpoints | pkg/app/generate.go:136-162 | threads the side-car index through the endpoints; objects and side-car calls are those of `AllEndpoints`, or its first error |
| Generate.CreateStunnel | pkg/app/generate.go:164-246 | service port, target port, side-car call and next index are those of `Wire`, or its error |
| References.GeneratedApartIff | pkg/app/generate.go:149-159 | no generated object has the kind and name of another, and so overwrites it, exactly if the app is a job or its endpoints have distinct names |
| Generate.AddEgresses | pkg/app/generate.go:401-439 | one side-car call per egress, numbered on from the endpoints', or the first error |
| Generate.CreateEgress | pkg/app/generate.go:401-439 | one egress: secret and destination with their defaults, or the error |
| Generate.GenerateDeploymentOrJob | pkg/app/generate.go:391-492 | the workload around the prepared pod, or the first egress error |
| Generate.GenerateRbac | pkg/app/generate.go:76-134 | account, role and binding, and the pod's service account; nothing without permissions |
| Generate.InsertDomainEnvVarIntoPod | pkg/app/generate.go:61-74 | appends the variable to every container in place |
| Allocation.CompilesIff | pkg/app/generate.go:136-246 | accepted specifications compile exactly if every endpoint port is positive (or the app is a job) and every egress has a secret and a destination; the two "no cert" errors are never reported for them |
| Allocation.SidecarsDistinct | pkg/app/generate.go:228-244 | the `AddStunnelToPod` calls carry indices 0, 1, 2, ... in order, and no two share a container name, a volume or a springboard port |
| Allocation.SidecarsNumbered | pkg/app/generate.go:401-439 | first the ingress side-cars, numbered by index, then the egress side-cars, named from 0 and indexed on |
| Allocation.SidecarOfEndpoint | pkg/app/generate.go:228-244 | the side-car of a terminating endpoint sits at the number of terminating endpoints before it |
| Allocation.AutomaticPortsDistinct | pkg/app/generate.go:231-243 | automatically assigned listen ports never clash, wrap-around of the 32-bit counter included |
| Allocation.AutomaticPortsInRange | pkg/app/generate.go:231-243 | they lie in [base, base + m) for m ingress side-cars, hence away from explicit ports outside it |
| Allocation.EndpointWiring | pkg/app/generate.go:136-162 | what is generated for an endpoint depends on the endpoints before it only through its index, and stays in the output |
| PortPlanning.SidecarsAreDue | pkg/app/generate.go:164-246 | every `AddStunnelToPod` call with every argument: one for each endpoint that needs TLS, in order, then one for each egress, in order |
| References.GeneratedAre | pkg/app/generate.go:23-57 | what is generated, by kind and name, is exactly what the app asks for |
| References.NothingElseIsGranted | pkg/app/generate.go:76-134 | every role has the app's rules, every binding binds the role to the account of its own name |
| Decimal.ParseDec | pkg/k8sutil/stunnel.go:37 | reading back the decimal form of an integer yields it |
| Decimal.DecIsNumeral | pkg/k8sutil/stunnel.go:37 | only digits, with at most a leading minus sign and no leading zeros |
| Decimal.PrefixedDecInjective | pkg/k8sutil/stunnel.go:148 | prefixed decimal names are distinct for distinct numbers |
| ApiTypes.ValidateApp | api/v1beta2/app_types.go:58-72 | passes exactly if every endpoint does, and otherwise reports the fault of the first that has one |
| ApiTypes.AppAcceptedIff | api/v1beta2/app_types.go:58-72 | exactly which app specifications are accepted, in terms of ports, certificate and client verification |
| ApiTypes.SpaceRejectedIff | api/v1beta2/space_types.go:71-82 | exactly which space specifications are rejected, and with which error |
| Stunnel.AddStunnelToPod | pkg/k8sutil/stunnel.go:102-127 | as written: the pod keeps its containers and volumes |
| Stunnel.WithSidecarsAppends | pkg/k8sutil/stunnel.go:129-199 | as documented: one container and one volume per call, in order, behind the pod's own |
| PortPlanning.RoutingPreservedIff | pkg/app/generate.go:136-389 | for an app that compiles and keeps to a port plan: whatever rule of an endpoint's ingress is followed, through service and target port into the pod, the request ends at the endpoint's port, with TLS terminated exactly if the specification calls for it, by its secret and client verification, except, exactly, at a metrics endpoint with a URL path in a space that encrypts HTTP; clients inside the cluster, which go to the service, always get there |
| PortPlanning.CodeRoutesIffNoTls | pkg/k8sutil/stunnel.go:102-127 | of the code as written, which loses the side-cars: the same request arrives exactly if the endpoint needs no TLS termination (and is not that metrics endpoint) |
| PortPlanning.PlannedPortsClear | pkg/app/generate.go:231-243 | if the ports that the specification fixes are distinct and off the automatic range, no two side-cars, ingress or egress, listen on one port, nor on a port of the app |
| PortPlanning.PlainVolumesApart | pkg/k8sutil/stunnel.go:148 | volumes of the app whose names do not start like a side-car's are never mistaken for one |
| PortPlanning.SidecarOwner | pkg/app/generate.go:149-159 | every ingress side-car was made for one terminating endpoint, and listens where that endpoint says |
| Routing.RulePreservedIff | pkg/app/generate.go:136-389 | one rule of one ingress, from host to port, given that listen ports and volume names do not clash |
| Routing.RuleWithoutSidecars | pkg/k8sutil/stunnel.go:102-127 | the same for the pod that has lost its side-cars |
| Routing.ServiceRoutingPreserved | pkg/app/generate.go:248-289 | the port an in-cluster client uses leads through the service to the endpoint's port |
| Routing.HasIngressIff | pkg/app/generate.go:291-389 | every endpoint has an ingress, except exactly a metrics endpoint without a URL path |
| Routing.TerminationMeans | pkg/app/generate.go:187-226 | whether, with which secret and with which verification TLS is terminated, against the documented fields |
| Routing.IngressBackend | pkg/k8sutil/ingress.go:32-114 | each rule names the endpoint's own service and port |
| Routing.ServiceOfEndpoint | pkg/app/generate.go:248-289 | the service found under an endpoint's name is its own |
| Routing.ReachEndpoint | pkg/k8sutil/stunnel.go:26-98 | inside the pod: where the target port of an endpoint's service leads |
| Routing.SidecarEnv | pkg/k8sutil/stunnel.go:26-98 | the accept port, destination and verification that a side-car reads from its environment, whichever extra variables follow |
| Routing.SidecarModes | pkg/k8sutil/stunnel.go:64-81 | client mode and host check are set exactly for the side-cars that ask for them |
| Routing.SidecarReads | pkg/k8sutil/stunnel.go:26-98 | all that a side-car reads from its environment, for every variable name: ports, destination, files, modes, delay, and nothing else |
| Routing.KeptPodEquipped | pkg/k8sutil/stunnel.go:129-199 | the pod with side-cars stored back holds each of them with its secret |
| FrontDoor.AnswersIffAskedFor | pkg/app/generate.go:291-389 | some ingress answers a host and path for a service exactly if some endpoint of that name asks for them |
| FrontDoor.CertificatesIff | pkg/k8sutil/ingress.go:80-98 | the certificates presented are those of the HTTP endpoints that are public, on the public host, and nothing else |
| FrontDoor.AnnotationsOf | pkg/app/generate.go:291-389 | all annotations of an ingress: TCP ingresses are always k8sniff's and otherwise carry the endpoint's own; HTTP ingresses carry the endpoint's own and decco's three, with the rewrite exactly if there is a path for it and secure backends exactly if HTTP is encrypted |
| FrontDoor.MonitoredIff | pkg/app/generate.go:248-289 | the service found for an endpoint, in full: port 443 to the side-car's listen port if TLS is needed and the endpoint's port otherwise; selector and labels; the monitoring label and the metrics port name exactly for metrics endpoints |
| FrontDoor.SniClientArrives | pkg/app/generate.go:342-346 | end to end: some rule matches a client that names an endpoint's default host in SNI, and whichever does, the client reaches that endpoint's port as the specification asks |
| FrontDoor.HttpRequestArrives | pkg/app/generate.go:291-327 | the service that a rule matching an HTTP request names belongs to an endpoint asking for that host and path, and the request arrives as that endpoint's specification asks, except exactly at a mispointed metrics endpoint |
| Workloads.EgressPreserved | pkg/app/generate.go:401-439 | a connection to an egress's local port leaves for its destination, with its secret and server verification |
| Workloads.PodHasItsPermissions | pkg/app/generate.go:76-134 | the workload runs under an account that a binding grants exactly the app's rules; the account is created unless the app names one |
| Workloads.ContainersKnowTheDomain | pkg/app/generate.go:61-74 | every container of the app reads the space's domain from the chosen variable |
| Workloads.AppKeepsItsPod | pkg/app/generate.go:23-74 | the pod that runs is the one the app describes: its containers come first with their names, ports, mounts and all of their environment, at most the domain variable being added behind; its volumes come first, unchanged; only side-cars follow |
| Workloads.SelectsOwnPodsOnlyIff | pkg/app/generate.go:440-492 | the services and the deployment of one app select the pods of another exactly if it has the same name |
| Gc.PeriodicTaskSparesExactlyTheLiving | pkg/appcontroller/appcontroller.go:188-193 | each time `PeriodicTask` runs, over any run against a well-behaved server, the generated deployments, services and ingresses it spares are exactly those of the apps alive at the revision consumed at that step |
| Gc.GeneratedIsOrphanIff | pkg/app/gc.go:35-113 | a deployment, service or ingress generated for an app is an orphan exactly if the app is unknown |
| Gc.CollectIsComplete | pkg/app/gc.go:9-114 | if every call succeeds, what remains with decco's label belongs to a known app, except services without an app label |
| Gc.FailuresHeal | pkg/app/gc.go:9-114 | a later round without failures makes good whatever failed before |
| Gc.GoesIff | pkg/app/gc.go:9-114 | spelled out over the labels, exactly which objects a collection removes; the others keep their labels and nothing appears |
| Gc.ForeignIsSpared | pkg/app/gc.go:19-114 | an object without the label decco-derived-from=app, or of another kind, stays as it is in any collection |
| Gc.Collect | pkg/app/gc.go:9-17 | removes exactly the orphans of the kinds that could be listed, apart from refused deletions |
| Gc.CollectKind | pkg/app/gc.go:19-114 | one collector: exactly its orphans, in whatever order |
| Teardown.DeleteUndoesCreateIff | pkg/app/app.go:94-131 | every object created for an app is named, with its kind, by some call of Delete exactly if it has no permissions, or no service account of its own, or one that bears its name |
| Teardown.DeletesAre | pkg/app/app.go:94-131 | exactly which objects Delete asks for, by kind and name; a service account that the app was given never is |
| Teardown.CreateThenDelete | pkg/app/app.go:94-131 | under that condition, creating and then deleting without failures leaves the namespace as it was |
| Teardown.Delete | pkg/app/app.go:94-131 | asks for exactly these deletions in order and, in between, for those of the DNS records up to the first that fails; failures are passed over |
| Teardown.TeardownPermissions | pkg/app/app.go:242-268 | binding, role and, unless preset, account, under the app's name |
| Cluster.Namespace.Delete | pkg/app/app.go:98-107 | removes one object of a kind, unless the server refuses |
| Dns.Provider.UpdateRecord | pkg/dns/dns.go:33-90 | finds the first zone of the domain and replaces or deletes the first record set of the name; errors as in `Updated` |
| Dns.EveryNameHoldsItsLastWord | pkg/dns/dns.go:33-90 | over any sequence of calls, failures and lost replies included, a name that starts with at most one record set keeps at most one: that of the last call that took effect, or none after a deletion |
| Dns.OthersUntouched | pkg/dns/dns.go:33-90 | no sequence of calls changes a record, in any zone, that none of them names |
| Dns.SuccessSettlesIff | pkg/dns/dns.go:52-73 | after reported success the name holds what was asked for exactly if it held at most one record set before |
| Dns.SucceedsIff | pkg/dns/dns.go:33-90 | success is reported exactly if provider and zone are there, list and lookup succeed, and the change is applied, or there is nothing to delete |
| Dns.FailureChangesNothing | pkg/dns/dns.go:33-90 | a reported error leaves all zones as they were, unless it was only the reply that got lost |
| EndpointDns.ConfigureDns | pkg/app/app.go:303-311 | configures the endpoints in order up to the first that fails |
| EndpointDns.ConfiguredSettles | pkg/app/app.go:272-311 | configured without error, every endpoint with a record has exactly the one that is due, or none when deleting |
| EndpointDns.OthersUntouched | pkg/app/app.go:272-311 | configuring any number of endpoints leaves the records of all other names and domains alone |
| Hostnames.DefaultHostsInjective | pkg/app/generate.go:342-346 | default SNI hosts of dot-free labels coincide only for the same endpoint, namespace and domain |
| Hostnames.RecordNamesTheHostIff | pkg/app/app.go:283-285 | the DNS record of an endpoint is its SNI host with a trailing dot exactly if it has no suffix and no other host name of its own |
| Hostnames.EndpointRecordsApart | pkg/app/app.go:283-285 | endpoints of different name, namespace or domain never share a DNS record |
| Hostnames.SpaceRecordApartIff | pkg/space/space.go:329-336 | a space's own record is an endpoint's only across two domains |
| Ownership.EveryControllerIsOwned | pkg/spacecontroller/spacecontroller.go:67-88 | however goroutines interleave with the space controller's watch loop, every started app controller belongs to a space in `itemMap`, or is stopped, or its namespace deletion was accepted; after `Run` none is in the first case |
| Ownership.EveryControllerIsOwnedMidway | pkg/spacecontroller/spacecontroller.go:67-88 | the same between the calls of one step of the watch loop: a controller neither stopped nor left to an accepted deletion belongs to a space that was in `itemMap` or has been added in the step, and has been told neither Delete nor Stop |
| Ownership.EveryInterleavingStopsOnce | pkg/appcontroller/appcontroller.go:77-109 | a stop channel is closed at most once, and exactly if the space was stopped, its namespace deletion refused or the namespace seen to go; the wait group counts the running loops, so Wait returns exactly when none runs |
| Ownership.NextKeepsInv | pkg/appcontroller/appcontroller.go:77-109 | one event of any goroutine keeps that |
| Ownership.TerminatesIffStopped | pkg/watcher/watcher.go:179-184 | a watch loop exits with ErrTerminated exactly if, on an open stream, it meets the stop signal |
| Ownership.WatcherEndsIff | pkg/appcontroller/watch_namespace.go:38-141 | the namespace watcher returns exactly if it finds the stop channel closed, before a list or while watching, or sees the namespace deleted; it reports each exactly when it saw it |
| Ownership.ControllerFollowsItsEvents | pkg/appcontroller/appcontroller.go:77-109 | over every interleaving, each started controller's loop runs until one of its watch loops meets the stop signal, no longer and no shorter; its watcher until it sees stop or deletion; its channel is closed once exactly after a stop, a refused deletion, or a namespace seen deleted |
| Ownership.AppController.Start | pkg/appcontroller/appcontroller.go:77-98 | one more in the wait group, both goroutines running |
| Ownership.AppController.Stop | pkg/appcontroller/appcontroller.go:102-109 | closes the channel unless that has been done |
| Ownership.AppController.Serve | pkg/appcontroller/appcontroller.go:81-97 | returns, and leaves the wait group, exactly with the first watch loop that meets the stop signal on an open stream; otherwise restarts |
| Ownership.AppController.ShutdownWhenNamespaceGone | pkg/appcontroller/watch_namespace.go:38-92 | returns, stopping the controller, exactly with the first turn that sees the stop channel closed or the namespace deleted |
| Ownership.AppController.WatchNamespaceInternal | pkg/appcontroller/watch_namespace.go:97-141 | the verdict of the first decisive event of a watch |
| Ownership.SpaceInfo.Delete | pkg/spacecontroller/spacecontroller.go:67-76 | stops the app controller exactly if the namespace deletion was not accepted |
| Ownership.SpaceInfo.Stop | pkg/spacecontroller/spacecontroller.go:80-88 | stops the app controller, if there is one |
| Ownership.SpaceController.InitItem | pkg/spacecontroller/spacecontroller.go:173-194 | starts an app controller exactly for an active space |
| Departures.SidecarIsLostSomewhere | pkg/k8sutil/stunnel.go:102-127 | one TCP endpoint on port 8080: its ingress leads, unencrypted, to port 443 of a pod in which no side-car listens |
| Departures.MetricsIngressIsMispointed | pkg/app/generate.go:291-327 | a metrics endpoint on port 9090 with path /m in a space that encrypts HTTP: its ingress leads nowhere |
| Departures.RoleIsLeftBehind | pkg/app/app.go:242-268 | an app with permissions and the service account "robot": its role is created and never deleted |
| Departures.SharedSecretNeverCompletes | pkg/space/space.go:204-217 | a valid space that names one existing secret for HTTP and TCP can never be created |
| Departures.RefusedRoleBindingStoresActive | pkg/space/space.go:560-582 | a run that stores Active although the role binding was refused |
| Departures.OldHandleIsKept | pkg/watcher/watcher.go:325-356 | an app deleted and created again between two lists keeps its old handle, which replay would have given up |
| Departures.NamesCollide | pkg/watcher/watcher.go:233-241 | two spaces of one name in different namespaces end Run in an "unsafe state" error |
| Departures.FreshDefinitionBreaksAgreement | pkg/watcher/watcher.go:306-321 | a well-behaved server, whose resource definition is deleted and created again while an app is registered: the next event ends Run in an "unsafe state" error |
| Departures.RecordMissesTheHost | pkg/app/app.go:283-285 | an endpoint "api" with suffix "-eu": the record is made for api, the SNI host is api-eu |
| Departures.SecondRecordSetStays | pkg/dns/dns.go:66-73 | of two record sets of one name, a successful update leaves the second beside the new one |

## Left out

- HTTP, REST, JSON decoding and watch-event framing, registration and readiness of the resource definitions, client and cluster configuration: environment answers.
- The URL of the requests that write generated objects (pkg/app/app.go:225-230): a request of the plan either succeeds or fails.
- Logging, Slack messages, sleeps and retry delays (`sleepSeconds` included), settings from environment variables, image tags and resource quantities.
- The retry library around DNS updates of a space (pkg/space/space.go:315-352): one step of the plan that succeeds or fails; repeated calls are covered by `Dns.EveryNameHoldsItsLastWord`.
- Kubernetes' own controllers, and the object generation beyond names, labels, ports, hosts, secrets, volumes, environment variables and permissions.
- Failing contents of a single response, such as a nil item with a nil error (pkg/watcher/watcher.go:186-211): the code itself says it should not happen.
- cmd/springboard, cmd/app-gen and cmd/operator: process and socket handling, thin mains.
- Generated deep-copy code: taken to yield an equal value in fresh storage, as `Stunnel.PodSpec.DeepCopy` does.
- Garbage collection of namespaces (pkg/space/gc.go): never enabled.
- Garbage collection of jobs, roles, bindings and accounts: the code has none.
- Identity of objects by UID in the watch loop, and liveness of namespace-driven shutdown: the code works by name and promises neither.
- `Update` of apps and spaces: empty in the code.
- The reason text beside a Failed phase: a constant here, the error's message in the code.
- Shell, Helm, Docker and YAML files and the end-to-end test.
- AppRuntime.AppRuntime.ConfigureDns: states which requests are made, as part of the creation plan; their effect on the zones is in `EndpointDns`.
- Ownership.EveryControllerIsOwned: safety only; a controller whose namespace deletion was accepted is not shown to stop eventually.
