# Verified model of the Power VS machine provider

A Dafny model of the OpenShift machine API provider for IBM Power VS, with proofs about it. The
provider keeps one VM per Machine object, registers the VM's internal IP with load balancer pools,
and records what it knows in the Machine object; a second controller publishes custom service
endpoints that the API client reads back. `dafny verify dfyconfig.toml` checks the whole project.

## How it is built

Each part comes as functions on values that do what the code does, branch by branch; as classes and
methods with the code's own loops and updates, proved equal to those functions; and as lemmas about
the functions, over every input, every schedule of failures and every run.

- `Calls`: how a remote call ends. A call is served, refused, or takes effect while its answer is
  lost. Each service answers from a script, and all statements are for every script.
- `LoadBalancers`, `Registration`, `Deregistration`, `Interleaving`, `LoadBalancerClient`: pool members,
  and the nested loops over load balancers, pools and members.
- `Paging`, `Listing`: the loop that follows start tokens, and the selection of load balancers by name.
- `Addresses`: address resolution from the VM, the cache and DHCP.
- `Conditions`, `ProviderId`: status conditions and provider ids.
- `Machines`, `Operations`, `Outcomes`, `Reconciler`: create, update, delete, exists and patch for one
  machine.
- `Protocol`, `RunProperties`, `Uniqueness`, `Stabilization`, `Recording`: runs of the controller. The
  state holds the VMs of each service instance, the pools, the cache, the clock, and every version of
  every Machine object ever stored. Each scope sees the VMs of one service instance only, the one that
  the copy records or else the one that a lookup gives. Steps of different machines interleave freely;
  between asking whether a VM exists and acting on the answer anything else may happen; the copy of the
  Machine object that a step works on may be any stored version, however old; and a patch sends the
  difference to that copy, field by field. Machine objects come and go at any time, also while a VM of
  the name exists, their specs may be edited, and a name may be used again while the cache and the pools
  still remember it. The controller may restart at any time and lose its cache.
- `Endpoints`: the endpoint controller and the client that reads its status.

## What the main results say

- Over any stretch of any run, a machine keeps at most one VM, in all service instances together, if and
  only if no Create makes one while one of the name is left somewhere (`AtMostOneVmExactly`). It does
  when all scopes of its checks and Creates are bound to one service instance
  (`AtMostOneVmPerMachine`). `AtMostOnePerServiceExactly` is the same for each service instance by itself;
  it holds when a Create without a recorded service instance id looks up the one its check asked
  (`AtMostOnePerService`).
- A Create that made a VM but failed afterwards is recovered by name, in the service instance of the
  scope (`ExistingVmIsFound`).
- No stored version of a Machine object refers to another machine's VM, no step of one machine touches
  another's VM, and no two machines store the same provider id.
- Registration is exact, confluent over map orders and interrupted attempts, commutes between any number
  of machines under any interleaving of their attempts, and converges: every member created is one pool fewer without the IP. Deregistration undoes it, ids
  included.
- Delete removes a VM only after the IP in the copy of the object that was read has left every pool of
  its load balancers. That this is the IP registered for the VM has an exact condition (below).
- A cached IP is at most twenty minutes old and was leased to a VM of that very machine.
- From any world of any run, however much went wrong before, and whatever other machines and the
  environment do in between: once any reconcile has got its status patch through, one check and Update
  without failures bring the stored object, the pools and the VM in line; where no VM exists, a creation
  and one such round do; and a deletion without failures leaves no cache entry, no pool member with the
  recorded IP, and no VM of the name, the latter if and only if there was at most one, in the service
  instance of its scope. Without failures means answers that are served, with a bound on how many are
  needed; nothing is assumed about how the operations themselves turn out.
- The service instance id, once stored, is never unset, and it is replaced in exactly one situation
  (below).
- Every lookup, launch, Create, Update and Delete ends exactly as stated case by case in `Outcomes`: the
  VM with the recorded id is taken while it exists, before any other of the name; a failed launch is
  recorded, and a failure before it is not; nothing is removed while a load balancer of the spec is not
  listed as active.
- The paging loop ends exactly when a call fails or no token comes up twice, and then delivers the
  concatenation of the pages.
- The published endpoints are the one sorted permutation of a valid spec, and reach the environment
  unchanged.

## Properties that do not hold, and exactly when they do

- Listing service instances over several pages: the SDK's `GetNextStart` returns a bare token where the
  paging loop expects a URL. A text without a start parameter sends the loop back to page one.
  `BareTokenRestarts` shows the endless run, `BareTokenTerminatesExactly` that only single-page
  listings end.
- At most one VM per machine fails when the id of the service instance is not stored yet and two lookups
  give different answers: `TwoVmsOfOneMachine` is a run without any stale read that ends with a VM in
  each of two service instances, `TwoVmsInOneService` one that ends with two in the same, because Exists
  and Create each do their own lookup. `CreateDuplicatesExactly` and `AtMostOneVmExactly` give the exact
  conditions. `DeleteMissesVm` is a run in which Delete reports success and leaves the VM in another
  service instance; `DeleteClearsExactly` says, of every Delete that reports success, exactly when it leaves
  no VM of the name.
- A successful Delete need not have deregistered every IP the machine ever had. It takes out the one in
  the copy it read, and only if it finds the VM; all others stay (`DeleteCleansExactly`,
  `DeletionCleansExactly`, for every IP and every set of pools). So the IP stays when the VM is gone
  already (`AbsentVmKeepsMembers`); when the last Update found no address and overwrote the recorded
  ones, in which case Delete makes no load balancer call at all (`FailedLookupKeepsMembers`); when the
  copy is stale, or the status patch of the Update that registered it did not get through
  (`DeleteLeavesIp`, a run for each); an earlier IP stays when the address changed between two Updates;
  and it stays in the pools of load balancers that were taken out of the spec in between.
  `DeleteLeavesNothingExactly` says which of the IPs ever registered go, `RegisteredIsRecordedExactly` when
  an Update leaves the IP it registered recorded, and `RecordedIpExactly` which IP is recorded at any time.
- A new member may leave the pool's port: when the pool has no address member its port is 0
  (`PortKeptExactly`, `EmptyPoolGetsPortZero`).
- A stored service instance id may be replaced: by a reconcile whose status patch gets through, on a
  copy from before the id was stored, whose lookup gives another id. `StickyExactly` shows that this is
  the only way, `ServiceIsSticky` carries it over runs, and `StaleReadLosesService` gives a run in which
  it happens.
- A stored provider id need not carry the service instance id stored beside it: such a replacement leaves
  the provider id as it was (`StaleReadLeavesProviderId`, a run). `ProviderIdCarriesExactly` is the exact
  condition over runs.
- A condition that differs from the stored one in its status alone is not stored
  (`UpdateFaithfulExactly`); none of the three conditions the code reports is of that kind
  (`LogKeepsLastReport`).
- Emptying the endpoint spec leaves the old status standing (`ReconcilePublishes`).

## Assumptions

- VM ids are not reused, in any service instance, and VMs keep their names. Listing VMs shows all of a
  service instance. No one else creates a VM with the name of a machine while its object exists. Machine
  names are unique.
- A step of one machine is not interrupted by steps of others; the environment acts between steps.
- Member ids are unique within a pool. A pool target of the type the code looks at has an address.
- Storing and reading the provider status are inverse. URL parsing and regular expressions are left
  open as functions.
- Two controller workers never handle the same machine at the same time.

## Model

| member | source | states |
|---|---|---|
| `LoadBalancerClient.ScanMembers` | pkg/actuators/machine/reconciler.go:587-598 | the scan yields the port of the last address member, 0 without one, and whether the IP is a target |
| `Registration.TargetPortIsLast` | pkg/actuators/machine/reconciler.go:587-591 | a new member's port is that of the last member with an address target |
| `LoadBalancerClient.RegisterPool` | pkg/actuators/machine/reconciler.go:579-624 | listing, scan, status check and creation for one pool equal the pool's specification, on every answer |
| `LoadBalancerClient.RegisterLb` | pkg/actuators/machine/reconciler.go:564-625 | the loop over pools, with its checks, the skipped bootstrap pool and its early exits, equals the specification |
| `LoadBalancerClient.CreateLoadBalancerPoolMember` | pkg/actuators/machine/reconciler.go:561-628 | registration over the map equals the specification for the order the map was ranged over, which is an enumeration of its keys |
| `Registration.RegisterPoolExactly` | pkg/actuators/machine/reconciler.go:583-623 | a pool changes iff it lacks the IP, was listed, its load balancer reported active and the creation took effect; a status other than active is the only cause of a requeue; when it succeeds; and how many calls are made in each case |
| `Registration.OnlyActiveBalancersChange` | pkg/actuators/machine/reconciler.go:564-571 | no change while no load balancer reports active; success only if all listed ones were active and had pools |
| `Registration.RegistrationStops` | pkg/actuators/machine/reconciler.go:563-572 | an attempt that does not succeed stops at the load balancer on which it failed, which is left alone if it is not active or has no pools |
| `Registration.PoolsStop` | pkg/actuators/machine/reconciler.go:574-624 | within a load balancer it stops at the pool on which it failed, skipping bootstrap pools |
| `Registration.RegisterExact` | pkg/actuators/machine/reconciler.go:561-628 | on every outcome only non-bootstrap pools of the listed load balancers that lacked the IP changed, each by one member on the pool's port; members created equal pools that stopped lacking the IP; success leaves none lacking |
| `Registration.RegisterMeetsIntent` | pkg/actuators/machine/reconciler.go:494-500 | a success yields the intended contents, whatever the order |
| `LoadBalancers.PlanCoversMap` | pkg/actuators/machine/reconciler.go:563 | the pools concerned do not depend on the order of ranging over the map |
| `Registration.RegistrationConfluent` | pkg/actuators/machine/reconciler.go:561-628 | any two schedules of attempts, earlier ones with partial listings included, that end in a success over all pools agree on all contents up to member ids, and with one uninterrupted run |
| `Interleaving.RegistrationsCommute` | pkg/actuators/machine/reconciler.go:561-628 | any two interleavings of the attempts of any number of machines, with failures and partial listings, in which each machine succeeds once, leave the same members on the same ports in every pool |
| `Interleaving.HasExactly` | pkg/actuators/machine/reconciler.go:561-628 | after such an interleaving a pool has exactly the IPs it had and those of the machines that belong in it |
| `Interleaving.TurnsExtend` | pkg/actuators/machine/reconciler.go:587-618 | whatever the interleaving and the failures, a pool only gains one member, on its port, for each further IP it has |
| `Registration.RegistrationConverges` | pkg/actuators/machine/reconciler.go:599-624 | attempts that each create a member number at most the pools that lacked the IP |
| `Registration.HealthyRegistrationSucceeds` | pkg/actuators/machine/reconciler.go:561-628 | an attempt that meets no failure succeeds |
| `LoadBalancerClient.DeregisterPool` | pkg/actuators/machine/reconciler.go:671-691 | the loop deleting the listed members by id equals its specification |
| `LoadBalancerClient.DeregisterLb` | pkg/actuators/machine/reconciler.go:660-692 | the loop over pools, bootstrap included, equals its specification |
| `LoadBalancerClient.DeleteLoadBalancerPoolMember` | pkg/actuators/machine/reconciler.go:657-695 | deregistration over the map equals the specification for the order the map was ranged over |
| `Deregistration.DeregisterPoolExactly` | pkg/actuators/machine/reconciler.go:671-691 | deregistration from a pool succeeds iff the listing and one deletion per member with the IP are served |
| `Deregistration.OnlyActiveBalancersCleaned` | pkg/actuators/machine/reconciler.go:660-668 | an attempt succeeds only if every load balancer was listed as active and with pools |
| `Deregistration.DeregistrationStops` | pkg/actuators/machine/reconciler.go:659-692 | an attempt that does not succeed stops at the load balancer on which it failed, which is left alone if it is not active or has no pools |
| `Deregistration.PoolsStop` | pkg/actuators/machine/reconciler.go:671-691 | within a load balancer it stops at the pool on which it failed, and no pool is skipped |
| `Deregistration.DeregisterExact` | pkg/actuators/machine/reconciler.go:657-695 | on every outcome only members with the IP left, only from the listed load balancers' pools; success leaves none |
| `Deregistration.DeregistrationRetries` | pkg/actuators/machine/reconciler.go:649-695 | after any failed or partial attempts, a success over all pools ends where one uninterrupted attempt ends |
| `Deregistration.HealthyDeregistrationSucceeds` | pkg/actuators/machine/reconciler.go:657-695 | an attempt whose calls are served succeeds; one listing per pool and one deletion per listed member are enough |
| `Deregistration.RoundTrip` | pkg/actuators/machine/reconciler.go:561-695 | register then deregister gives the original minus members with the IP, ids included; pools without the IP are restored exactly |
| `Deregistration.PortKeptExactly` | pkg/actuators/machine/reconciler.go:587-613 | a new member keeps a uniform port iff the pool has an address member or the port is 0 |
| `Deregistration.EmptyPoolGetsPortZero` | pkg/actuators/machine/reconciler.go:587-613 | registering with an empty pool yields port 0 |
| `Deregistration.PortsStayUniform` | pkg/actuators/machine/reconciler.go:587-618 | over any run of registrations and deregistrations by any machines, a pool that keeps an address member keeps its port |
| `Paging.Lister.Fetch` | pkg/actuators/machine/reconciler.go:516-533 | one call appends one page's items and returns its next address, or fails without appending |
| `Paging.PagingHelper` | pkg/utils/utils.go:25-51 | watched for any number of rounds, the loop has ended iff the transition system has halted, with the same result and items; a loop that never ends is seen running after every number of rounds |
| `Paging.TerminatesExactly` | pkg/utils/utils.go:28-49 | the loop ends iff a call fails or no token is asked for twice |
| `Paging.HaltsWithinPages` | pkg/utils/utils.go:28-49 | without a repeated token there is at most one call per page, plus one |
| `Paging.PagingConcatenates` | pkg/utils/utils.go:25-51 | success with a list after n calls iff the pages form a chain of n pages without a failing call, and the list is their concatenation |
| `Paging.BareTokenRestarts` | pkg/client/powervs_client.go:368-378 | with a next address that has no start parameter the loop stays on page one for ever, collecting it again and again |
| `Paging.BareTokenTerminatesExactly` | vendor/github.com/IBM/platform-services-go-sdk/resourcecontrollerv2/resource_controller_v2.go:4568-4577 | with such addresses a listing ends iff its first page is its last |
| `Listing.SelectExact` | pkg/actuators/machine/reconciler.go:535-558 | selection succeeds iff paging did, the list is not empty, names are distinct and all listed; keys are then the names, entries the id, pools and status of the last listed of each name |
| `Listing.GetLoadBalancers` | pkg/actuators/machine/reconciler.go:508-559 | the name map, the paging and the collection loop equal selection from what paging delivers; ended iff paging has |
| `Listing.RoundsDoNotMatter` | pkg/utils/utils.go:28-49 | once paging has ended, more rounds change nothing, and a listing without repeated tokens ends within one round per page, plus one |
| `Conditions.UpdateFaithfulExactly` | pkg/actuators/machine/utils.go:66-81 | an update takes over the new condition iff the two do not differ in status alone |
| `Conditions.LogKeepsLastReport` | pkg/actuators/machine/utils.go:44-107 | over any reports the list gains one entry, the last report stamped with the time of the last status change; other conditions stay, in order |
| `Conditions.SetConditionReports` | pkg/actuators/machine/utils.go:44-55 | on a list with at most one report, storing a report leaves exactly that report |
| `Conditions.FindProviderCondition` | pkg/actuators/machine/utils.go:57-64 | the search finds the first condition of the kind |
| `Conditions.SetProviderCondition` | pkg/actuators/machine/utils.go:44-77 | appending or updating in place equals the specification |
| `Addresses.ResolveAddresses` | pkg/actuators/machine/reconciler.go:339-467 | the loops and the store accesses equal the specification of resolution |
| `Addresses.ResolveSpec` | pkg/actuators/machine/reconciler.go:339-467 | internal DNS first; with addresses on the networks exactly those; internal IP is the first non-blank network IP, else, with no addresses at all, the unexpired cached IP, else the leased one, else empty; what the cache becomes, and when resolution fails |
| `Addresses.DhcpIpExactly` | pkg/actuators/machine/reconciler.go:397-451 | the looked-up IP is that of the first lease, at the network's first DHCP server, for the MAC of the last attachment of the network the spec refers to |
| `Addresses.NetworkIdExactly` | pkg/actuators/machine/instances.go:131-180 | a spec refers to the id it gives, the first listed network whose name equals its name, or the first whose name its compiling pattern accepts |
| `Addresses.FirstNetworkIs` | pkg/actuators/machine/instances.go:147-152 | a network is resolved to the first listed one whose name is accepted |
| `Addresses.TrimSpaceIs` | pkg/actuators/machine/reconciler.go:355-366 | trimming cuts exactly the white space at both ends |
| `Addresses.NetworkAddressesExactly` | pkg/actuators/machine/reconciler.go:353-369 | the addresses of the networks in order, for each the external before the internal one, without blank ones |
| `Addresses.InternalIpExactly` | pkg/actuators/machine/reconciler.go:697-704 | the internal IP is that of the first internal address, and empty iff there is none or that is empty |
| `Addresses.GetNetworkId` | pkg/actuators/machine/instances.go:131-180 | the network id by id, name or pattern, with all error cases |
| `Addresses.FindAttached` | pkg/actuators/machine/reconciler.go:398-404 | the loop finds the last attached network with the id |
| `Addresses.FindServerIp` | pkg/actuators/machine/reconciler.go:411-451 | the loops over servers and leases equal the specification |
| `Addresses.GetMachineInternalIp` | pkg/actuators/machine/reconciler.go:697-704 | the first internal IP, or the empty text |
| `Addresses.TtlStore.GetByKey` | vendor/k8s.io/client-go/tools/cache/expiration_cache.go:91-112 | an entry is returned only while it is not older than the lifetime, and dropped otherwise |
| `Addresses.CacheHitExactly` | pkg/actuators/machine/caching.go:9-20 | a cached IP is used iff it was looked up at most twenty minutes ago, and else dropped; other entries stay |
| `Addresses.CacheIsTransparent` | pkg/actuators/machine/reconciler.go:375-389 | resolving with the cache equals resolving without it while the lookup would give the cached IP |
| `Addresses.ResolveAgain` | pkg/actuators/machine/reconciler.go:339-467 | resolving again at once with the cache that resolving left gives the same addresses |
| `ProviderId.FormatInjective` | pkg/client/powervs_client.go:100-103 | equal provider ids have equal parts, if region, zone and service contain no slash |
| `ProviderId.FormatNamesVm` | pkg/client/powervs_client.go:100-103 | equal provider ids name the same VM, if VM ids contain no slash |
| `ProviderId.SplitFormat` | pkg/client/powervs_client.go:100-103 | after the scheme come region, zone, service instance and VM, in this order, and reading them back gives the parts |
| `ProviderId.FormatAmbiguous` | pkg/client/powervs_client.go:100-103 | without the proviso different parts give equal provider ids |
| `Endpoints.ValidateServiceEndpoints` | pkg/controllers/custom_service_endpoint_controller.go:106-124 | the loop with its tracker reports one problem per repeated name, with the first index, and one per bad URL |
| `Endpoints.NoProblemsExactly` | pkg/controllers/custom_service_endpoint_controller.go:106-142 | no problem iff names are distinct and every URL is acceptable |
| `Endpoints.ProblemsExactly` | pkg/controllers/custom_service_endpoint_controller.go:106-142 | reported are exactly the repeated names, with where they were used first, and the URLs that are not https with a host and without a path |
| `Endpoints.SortIsUnique` | pkg/controllers/custom_service_endpoint_controller.go:80-82 | with distinct names there is one sorted permutation |
| `Endpoints.LessExactly` | pkg/controllers/custom_service_endpoint_controller.go:80-82 | names are ordered by the first character in which they differ, and before their continuations |
| `Endpoints.Controller.ReconcileOnce` | pkg/controllers/custom_service_endpoint_controller.go:52-104 | one reconcile equals the specification and writes at most once |
| `Endpoints.ReconcilePublishes` | pkg/controllers/custom_service_endpoint_controller.go:64-103 | what is rejected, when nothing is to do, what each end of the write leaves, and that without failure the status is a sorted permutation of the spec iff the spec is not empty or nothing was published |
| `Endpoints.StatusIsCanonical` | pkg/controllers/custom_service_endpoint_controller.go:76-102 | the status is the same for every order of the spec and every sorting algorithm, and a second reconcile writes nothing |
| `Endpoints.ResolveEndpoints` | pkg/client/powervs_client.go:473-501 | the loop building the map equals its specification, with the host alone for Power |
| `Endpoints.ResolveExactly` | pkg/client/powervs_client.go:473-501 | resolution fails iff a Power URL does not parse; otherwise each name has the URL of its last endpoint, the host alone for Power |
| `Endpoints.Environment.SetCustomEndpoints` | pkg/client/powervs_client.go:503-523 | the loop setting the environment equals its specification |
| `Endpoints.SetEnvStops` | pkg/client/powervs_client.go:503-523 | setting the environment fails iff a known key has a value that cannot be set, and stops there |
| `Endpoints.EnvNameExactly` | pkg/client/powervs_client.go:79-83 | the three known keys and their variables |
| `Endpoints.SpecReachesEnvironment` | pkg/client/powervs_client.go:473-549 | after a reconcile of a valid spec, under any key order, IAM and ResourceController put their URL and Power its host into their three named variables, and no other variable changes |
| `Operations.LookupIsSound` | pkg/actuators/machine/reconciler.go:323-337 | lookup by id then name changes nothing, finds only VMs of the machine's name, and says not found only when there is none |
| `Operations.LookupIsComplete` | pkg/client/powervs_client.go:295-307 | a lookup none of whose calls fails finds a VM iff one of the name exists |
| `Outcomes.RecordedVmIsFound` | pkg/actuators/machine/reconciler.go:326-333 | while the VM with the recorded id exists and the call is served, the lookup gives that VM, with one call |
| `Outcomes.LookupFallsBack` | pkg/actuators/machine/reconciler.go:326-336 | without an id, or when the call for it fails, the lookup is by name |
| `Outcomes.NamedVmIsFound` | pkg/client/powervs_client.go:295-307 | the lookup by name lists the VMs and reads the first of the name, with every failure |
| `Operations.ExistsIsSound` | pkg/actuators/machine/reconciler.go:190-215 | absent only with no VM of the name and outside the twenty second window; present only with one |
| `Outcomes.ExistsExactly` | pkg/actuators/machine/reconciler.go:190-215 | present iff found; absent iff not found and not within twenty seconds of the last update of an object with a provider id |
| `Outcomes.ScopeExactly` | pkg/actuators/machine/machine_scope.go:75-95 | a scope needs a client and a service instance id, the recorded one before the one looked up |
| `Operations.CreateEffect` | pkg/actuators/machine/reconciler.go:43-82 | Create removes at most a stopped VM of the name, then adds at most one of the name with a new id, and records no other id |
| `Operations.RemainingIs` | pkg/actuators/machine/instances.go:22-36 | the removal of stopped VMs takes only a stopped VM of the name, and nothing when no VM of the name exists |
| `Outcomes.RemoveStoppedExactly` | pkg/actuators/machine/instances.go:22-36 | the first VM of the name is removed iff it is shut off and the deletion takes effect; what is reported in each case |
| `Outcomes.LaunchExactly` | pkg/actuators/machine/instances.go:38-101 | a launch succeeds iff the spec resolves, the creation is served with a new id that is mentioned, and the VM can be read |
| `Operations.CreateDuplicatesExactly` | pkg/actuators/machine/reconciler.go:43-82 | Create keeps at most one VM of the name iff it gets no VM made or none of the name was left |
| `Operations.CreateRemovesOnlyStopped` | pkg/actuators/machine/instances.go:22-36 | in general Create removes only a stopped VM of the name, never for a control plane machine |
| `Outcomes.CreateReports` | pkg/actuators/machine/reconciler.go:43-82 | before the launch nothing is recorded; a failed launch, VM or not, clears instance id and state and stores status False with the message; a VM being built is recorded with status BUILD; success leaves the status alone |
| `Operations.HealthyCreateSucceeds` | pkg/actuators/machine/reconciler.go:43-82 | a Create whose calls are served, with or without the listing for a stopped VM, adds exactly the VM with the id handed out, and ends in success, or in a requeue while that VM is being built |
| `Operations.UpdateEffect` | pkg/actuators/machine/reconciler.go:139-187 | Update changes no VM, records only ids of VMs of the name, and forms provider ids only from the stored service instance id |
| `Outcomes.UpdateReports` | pkg/actuators/machine/reconciler.go:139-187 | an Update that found its VM fails iff the load balancers do; it records instance id and state, and status True, or BUILD for a VM being built once they are done |
| `Outcomes.EarlyUpdateFails` | pkg/actuators/machine/reconciler.go:142-160 | an Update without label, VM or stored service instance id fails and leaves all as it was |
| `Outcomes.UpdateTakesRecorded` | pkg/actuators/machine/reconciler.go:323-337 | Update records the VM with the recorded id while it exists, and its addresses |
| `Outcomes.UpdateNeedsActive` | pkg/actuators/machine/reconciler.go:564-571 | an Update that registers an IP and does not fail saw all load balancers of the spec listed as active and with pools |
| `Operations.UpdateCaches` | pkg/actuators/machine/reconciler.go:375-465 | Update caches only what DHCP just answered, under the machine's own name |
| `Operations.UpdateRegisters` | pkg/actuators/machine/reconciler.go:172-184 | Update registers exactly the IP it records with exactly the spec's load balancers, and makes no load balancer call without an IP |
| `Operations.DeleteEffect` | pkg/actuators/machine/reconciler.go:85-136 | Delete removes at most one VM, of the machine's name; success leaves no cache entry of the name |
| `Outcomes.DeleteExactly` | pkg/actuators/machine/reconciler.go:85-136 | how Delete ends for a failed lookup, for no VM and for a VM, with every end of deregistration and deletion |
| `Outcomes.DeleteTakesRecorded` | pkg/actuators/machine/reconciler.go:323-337 | Delete removes the VM with the recorded id while it exists, and no other |
| `Outcomes.DeleteNeedsActive` | pkg/actuators/machine/reconciler.go:660-668 | if a VM is gone and an IP was recorded, all load balancers of the spec were listed as active and with pools |
| `Outcomes.ApplicationNamesExactly` | pkg/actuators/machine/reconciler.go:635-641 | the load balancers concerned are the references of type Application, in their order |
| `Operations.DeleteOrdering` | pkg/actuators/machine/reconciler.go:107-127 | only members with the recorded IP leave pools, and if a VM is gone, none is left in any pool of the machine's load balancers |
| `Operations.DeleteCleansExactly` | pkg/actuators/machine/reconciler.go:97-118 | for every IP and every set of pools: a successful Delete leaves them clean of the IP iff they were clean before, not counting those of the machine's load balancers when the VM was found and the IP is the recorded one |
| `Operations.AbsentVmKeepsMembers` | pkg/actuators/machine/reconciler.go:97-105 | for a VM that is gone, with or without a recorded instance id, Delete succeeds and leaves all members |
| `Operations.FailedLookupKeepsMembers` | pkg/actuators/machine/reconciler.go:107-119 | after an Update without any address, Delete removes the VM and leaves all members |
| `Operations.DeleteRetries` | pkg/actuators/machine/reconciler.go:107-127 | after any failed deletions, listings that failed or were partial included, the one that removes the VM having seen all pools ends with those of an uninterrupted one |
| `Operations.PatchStores` | pkg/actuators/machine/machine_scope.go:111-137 | which versions are stored for every end of the two patches; each field holds what the reconcile changed since its copy, and else what others stored |
| `Protocol.StepKeepsInv` | pkg/actuators/machine/actuator.go:85-196 | every step of controller or environment keeps the naming of VMs |
| `Protocol.RunKeepsInv` | pkg/actuators/machine/actuator.go:85-196 | so does every run |
| `Uniqueness.AtMostOneVmPerMachine` | pkg/actuators/machine/machine_scope.go:75-93 | in every stretch of every run at most one VM in all service instances bears a machine's name, if its checks and Creates open scopes of one service instance and the VM it starts with, if any, is there |
| `Uniqueness.AtMostOneVmExactly` | pkg/actuators/machine/reconciler.go:43-82 | over any stretch of any run there is at most one VM throughout iff no Create makes one while one of the name is left in some service instance |
| `Uniqueness.AtMostOnePerServiceExactly` | pkg/actuators/machine/reconciler.go:43-82 | over any stretch of any run there is at most one VM per service instance and name throughout iff no Create makes one in a service instance that holds one |
| `Uniqueness.AtMostOnePerService` | pkg/actuators/machine/actuator.go:85-128 | it holds if Creates on copies without the id look up what their check asked |
| `Uniqueness.RunKeepsCleared` | pkg/actuators/machine/reconciler.go:190-215 | in every world of every run, while a Create is pending, no VM of the name is in the service instance its check asked |
| `Uniqueness.SteadyCreate` | pkg/actuators/machine/reconciler.go:43-82 | where the service instance of the scope holds no VM of the name, Create removes none and leaves at most one |
| `Uniqueness.TwoVmsOfOneMachine` | pkg/actuators/machine/machine_scope.go:79-93 | a run with two differing lookups and no stale read that ends with a VM in each of two service instances |
| `Uniqueness.TwoVmsInOneService` | pkg/actuators/machine/actuator.go:85-128 | a run in which Exists and Create look up different service instances and that ends with two VMs in one |
| `Uniqueness.DeleteMissesVm` | pkg/actuators/machine/reconciler.go:97-105 | a run in which Delete asks another service instance, reports success and leaves the VM |
| `RunProperties.StoredIdsAreOwn` | pkg/actuators/machine/reconciler.go:323-337 | in every run no stored version records the id of another machine's VM, in any service instance |
| `RunProperties.ProviderIdsAreDistinct` | pkg/actuators/machine/reconciler.go:241-270 | in every run no two machines store the same provider id |
| `RunProperties.StepsTouchOwnVms` | pkg/actuators/machine/actuator.go:85-196 | steps touch VMs of their own machine in the service instance of their scope only; Create removes only stopped ones, Delete adds none |
| `RunProperties.ExistingVmIsFound` | pkg/actuators/machine/reconciler.go:323-337 | a check without failures leads to Update, not to Create, iff the service instance of its scope holds a VM of the name, however it was lost track of |
| `RunProperties.CacheIsBoundedlyStale` | pkg/actuators/machine/caching.go:5-20 | in every run a cached IP was answered by DHCP for that machine within the lifetime, and gives the addresses of an empty cache while the lookup is unchanged |
| `RunProperties.ServiceIsSticky` | pkg/actuators/machine/machine_scope.go:75-90 | in every run the service instance id, once stored, is the same in all later versions of the object, while each step of the machine meets the condition of StickyExactly |
| `RunProperties.ProviderIdCarriesService` | pkg/actuators/machine/reconciler.go:241-270 | while each step meets the condition of StickyExactly, every provider id ever stored carries the service instance id stored beside it |
| `RunProperties.ProviderIdCarriesExactly` | pkg/actuators/machine/reconciler.go:241-270 | over any stretch of any run this holds iff each new provider id carries the stored service instance id, and a looked-up id replaces a stored one only beside no provider id, or one that carries it |
| `Recording.StaleReadLeavesProviderId` | pkg/actuators/machine/machine_scope.go:79-90 | a run in which a stale copy replaces the service instance id and leaves the provider id of the old one |
| `RunProperties.StickyExactly` | pkg/actuators/machine/machine_scope.go:75-90 | any reconcile keeps the stored id iff its status patch does not get through, the copy it read had an id, or its lookup gave the same |
| `RunProperties.StaleReadLosesService` | pkg/actuators/machine/machine_scope.go:79-90 | a run from an initial world in which a stale copy and a changed lookup replace the stored id, for any two ids |
| `RunProperties.ServiceIsRecorded` | pkg/actuators/machine/machine_scope.go:88-89 | in every run a reconcile whose status patch gets through, on whatever copy, leaves an id stored, in all versions from then on |
| `RunProperties.RunKeepsRecords` | pkg/actuators/machine/machine_scope.go:165-178 | in every run the id is never unset and the conditions of every stored version hold at most one entry, a report of the code |
| `RunProperties.DeletionIsOrdered` | pkg/actuators/machine/reconciler.go:85-136 | in every run a VM that Delete removes is the machine's own, its load balancers were found, and the IP in the copy that was read is in none of their pools |
| `RunProperties.DeletionTakesRecorded` | pkg/actuators/machine/reconciler.go:85-136 | in every run, while the VM with the id in the copy read exists in the scope's service instance, Delete removes no other |
| `RunProperties.DeletionCleansExactly` | pkg/actuators/machine/reconciler.go:85-136 | in every run, for every IP and set of pools: a successful Delete leaves them clean iff they were, not counting the machine's own pools when it found the VM and the IP is in the copy it read |
| `Recording.OnlyRegisteredJoins` | pkg/actuators/machine/reconciler.go:172-184 | what an Update step adds to pools is members for the IP that it registers, in the spec's load balancers |
| `Recording.RegisteredIsRecordedExactly` | pkg/actuators/machine/machine_scope.go:111-137 | the object records the IP an Update registered iff its status patch got through with addresses differing from the copy's, or it was recorded already |
| `Recording.RecordedIpExactly` | pkg/actuators/machine/reconciler.go:339-370 | over any stretch of any run an IP is the recorded one iff the last step that stored addresses stored it, or none did and it was recorded before |
| `Recording.DeleteLeavesNothingExactly` | pkg/actuators/machine/reconciler.go:85-136 | a successful Delete on the current version that found the VM leaves all pools clean of an IP registered at any time iff they were, not counting the pools of its load balancers if the IP is the recorded one |
| `Recording.DeleteLeavesIp` | pkg/actuators/machine/reconciler.go:107-119 | two runs in which the VM is deleted and its IP stays: on a stale copy, and after an Update whose status patch was refused |
| `Stabilization.OneRoundSettles` | pkg/actuators/machine/actuator.go:113-169 | in any run, after any reconcile whose status patch got through and anything else while the object lives, a check and an Update that meets no failure, with other steps in between, leave the object naming the VM by service, instance and provider id, holding the addresses resolved for it, with their internal IP in all its pools |
| `Stabilization.RoundSettles` | pkg/actuators/machine/reconciler.go:139-187 | one such round settles a machine whose service instance id is stored and whose VM is there |
| `Stabilization.CheckLeadsOn` | pkg/actuators/machine/reconciler.go:190-215 | after a check without failures, and any steps not about the machine, the controller goes on to Update, to Create or to wait, as the service instance and the object demand |
| `Stabilization.AbsentVmIsNoticed` | pkg/actuators/machine/reconciler.go:190-215 | a check without failures, of a machine without a VM, leads to Create iff the object had no provider id or its last update is at least twenty seconds ago |
| `Stabilization.CreationMakesVm` | pkg/actuators/machine/reconciler.go:43-82 | a check and a Create that meets no failure, with other steps in between, add exactly one VM and store the service instance id |
| `Stabilization.CreationSettles` | pkg/actuators/machine/actuator.go:85-169 | in any run: Exists, Create, Exists and Update that meet no failure, with other steps in between, settle the machine in the service instance that was asked, and on the VM created if that is the only one |
| `Stabilization.DeleteClearsUp` | pkg/actuators/machine/reconciler.go:85-136 | in any run, on any copy, a Delete whose calls are served reports success, leaves nothing in the cache and the IP it read in no pool if it had a VM, and no VM of the name iff there was at most one, in its service instance |
| `Stabilization.DeleteClearsExactly` | pkg/actuators/machine/reconciler.go:85-136 | in any run, a Delete that reports success, whatever calls failed, leaves no VM of the name iff there was at most one, in the service instance of its scope |
| `Reconciler.PowerClient.GetInstanceByName` | pkg/client/powervs_client.go:295-307 | the search loop over the VMs of its service instance equals the specification of the lookup by name |
| `Reconciler.PowerClient.CreateInstance` | pkg/client/powervs_client.go:287-289 | a VM is added to its service instance only, with an id new in all of them |
| `Reconciler.PowerClient.DeleteInstance` | pkg/client/powervs_client.go:283-285 | a VM is removed from its service instance only |
| `Reconciler.MachineReconciler.GetMachineInstance` | pkg/actuators/machine/reconciler.go:323-337 | equals the specified lookup |
| `Reconciler.MachineReconciler.Exists` | pkg/actuators/machine/reconciler.go:190-215 | equals the specified existence check |
| `Reconciler.MachineReconciler.RemoveStopped` | pkg/actuators/machine/instances.go:22-36 | equals the specified removal of a stopped VM |
| `Reconciler.MachineReconciler.Launch` | pkg/actuators/machine/instances.go:38-101 | equals the specified launch |
| `Reconciler.MachineReconciler.Create` | pkg/actuators/machine/reconciler.go:43-82 | services, machine and status end as specified |
| `Reconciler.MachineReconciler.SetProviderID` | pkg/actuators/machine/reconciler.go:241-270 | the provider id is set from the stored status, or nothing changes |
| `Reconciler.MachineReconciler.SetMachineAddresses` | pkg/actuators/machine/reconciler.go:339-467 | addresses, cache and lookup log end as specified |
| `Reconciler.MachineReconciler.Update` | pkg/actuators/machine/reconciler.go:139-187 | services, machine and status end as specified, on what paging delivers; if the listing goes on, they are as at the start of the listing |
| `Reconciler.MachineReconciler.Delete` | pkg/actuators/machine/reconciler.go:85-136 | services, machine and status end as specified, on what paging delivers; if the listing goes on, they are as at the start of the listing |
| `Reconciler.MachineReconciler.SetProviderStatus` | pkg/actuators/machine/machine_scope.go:165-178 | instance id, state and conditions end as specified |
| `Reconciler.MachineReconciler.PatchMachine` | pkg/actuators/machine/machine_scope.go:111-137 | the stored versions grow by exactly what the two patches store |
| `Reconciler.Actuator.NewMachineScope` | pkg/actuators/machine/machine_scope.go:59-108 | the status a reconcile starts from, with the lookup only when no service instance id is stored |
| `Reconciler.Actuator.Create` | pkg/actuators/machine/actuator.go:85-109 | scope, create and patch, which is attempted on every outcome; success is reported iff the operation is done and both patches are confirmed |
| `Reconciler.Actuator.Exists` | pkg/actuators/machine/actuator.go:113-128 | scope and existence check, without a patch |
| `Reconciler.Actuator.Update` | pkg/actuators/machine/actuator.go:131-169 | scope, update and patch, which is attempted on every outcome; success is reported iff the operation is done and both patches are confirmed; nothing is patched while the listing goes on |
| `Reconciler.Actuator.Delete` | pkg/actuators/machine/actuator.go:172-196 | scope, delete and patch, which is attempted on every outcome; success is reported iff the operation is done and both patches are confirmed; nothing is patched while the listing goes on |

## Left out

- Client construction, credentials, tokens and the thin SDK wrappers: network and library calls; they are the scripted services here.
- The capacity annotations of machine sets (pkg/actuators/machineset/controller.go): a short floating point computation.
- Failures to read the infrastructure object in the endpoint controller and the client: they only end the call.
- Labels and annotations of the Machine object (setMachineCloudProviderSpecifics): would add easy members only.
- Selection of images and service instances by name: the same first-match search as for networks, so the answer is an input of a reconcile.
- Events, metrics, logging and the texts of errors.
- Listing VMs with a delay: the model's listing shows every VM, so the twenty second window of Exists is modelled but not needed.
- Interruptions within one operation by another machine's operation: operations of different machines interleave as wholes.
- The phases of a machine in the calling controller: the model lets it give up at any point instead, and a
  Machine object may go at any time, with what was about to be done for it.
- That region, zone, DHCP servers and load balancers belong to the service instance of a scope: they are inputs of each step, chosen freely.
- Runs take what paging delivers as an arbitrary input of a step; the methods of the reconciler do the paging.
