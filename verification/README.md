# Verified model of the control plane operator

The operator turns a `ManagedControlPlane` (MCP) object into a hosted Kubernetes control plane: it applies etcd, API
server, controller manager and scheduler workloads with their certificates, waits for an address, writes an admin
kubeconfig, and engages the new cluster with a multicluster manager. This project models that logic in Dafny and proves
what it keeps over all runs, all inputs and all interleavings.

| files | what they model |
|---|---|
| `ProviderModel`, `ProviderProofs`, `ProviderPass`, `Provider` | the multicluster provider: its locked registry and field indexes as a small-step transition system, invariants over every interleaving, passes as updates of a map, and the code itself as a class whose every execution, with other threads running between its critical sections, is a run of that system |
| `ControlPlaneModel`, `ControlPlaneProofs`, `Convergence`, `Deletion`, `Order`, `ControlPlane` | the reconcile protocol of one MCP against an API server that keeps every version of the object; stale reads, compare-and-swap, conflict retries and lost patches; three-pass convergence, deletion, the order in which objects appear; and the reconciler as a class with local copies changed in place |
| `MergePatch`, `Status`, `Consistency` | the status patch as a JSON merge patch (RFC 7396), what it does to a store that has moved on, and over which runs the three status fields stay consistent |
| `ApplyLoop` | server-side apply of a list of objects with field ownership, and the loop that stops at the first failure |
| `BigEndian`, `Addresses` | the IP arithmetic of `addIP`, `firstServiceIP` and `IPAtOffset` |
| `Names`, `Pki`, `ServiceAddress` | generated names and when they clash; issuers, certificates and the Secrets they become; the service address from the spec to the certificates |
| `Templates`, `Builders` | the workload builders: the value every chain of calls leaves, and the heap form with shared Go maps |
| `Mounts`, `Workloads`, `Objects`, `Trust`, `Files`, `Agent` | the generated pods and Services: what they are called and which pods a Service reaches; from a flag through mount and volume to a Secret's file, and from there to who trusts whom at which host |
| `EndToEnd` | the protocol and the certificates together: what a written kubeconfig dials is what the certificates name |
| `Optional` | the one datatype they share |

Environment steps are nondeterministic: which version a cached read returns, which calls fail, what users, the load
balancer and the certificate manager do between two calls. Parsed CIDRs are bytes and a prefix length; hashes are
values; what a call into another component answers is a parameter.

## Where the code does less than it seems to

These are proved as they are, with a concrete witness where a run or an input is at fault.

- An index registered between a cluster's `applyIndexers` and its store is never applied to that cluster, although both
  calls succeed (`IndexLostInWindow`, `MissedForever`).
- A cluster whose addon step fails stays in the registry without being engaged, and later passes take it for engaged
  (`AddonFailureRun`, `AddonFailureLeavesUnengaged`, `UnengagedUntilReleased`).
- The early return of `setStatus` compares two `*bool` pointers and never fires (`SetStatus`).
- `updateMCPAddress` does not refresh the local object, so a pass works with the address it read
  (`KubeconfigTrailsByOnePass`), and three passes are needed and enough (`TwoPassesAreNotEnough`).
- A status patch from a stale copy can leave Ready, message and condition contradicting each other
  (`StaleCopyMixes`, `StaleGenerationMixes`); `PatchConsistentExactly` and `ConsistentExactly` say exactly when.
- `IPAtOffset` checks the address and not the masked network for an IPv4 form, and indexes a nil slice for an
  IPv4-mapped CIDR with a prefix below 96 (`IpAtOffsetColon`, `MappedCrash`). `firstServiceIP` does not check membership and answers at
  /32 (`FirstServiceIpAgrees`); a nil sum would be printed as `<nil>`.
- Two control planes in one namespace, one named as the other plus `-etcd`, `-front-proxy` or `-konnectivity`, want
  different CAs behind one Issuer name (`IssuersShared`, `SharedIssuersConflict`). No other generated name can clash.
- The Services select pods by application and not by control plane: of two control planes in one namespace, each one's
  Services also send to the other's API server and etcd (`ReachesExactly`, `EndpointsShared`).

## Model

| member | source | states |
|---|---|---|
| ProviderProofs.IndexAccounting | pkg/controller/multicluster/provider.go:265-291 | over every interleaving of the reconcile thread with any number of IndexField calls: no index is applied twice to a cluster, and for a cluster in the registry each registration is in exactly one of four states: applied, ahead of a running call, given up by a failed call, or made between that cluster's applyIndexers and its store |
| ProviderProofs.MissedForever | pkg/controller/multicluster/provider.go:344-363 | a registration made in that window is never applied to that cluster in any continuation of the run |
| ProviderProofs.IndexLostInWindow | pkg/controller/multicluster/provider.go:266-291 | a run with no failure at all in which a successful IndexField call and a successful creation leave the index unapplied for good |
| ProviderProofs.ContextLifetime | pkg/controller/multicluster/provider.go:271-282 | over all runs a cluster's context is live exactly while the cluster is in the registry, in flight in the one creation, or between its removal and its cancellation; it is cancelled at most once, and never before it was started |
| ProviderProofs.StoreIsFresh | pkg/controller/multicluster/provider.go:285-291 | a store never overwrites an entry, stores an id no entry has, and what it stores is live |
| ProviderProofs.EngagedUnlessAddonFailed | pkg/controller/multicluster/provider.go:293-305 | outside an in-flight creation a registry entry is engaged exactly if its addon step did not fail |
| ProviderProofs.UnengagedUntilReleased | pkg/controller/multicluster/provider.go:216-222 | an entry that is not engaged stays in the registry unengaged in every continuation, until a pass finds its MCP deleted or vanished, or its kubeconfig with another hash |
| ProviderProofs.AddonFailureLeavesUnengaged | pkg/controller/multicluster/provider.go:293-295 | a failed addon step reaches that state: the entry is stored with its hash, not engaged, and the pass is over |
| ProviderProofs.AddonFailureRun | pkg/controller/multicluster/provider.go:256-295 | a run of six labels from the initial state that ends there |
| ProviderProofs.InvariantStep | pkg/controller/multicluster/provider.go:256-364 | every step of either thread keeps the four invariants behind these results |
| ProviderPass.PassRefinesMap | pkg/controller/multicluster/provider.go:188-245 | a pass for a ready MCP, interleaved with any IndexField steps, leaves the registry, read as a map from name to kubeconfig hash, unchanged at every other key, and at this key the hash read in the pass, or nothing if a step dropped the cluster |
| ProviderPass.CancelledBeforeRecreated | pkg/controller/multicluster/provider.go:216-223 | when the hash has changed, the old cluster's context has been cancelled, once, before the new cluster is created |
| ProviderPass.RemovalRefinesMap | pkg/controller/multicluster/provider.go:180-194 | a pass that finds the MCP deleted or gone removes exactly its key |
| Provider.Provider.Get | pkg/controller/multicluster/provider.go:161-170 | answers exactly for registered names, and the cluster it returns is live |
| Provider.Provider.ListClusters | pkg/controller/multicluster/provider.go:367-372 | returns exactly the registered names |
| Provider.Provider.RemoveCluster | pkg/controller/multicluster/provider.go:324-341 | with IndexField calls running in between: deletes the key if present, cancels that cluster's context once, after the delete, and no context if the key is absent; it is a run of the transition system |
| Provider.Provider.ApplyEach | pkg/controller/multicluster/provider.go:310-321 | the loop applies every registered index once, in order, up to the first refusal |
| Provider.Provider.CreateAndEngage | pkg/controller/multicluster/provider.go:256-307 | the creation as the code orders it, with IndexField calls running between its critical sections, is a run of the transition system and ends as the answers of the other components dictate |
| Provider.Provider.Reconcile | pkg/controller/multicluster/provider.go:173-246 | one pass, with IndexField calls running between its critical sections, for every read. An MCP not found or being deleted: the key is out of the registry, the cluster it held has been cancelled once, done. A failed read, an MCP not ready, a missing kubeconfig: nothing changes; error, requeue, error. A kubeconfig of the known hash: nothing changes, done. Any other: the old cluster has been cancelled, and the new one is registered under its hash, engaged, or cancelled again as the answers of the other components and the indexes registered until then decide. Other keys stay. The first step taken is Gone or Ready exactly in the cases above, and the steps extend the run of the transition system |
| Provider.Provider.IndexField | pkg/controller/multicluster/provider.go:344-364 | with the reconcile thread and other IndexField calls running between its steps: registers the index and applies it to the clusters of the snapshot taken under the lock; `done` are those it was applied to, each once, all of them exactly if none refuses; the others have it given up and never applied |
| ControlPlaneProofs.InvariantStep | pkg/controller/managedcontrolplane_controller.go:51-122 | every step of the operator, a user, the load balancer or the certificate manager keeps the invariants, with stale reads, conflicts and errors at every call |
| ControlPlaneProofs.ReadyIsBacked | pkg/controller/managedcontrolplane_controller.go:96-121 | in every version of the object in every reachable state, Ready=true stands beside a non-empty address and a set kubeconfig reference; and there is a run to that state in which, before that version was stored, a pass stood at its report having run all seven components in order, none failing or waiting |
| ControlPlaneProofs.ReportsAfterPrefix | pkg/controller/managedcontrolplane_controller.go:106-119 | a pass that reports has run exactly the components up to the one that stopped it, in order, and all seven if none did |
| ControlPlaneProofs.MessageNamesLastComponent | pkg/controller/managedcontrolplane_controller.go:106-119 | if the local copy agrees with the store, the message stored by the report is that of exactly the last component run, and the condition says the same |
| ControlPlaneProofs.FinalizerNeverReadded | pkg/controller/managedcontrolplane_controller.go:66-82 | once a version of a deleting object lacks the finalizer, no later version has it |
| ControlPlaneProofs.FinalizerAddedOnlyToLive | pkg/controller/managedcontrolplane_controller.go:84-92 | an operator update adds the finalizer only to a current version that is not being deleted, changing nothing else; and it lets the object go only if that version was being deleted, had the finalizer and no other |
| ControlPlaneProofs.ChildrenOnlyAfterFinalizer | pkg/controller/managedcontrolplane_controller.go:84-104 | no child changes before a version of the live object with the finalizer was stored |
| ControlPlaneProofs.RetryWritesItsField | pkg/controller/helpers.go:184-213 | over any interleaving of the conflict-retry loop with the writes of other parties that leave the status alone: at its end the stored status is the one before it, with exactly the loop's one field replaced if it wrote, and unchanged if it did not |
| ControlPlaneProofs.RetryWritesOnce | pkg/controller/helpers.go:203-213 | over any interleaving until the retry loop is left, it wrote at most once, it wrote exactly if it succeeded, and it made at most the calls its remaining attempts allow |
| ControlPlaneProofs.FiveAttempts | pkg/controller/helpers.go:185-194 | the update gives up for a conflict only after five attempts: any run of it, amid any writes of others, that ends in failure without a failed call on an object that is still there has made ten calls, five reads and five writes |
| ControlPlaneProofs.LoopStep | pkg/controller/helpers.go:184-213 | each call of the loop decreases the remaining-call measure and no other party's step changes it |
| Convergence.FinishIsRun | pkg/controller/managedcontrolplane_controller.go:51-122 | a pass without stale reads and errors is one of the runs of the protocol |
| Convergence.OnePass | pkg/controller/managedcontrolplane_controller.go:51-122 | the exact object and children that such a pass leaves, from any version of the object |
| Convergence.ReadyWithinThreePasses | pkg/controller/managedcontrolplane_controller.go:84-121 | with a published address and a complete admin secret, an object not being deleted is Ready after at most three such passes, whatever its status was, with certificates, API server and kubeconfig all carrying that address |
| Convergence.ConvergedPassIsIdle | pkg/controller/managedcontrolplane_controller.go:94-121 | after that, another pass at any later time adds no version of the object and changes no child |
| Convergence.KubeconfigTrailsByOnePass | pkg/controller/config.go:63-69 | the kubeconfig, certificates and API server of a pass carry the address the pass read, not the one it stored, since the local copy is not refreshed |
| Convergence.TwoPassesAreNotEnough | pkg/controller/apiserver.go:125-130 | the bound of three is tight: a new object is not Ready after two |
| Deletion.PassReleases | pkg/controller/managedcontrolplane_controller.go:66-82 | from any state whose object is being deleted and has the operator's finalizer, one undisturbed pass leaves the object gone if there is no other finalizer, and otherwise one more version with only the finalizer cleared; nothing else changes, children included |
| Deletion.ReleasedOnce | pkg/controller/managedcontrolplane_controller.go:51-82 | a further pass changes nothing, whether it still finds the object or not |
| Deletion.DeletionCompletes | pkg/controller/managedcontrolplane_controller.go:66-82 | deleting an object with the finalizer, then one pass, then the owners of other finalizers clearing theirs: the object is gone, and not before the pass |
| Order.ChildrenInOrder | pkg/controller/managedcontrolplane_controller.go:96-119 | in every reachable state no object is there before those it needs (Service, PKI, etcd, API server, controller manager, scheduler, kubeconfig, in this order); a pass that reports a component has everything of the components before it; and once any version has said Ready=true all seven are there |
| ControlPlane.Reconciler.Reconcile | pkg/controller/managedcontrolplane_controller.go:51-122 | every execution of a pass, with any interference between its calls, extends the run of the protocol taken so far; the result fits the version read and the outcome reported; a pass that reports none has applied nothing. Having read a deleting version with the finalizer, a pass that ends without error leaves the object gone, or current with only the finalizer cleared if others remain; having read a live one without it, it leaves that version with the finalizer; and it fails on these only for a failed call, a gone object or an old version |
| ControlPlane.Reconciler.Loop | pkg/controller/managedcontrolplane_controller.go:106-117 | the component loop stops exactly at the first component that fails or waits |
| ControlPlane.Reconciler.Update | pkg/controller/managedcontrolplane_controller.go:72-92 | the metadata update fails exactly on a failure of its own, a gone object or an old version, and then changes nothing; otherwise it stores the local copy, or takes the object away if the copy is deleting and has no finalizer left |
| ControlPlane.Reconciler.SetStatus | pkg/controller/helpers.go:33-70 | the patch is always sent: the early return compares a fresh pointer with an older one and never holds |
| ControlPlane.Reconciler.RetryOnConflict | pkg/controller/helpers.go:185-213 | at most five attempts, each on a fresh copy; success leaves the loop with the field written, failure reports the component failed |
| ControlPlane.Reconciler.ReconcileService | pkg/controller/apiserver.go:100-133 | applies the service, and then fails, waits, goes on, or stores the changed address, exactly as the load balancer's answer and the address known decide |
| ControlPlane.Reconciler.ReconcileAdminConfig | pkg/controller/config.go:56-123 | waits without an address, and applies nothing then; with an incomplete secret waits, or fails to read it, and applies nothing; waits in no other case; goes on only with the kubeconfig written for the local copy's address |
| Status.PatchIsMerge | pkg/controller/helpers.go:42-69 | the merge patch of RFC 7396 that MergeFrom sends, applied to the encoded store, is the field-by-field merge: what the writer changed is the writer's, all else the store's |
| Status.PatchKeepsOthersWrites | pkg/controller/helpers.go:42-69 | a status patch never undoes an address or secret reference that somebody else has stored since the read |
| Status.PatchConsistentExactly | pkg/controller/helpers.go:44-69 | the exact condition: with a store that tells one outcome and a local copy that tells another, or the same, the status patch leaves Ready, message and condition consistent if and only if nothing changes, or the same outcome is reported over itself, or the outcome is new to the copy and Ready is either written too or not true in the store |
| Status.BlankCopyConsistent | pkg/controller/helpers.go:44-69 | from a local copy without a report the patch writes all three fields, whatever the store holds |
| Status.BlankStoreExactly | pkg/controller/helpers.go:44-69 | over a store without a report, a copy with one leaves the three consistent if and only if its Ready value changes |
| Consistency.ConsistentExactly | pkg/controller/helpers.go:33-70 | over any run from a new object: every version ever stored has no report or consistent fields if and only if every report that was stored was safe, a test on the stored status, the local copy and the outcome to report |
| Consistency.AgreedIsSafe | pkg/controller/helpers.go:44-69 | a report from a copy that agrees with the store on the three fields, or from a copy without a report, is safe |
| Status.PatchOfAgreedCopy | pkg/controller/helpers.go:44-69 | from a local copy that agrees with the store on the three, the patch leaves them consistent, and repeating it changes nothing |
| Consistency.StaleCopyMixes | pkg/controller/helpers.go:63-69 | a run from a new object, for every name and address, to a stored status with Ready=true and the message of a failed component: a pass reads an old version, another outcome is stored meanwhile, and the patch from the old version changes only the message and the condition |
| Consistency.StaleGenerationMixes | pkg/controller/helpers.go:54-69 | a run to a stored status with Ready=true and its message beside a condition of a failure: the stale copy reports the outcome it already told for a newer generation, so only the condition is sent |
| Status.LocallyConsistent | pkg/controller/helpers.go:44-54 | the local copy itself is always consistent: Ready is true exactly for the outcome that all is ready, the condition's status and reason are those of the outcome, its message is the status's message, and its generation the object's |
| Status.ConditionAfterSet | pkg/controller/helpers.go:54 | setting a condition makes it the one of its kind, keeping its transition time exactly if its status was the same, and leaves the conditions of other kinds |
| Status.TransitionTime | pkg/controller/helpers.go:44-54 | the transition time of a reported status moves exactly when Ready changes |
| Status.ReasonTellsKind | pkg/apis/controlplane.patrostkowski.dev/v1alpha1/const.go:38-48 | the reasons of two outcomes are equal exactly if both are ready, both are waiting, or both have failed |
| Status.SetTwice | pkg/controller/helpers.go:54 | setting the same condition again changes nothing, whatever the time |
| Status.MessageIdentifies | pkg/apis/controlplane.patrostkowski.dev/v1alpha1/const.go:56-106 | the messages of different outcomes differ, so a message names one component and one outcome |
| MergePatch.CreateRoundTrip | pkg/controller/helpers.go:69 | creating a merge patch and applying it to the original gives the modified document, for documents without nulls (RFC 7396, section 2) |
| MergePatch.CreateSelf | pkg/controller/helpers.go:69 | the patch between equal documents is empty |
| ApplyLoop.RerunConverges | pkg/controller/helpers.go:135-176 | from the store left by a run that stopped after any number of objects, a clean run of the same list ends in the same store as one clean run, whatever duplicates the list has and whoever else owns fields |
| ApplyLoop.FieldAfter | pkg/controller/helpers.go:143-174 | each field of each object after a list of patches, in closed form from the last patch and what the other managers hold |
| ApplyLoop.LastIntentHolds | pkg/controller/helpers.go:170-172 | after a clean run the last entry for an object decides: its fields hold its values, and the manager owns exactly those |
| ApplyLoop.OthersKeepTheirFields | pkg/controller/helpers.go:165-172 | another manager keeps a field and its value exactly if no entry of the list sets it to something else |
| ApplyLoop.IntentArrives | pkg/controller/helpers.go:143-172 | the patch made of an object and its controller, with any list before it and no later patch for its key, leaves in the store each field with its value and the controller as owner reference, the manager owning exactly those |
| ApplyLoop.NoConflictKeeps | pkg/controller/helpers.go:165-172 | a patch that is accepted without force leaves every other manager its fields and their values |
| ApplyLoop.Applier.SetControllerReference | pkg/controller/helpers.go:144-148 | refuses exactly an object of another namespace, of another controller, or an owner of unknown type, and then changes nothing |
| ApplyLoop.Applier.ApplyObject | pkg/controller/helpers.go:143-174 | one object: after success the store has, at its kind, namespace and name, each of its fields with its value, and the owner's id as owner reference if one is to be set; the manager owns exactly those fields; every other object is as before; without force no other manager lost a field. On failure the reason is the first that applies and the store is unchanged |
| ApplyLoop.Applier.ApplyInOrder | pkg/controller/helpers.go:143-175 | the loop stops at the first object that is not acceptable or whose patch fails; every object before it is in the store so, as its last occurrence before it has it, and nothing else has changed |
| ApplyLoop.Applier.Apply | pkg/controller/helpers.go:135-176 | the precondition errors, each exactly in its case, change neither the store nor an object; otherwise the objects before the first failure are in the store with their fields and their owner reference, owned by the manager |
| Addresses.AddInPlace | pkg/resources/pki/pki.go:539-559 | the carry loop adds exactly, big-endian, modulo 256 to the length, and no intermediate sum overflows a machine word |
| Addresses.AddIp | pkg/resources/pki/pki.go:539-559 | exact addition modulo 2^128 for IPv6; for IPv4 in either form value+add below 2^32 and nil otherwise; the result is fresh and the caller's bytes unchanged |
| Addresses.AddOfMapped | pkg/resources/pki/pki.go:540-558 | an IPv4-mapped address and its four-byte form have the same sum |
| Addresses.IpAtOffsetExact | pkg/utils/utils.go:37-69 | for every IPv4 network and every 32-bit offset, success exactly below 2^(32-p), and then network + offset: wrap-around is never a false accept |
| Addresses.IpAtOffsetColon | pkg/utils/utils.go:43-53 | colon notation: plain IPv6 is refused; IPv4-mapped behaves as the dotted network from prefix 96 on, and below indexes a nil slice |
| Addresses.MappedCrash | pkg/utils/utils.go:43-53 | ::ffff:10.0.0.0/64 is such a network, at every offset |
| Addresses.FirstServiceIp | pkg/resources/pki/pki.go:526-537 | the method returns what the specification gives, and fails exactly on an unparsed CIDR |
| Addresses.FirstServiceIpAgrees | pkg/resources/pki/pki.go:526-537 | firstServiceIP and IPAtOffset(1) agree exactly for prefixes up to 31; at /32 one refuses and the other answers, with the nil address exactly after 255.255.255.255 |
| Addresses.FirstServiceIpWide | pkg/resources/pki/pki.go:526-559 | firstServiceIP in colon notation: an IPv4-mapped network gives what its dotted form gives; any other gives the next 16-byte address, never nil, wrapping around after the last; it is a member of the network exactly up to /127 |
| Addresses.DnsAndFirstServiceIp | pkg/resources/addons/coredns.go:213-229 | the DNS address at offset 10 exists exactly up to /28, and then it and the first service address are distinct members of the network |
| BigEndian.MaskValue | pkg/utils/utils.go:48-53 | masking byte by byte (RFC 4632, section 3.1) clears exactly the host bits of the address as a number |
| BigEndian.ValueInjective | pkg/resources/pki/pki.go:545-551 | two byte strings of one length denote the same number exactly if they are equal |
| Names.SecretsNeverShared | pkg/cluster/const.go:47-67 | generated Secret (and so Certificate) names are equal only for the same control plane and purpose: distinct within one, never shared by two, whatever the control planes are called |
| Names.WorkloadsNeverShared | pkg/cluster/cluster.go:82-85 | the same for Services, Deployments and the StatefulSet |
| Objects.WorkloadsNeverCollide | pkg/cluster/cluster.go:82-85 | two generated workloads with one name in one namespace are of one control plane and one purpose, so none overwrites another |
| Objects.GeneratedAs | pkg/resources/apiserver/apiserver.go:261-267 | each generated workload has its own name, lives in the control plane's namespace, has one replica, and its app label as labels, selector and pod labels |
| Objects.EtcdHostIsThePod | pkg/resources/etcd/etcd.go:43-60 | the host that the API server dials is the StatefulSet's name, -0, its service name and its namespace: the first pod's, under a headless Service of that name in that namespace, which reaches the pod and has the port dialled |
| Objects.ServiceHostIsTheService | pkg/resources/apiserver/apiserver.go:65-81 | the host of the component kubeconfigs is that of the API server's Service, which reaches the API server's pods on the ports that the kubeconfigs and the agents dial |
| Objects.ReachesExactly | pkg/resources/apiserver/apiserver.go:70-76 | a generated Service reaches exactly the pods of its purpose of every control plane in its namespace |
| Objects.EndpointsShared | pkg/resources/etcd/etcd.go:47-55 | so of two control planes in one namespace the Services of each send to the API server and the etcd of the other too |
| Names.ConfigMapsNeverShared | pkg/cluster/cluster.go:82-85 | the same for ConfigMaps |
| Names.IssuersDistinct | pkg/cluster/const.go:34-45 | Issuer names are distinct within one control plane |
| Names.IssuersShared | pkg/cluster/const.go:34-45 | two control planes share an Issuer name if and only if one's name is the other's continued by -etcd, -front-proxy or -konnectivity |
| Pki.SharedIssuersConflict | pkg/resources/pki/pki.go:95-130 | a shared CA Issuer is a conflict: in one namespace the two control planes want different CAs behind that name |
| Pki.ReferencesClose | pkg/resources/pki/pki.go:82-455 | every certificate's issuer reference resolves in the list, in its namespace; the CA certificates are exactly those of self-signed issuers; every other issuer signs with the Secret of a CA certificate of the list |
| Pki.WrittenAre | pkg/resources/pki/pki.go:166-455 | the three files of every generated Secret: the certificate, its key, and the certificate of the CA that signed it |
| Pki.Listed | pkg/resources/pki/pki.go:82-130 | looking up any issuer or certificate by name in the generated lists finds it and nothing else |
| Trust.ApiserverReachesEtcd | pkg/resources/apiserver/apiserver.go:187-191 | the API server's three etcd flags and etcd's three server flags hold, through mounts, volumes and Secrets, two sides that authenticate each other, and etcd's certificate names the host of --etcd-servers |
| Trust.EtcdReachesItself | pkg/resources/etcd/etcd.go:114-131 | the same for the probe at localhost and for the peers at the name they advertise |
| Trust.ControllerManagerReachesApiserver | pkg/resources/controllermanager/controllermanager.go:51-59 | the files the kubeconfig names, in the container that reads it, authenticate with the API server, whose certificate names the kubeconfig's host |
| Trust.SchedulerReachesApiserver | pkg/resources/scheduler/scheduler.go:49-57 | the same for the scheduler |
| Trust.AdminReachesApiserver | pkg/controller/config.go:69-90 | the admin kubeconfig holds the published address with port 6443 and the certificate, key and CA of the admin Secret; they authenticate with the API server, whose certificate names every non-empty published address, IP or host name |
| Agent.AgentReachesKonnectivity | pkg/resources/addons/konnectivity.go:40-125 | the agent's three flags hold, through its mount, the items of its projected volume and the Secrets copied into the managed cluster, a side that authenticates with the konnectivity server; the agent dials the published address, which that server's certificate names, on the port the server listens on for agents |
| Trust.ApiserverReachesKubelets | pkg/resources/apiserver/apiserver.go:197-198 | the API server's kubelet client flags hold a client certificate signed by the CA whose certificate is the ca.crt of the managed CA's Secret |
| Trust.TokensVerify | pkg/resources/controllermanager/controllermanager.go:117 | API server and controller manager sign service account tokens with one key, and the API server verifies with its certificate |
| Trust.SignedNodesAreTrusted | pkg/resources/controllermanager/controllermanager.go:119-126 | the controller manager signs node certificates with the CA against which the API server checks its clients |
| Trust.PodsTrustApiserver | pkg/resources/controllermanager/controllermanager.go:125-126 | the CA that the controller manager hands to every pod is the one that signed the API server's serving certificate |
| Trust.UsagesExactly | pkg/resources/pki/pki.go:166-455 | CAs have no usages, every other certificate may sign and encipher keys, exactly the four serving ones may serve, and exactly the clients and the etcd members may act as clients |
| Trust.Administrators | pkg/resources/pki/const.go:35 | exactly the admin's and the API server's kubelet client certificate are of the group system:masters |
| Trust.KnownUsers | pkg/resources/pki/const.go:28-29 | among the clients of the managed CA exactly the controller manager's and the scheduler's certificate have the names of those users |
| Trust.CommonNameFits | pkg/utils/utils.go:160-165 | no common name is longer than 64 characters, whatever the control plane is called; the etcd members' is the pod's name if that fits and a prefix of it otherwise |
| EndToEnd.KubeconfigMatchesCertificates | pkg/controller/config.go:63-111 | over all runs, with any interference: a kubeconfig is only ever written for a non-empty address for which the certificates and the API server last applied were generated, and a pass that reports Ready leaves the three so |
| EndToEnd.WrittenKubeconfigIsTrusted | pkg/controller/config.go:69-120 | so whenever a kubeconfig is written, admin and API server authenticate each other at the host it dials |
| Trust.AddressNamed | pkg/resources/pki/pki.go:458-524 | the published address is among the names of both serving certificates: as an IP if it parses as one, as a DNS name otherwise |
| ServiceAddress.IpsExactly | pkg/resources/pki/pki.go:469-483 | the IP addresses of both serving certificates are exactly the service IP, if there is one, the published address, if it is an IP, and 127.0.0.1 |
| ServiceAddress.ServiceNamesNamed | pkg/resources/pki/pki.go:495-505 | the API server's certificate names every service name under which pods look for it, and the konnectivity server's its own |
| ServiceAddress.ClientsInside | pkg/resources/pki/pki.go:486-524 | a client of the managed CA and the API server authenticate each other at the service IP and at kubernetes.default.svc |
| ServiceAddress.ServiceNetworkServed | pkg/resources/pki/pki.go:507-537 | from the CIDR of the spec: for every service network, IPv4 or IPv6, with room for it, the address after the network's own is what firstServiceIP gives, and the API server authenticates at it as it is printed |
| ServiceAddress.NoServiceIp | pkg/resources/pki/pki.go:507-511 | without a networking section, or with a CIDR that does not parse, no service IP is named |
| Trust.ApiserverRuns | pkg/resources/apiserver/apiserver.go:125-285 | the API server's Deployment, as the builder calls make it, has the mounts, volumes and flags these results rest on |
| Trust.KonnectivityRuns | pkg/resources/apiserver/apiserver.go:245-284 | its second container too |
| Trust.ControllerManagerRuns | pkg/resources/controllermanager/controllermanager.go:73-172 | the controller manager's Deployment too |
| Trust.SchedulerRuns | pkg/resources/scheduler/scheduler.go:71-143 | the scheduler's Deployment too |
| Trust.EtcdRuns | pkg/resources/etcd/etcd.go:61-163 | etcd's StatefulSet too |
| Files.EveryFileBacked | pkg/resources/apiserver/apiserver.go:176-283 | in every container of every workload, every file an argument names lies below a mount of that container whose volume has it: a file of a generated Secret, the one item of a generated ConfigMap, or a scratch volume |
| Files.EgressConfigResolves | pkg/resources/apiserver/apiserver.go:151-174 | the egress configuration is the ConfigMap's file although the socket's directory is mounted inside its directory |
| Files.SocketShared | pkg/resources/apiserver/apiserver.go:164-174 | the API server and the konnectivity server find one socket in one volume |
| Files.KubeconfigResolves | pkg/resources/controllermanager/controllermanager.go:89-109 | a component's --kubeconfig path is the item of its ConfigMap |
| Files.EtcdDataOnDisk | pkg/resources/etcd/etcd.go:103-160 | every file below etcd's data directory is on the volume that the StatefulSet claims |
| Mounts.ResolvesSecret | pkg/cluster/cluster.go:87-124 | a Secret's file path means that Secret's file in every container that mounts it, beside any other Secret mounts: no mount shadows another |
| Templates.SelectorMatchesPods | pkg/resources/builders/deployment.go:47-59 | after any chain of builder calls the selector equals the pod labels, and both are the right-biased merge of all selectors given |
| Templates.LastSelectedIs | pkg/resources/builders/deployment.go:54-57 | for a key the last selector that has it wins |
| Templates.NeverSelected | pkg/resources/builders/deployment.go:54-57 | and a key no selector had is in neither |
| Templates.LastNameCounts | pkg/resources/builders/builder.go:159-163 | after any chain the name is the last non-empty one given |
| Templates.LastNamespaceCounts | pkg/resources/builders/builder.go:165-169 | and so the namespace |
| Templates.LastReplicasCount | pkg/resources/builders/deployment.go:76-79 | the number of replicas is the last one given |
| Templates.LastAccountCounts | pkg/resources/builders/builder.go:41-43 | and so the service account |
| Templates.LastServiceNameCounts | pkg/resources/builders/statefulset.go:47-50 | and so the StatefulSet's service name |
| Templates.LastLabelCounts | pkg/resources/builders/builder.go:141-148 | for each label the last call that has it |
| Templates.LastAnnotationCounts | pkg/resources/builders/builder.go:150-157 | and for each annotation |
| Templates.VolumesAddUp | pkg/resources/builders/builder.go:55-57 | the volumes are exactly those that some call gave |
| Templates.ClaimsAddUp | pkg/resources/builders/statefulset.go:115-118 | and so the volume claims |
| Templates.MountedFirst | pkg/resources/builders/builder.go:119-139 | mounts go to the end of the first container of the name; every other container, and the order, stay |
| Templates.MountedNowhere | pkg/resources/builders/builder.go:127-139 | with no container of the name nothing changes |
| Builders.Copy | pkg/resources/builders/builder.go:103 | copying one map into another, key by key in any order, is the right-biased merge; the source is not in the frame |
| Builders.MergeStringMap | pkg/utils/utils.go:72-83 | merges into dst in place, into a new map if there is none, and is nil only for two nils |
| Builders.Meta.WithLabels | pkg/resources/builders/builder.go:141-148 | object labels become the merge; the caller's map is neither changed nor kept |
| Builders.Meta.WithName | pkg/resources/builders/builder.go:159-163 | an empty name is ignored |
| Builders.PodTemplate.WithLabels | pkg/resources/builders/builder.go:93-104 | the same for pod labels; nil leaves everything alone |
| Builders.PodTemplate.AddVolumeMounts | pkg/resources/builders/builder.go:119-139 | the loop patches exactly the first container of the name, and reports whether there was one |
| Builders.WorkloadTemplate.WithSelector | pkg/resources/builders/deployment.go:47-59 | selector and pod labels both become the merge with the argument; the caller's map is neither changed nor kept; the object stays what its calls make of an empty one |
| Builders.WorkloadTemplate.WithVolumeClaims | pkg/resources/builders/statefulset.go:115-118 | appends the claims and changes nothing else |
| Builders.WorkloadTemplate.AddVolumeMounts | pkg/resources/builders/statefulset.go:105-108 | changes only the first container of the name |
| Builders.WorkloadTemplate.Matches | pkg/resources/builders/statefulset.go:57-69 | of every reachable Deployment or StatefulSet builder: selector and pod labels are equal and are the merge, whatever callers do with their maps meanwhile |
| Builders.WorkloadTemplate.Build | pkg/resources/builders/deployment.go:110-112 | an equal object that shares no map with the builder |

## Left out

- Kubernetes client, informer and watch wiring, manager setup, events, logging, health checks and metrics: library behaviour.
- Get: the API server is one object with its versions and the children of one control plane; two control planes are compared by their names only.
- ApplyComponent: a failing component leaves the children as they were; which of its objects a failed apply had already stored is in ApplyLoop and not in the protocol.
- Store: a write that changes nothing makes no new resource version; writes of the child objects have no versions.
- TryEndpointAddress: an address is what the code picks from the service's ingress list; the choice of an IP before a host name is not modelled.
- UpdateStatus: conflicts are by resource version; the update's other failures are one nondeterministic failure without backoff times.
- FinishIsRun: convergence is stated for passes without interference; what interference can do in general is in the invariants.
- ApplyObject: fields are leaf values with their owners; list-merge keys, defaulting by the server, and the server's answer written back into the object are not modelled.
- AddIp: Go's `uint` is taken as 64 bits.
- FirstServiceIp: parsing and printing addresses; the textual form of the result.
- Provider.Provider: contexts, goroutines and the lock are steps of a transition system and not Go objects; reconcile timeouts, which would cancel a derived context, and panics of client constructors are outside it. IndexOn runs one index at a time where the real call may take long.
- ReferencesClose: private keys, durations, renewal and subject fields other than the common name and organizations.
- WrittenAre: that the certificate manager writes these files is an assumption about it, stated as the function Written.
- ApiserverDeployment, CMDeployment, SchedulerDeployment, EtcdStatefulSet, AgentDaemonSet: arguments that name neither a file nor a host, images, ports, HTTP probes and resources; the order of arguments.
- MountDir: paths are joined by a slash; cleaning of dot segments in names cannot happen for Kubernetes names, which the results take to be free of slashes.
- ApiserverService, EtcdService: labels, type and protocol of the Services, and their builder.
- Build: objects are compared by value; slices are values, so sharing of a slice's spare capacity is not modelled.
- PatchContainer with a caller's closure and direct writes to the embedded object, which can break any invariant.
- WithNodeSelector, WithTolerations, WithAffinity, WithInitContainers and the builders of the other kinds: the same merge or append again.
- ApiserverReachesKubelets: the kubeconfig that joining kubelets are given is not modelled, only the Secret its CA is read from.
- ManagedAddons: the other addon manifests and their controller, version strings, kubeconfig files, the `tesseractl` command line, end-to-end tests and scripts.
