/** The pods of one control plane: their containers' arguments, mounts and volumes, built by the builders' calls. */
module Workloads {
  import opened Optional
  import opened Names
  import opened Pki
  import opened Templates
  import opened Mounts

  datatype PemFile = Crt | Key | CACrt

  function FileName(f: PemFile): string {
    match f
    case Crt => "tls.crt"
    case Key => "tls.key"
    case CACrt => "ca.crt"
  }

  /** A flag that names a file of a Secret. */
  datatype Use = Use(flag: string, secret: SecretName, file: PemFile)

  function UsePath(c: Cluster, u: Use): string {
    PathOf(Secret(c.name, u.secret), FileName(u.file))
  }

  function SecretArg(c: Cluster, u: Use): Arg {
    File(u.flag, UsePath(c, u))
  }

  function SecretArgs(c: Cluster, us: seq<Use>): (r: seq<Arg>)
    ensures |r| == |us| && forall i :: 0 <= i < |us| ==> r[i] == SecretArg(c, us[i])
  {
    if us == [] then [] else [SecretArg(c, us[0])] + SecretArgs(c, us[1..])
  }

  /** The calls every workload starts with. */
  function Named(c: Cluster, n: WorkloadName, app: string): Template {
    EMPTY
      .Then(WithName(Workload(c.name, n)))
      .Then(WithNamespace(c.namespace))
      .Then(WithLabels(map["app" := app]))
      .Then(WithSelector(map["app" := app]))
      .Then(WithReplicas(1))
  }

  // ---------------------------------------------------------------- API server

  const APISERVER_SECRETS: seq<SecretName> :=
    [ManagedCA, APIServerTLS, EtcdCA, APIServerEtcdClient, APIServerKubeletClient, SASigner, FrontProxyCA,
     FrontProxyClient]

  const APISERVER_USES: seq<Use> :=
    [Use("--etcd-cafile", EtcdCA, CACrt),
     Use("--etcd-certfile", APIServerEtcdClient, Crt),
     Use("--etcd-keyfile", APIServerEtcdClient, Key),
     Use("--client-ca-file", ManagedCA, Crt),
     Use("--tls-cert-file", APIServerTLS, Crt),
     Use("--tls-private-key-file", APIServerTLS, Key),
     Use("--kubelet-client-certificate", APIServerKubeletClient, Crt),
     Use("--kubelet-client-key", APIServerKubeletClient, Key),
     Use("--service-account-key-file", SASigner, Crt),
     Use("--service-account-signing-key-file", SASigner, Key)]

  const KONNECTIVITY_SECRETS: seq<SecretName> := [KonnectivityServerTLS, KonnectivityCA]

  const KONNECTIVITY_USES: seq<Use> :=
    [Use("--cluster-cert", KonnectivityServerTLS, Crt),
     Use("--cluster-key", KonnectivityServerTLS, Key),
     Use("--cluster-ca-cert", KonnectivityCA, CACrt)]

  const KONNECTIVITY_DIR := "/etc/konnectivity"
  const EGRESS_FILE := "konnectivity-egress-selector.yaml"
  const UDS := "konnectivity-uds"
  const UDS_DIR := KONNECTIVITY_DIR + "/" + UDS
  const SOCKET := "konnectivity-uds.sock"

  function EtcdHost(c: Cluster): string {
    Prefix(c.name, "etcd-0") + "." + Workload(c.name, Etcd) + "." + c.namespace + ".svc"
  }

  function ApiserverArgs(c: Cluster): seq<Arg> {
    [Text("--advertise-address=" + c.address), Url("--etcd-servers", EtcdHost(c), "2379"),
     File("--egress-selector-config-file", KONNECTIVITY_DIR + "/" + EGRESS_FILE)]
  }

  function ApiserverContainer(c: Cluster): Container {
    Container("apiserver", ApiserverArgs(c) + SecretArgs(c, APISERVER_USES), [])
  }

  const AGENT_PORT := "8132"

  const KONNECTIVITY_ARGS: seq<Arg> :=
    [Text("--mode=grpc"), File("--uds-name", UDS_DIR + "/" + SOCKET), Text("--agent-port=" + AGENT_PORT)]

  function KonnectivityContainer(c: Cluster): Container {
    Container("konnectivity-server",
              KONNECTIVITY_ARGS + SecretArgs(c, KONNECTIVITY_USES), [])
  }

  function EgressVolume(c: Cluster): Volume {
    ConfigMapVolume("egress-selector", ConfigMap(c.name, EgressSelector), EGRESS_FILE, EGRESS_FILE)
  }

  const EGRESS_MOUNT := Mount("egress-selector", KONNECTIVITY_DIR, true)
  const UDS_MOUNT := Mount(UDS, UDS_DIR, false)

  function ApiserverDeployment(c: Cluster): Template {
    Named(c, APIServer, "kube-apiserver")
      .Then(WithContainer(ApiserverContainer(c)))
      .Then(AddVolumes(ApiserverVolumes(c)))
      .Then(AddVolumeMounts("apiserver", [EGRESS_MOUNT, UDS_MOUNT] + SecretMounts(c.name, APISERVER_SECRETS)))
      .Then(WithContainer(KonnectivityContainer(c)))
      .Then(AddVolumeMounts("konnectivity-server", [UDS_MOUNT] + SecretMounts(c.name, KONNECTIVITY_SECRETS)))
  }

  // ---------------------------------------------------------------- controller manager and scheduler

  /** A kubeconfig in a ConfigMap: the server's host and port, and the files it names in the container that reads it. */
  datatype Kubeconfig = Kubeconfig(host: string, port: string, authority: Use, cert: Use, key: Use)

  function ComponentKubeconfig(c: Cluster, client: SecretName): Kubeconfig {
    Kubeconfig(ServiceHost(c), "6443", Use("certificate-authority", ManagedCA, Crt),
               Use("client-certificate", client, Crt), Use("client-key", client, Key))
  }

  const KUBECONFIG_DIR := "/etc/kubernetes"
  const KUBECONFIG_MOUNT := Mount("kubeconfig", KUBECONFIG_DIR, true)

  function KubeconfigArgs(file: string): seq<Arg> {
    [File("--kubeconfig", KUBECONFIG_DIR + "/" + file),
     File("--authentication-kubeconfig", KUBECONFIG_DIR + "/" + file),
     File("--authorization-kubeconfig", KUBECONFIG_DIR + "/" + file)]
  }

  const CM_SECRETS: seq<SecretName> := [ManagedCA, CMClient, SASigner]

  const CM_USES: seq<Use> :=
    [Use("--service-account-private-key-file", SASigner, Key),
     Use("--cluster-signing-cert-file", ManagedCA, Crt),
     Use("--cluster-signing-key-file", ManagedCA, Key),
     Use("--client-ca-file", ManagedCA, Crt),
     Use("--root-ca-file", ManagedCA, Crt)]

  const CM_CONF := "controller-manager.conf"

  function CMContainer(c: Cluster): Container {
    Container("kube-controller-manager",
              [Text("--cluster-name=" + c.name)] + KubeconfigArgs(CM_CONF) + SecretArgs(c, CM_USES), [])
  }

  function CMDeployment(c: Cluster): Template {
    Named(c, ControllerManager, "kube-controller-manager")
      .Then(WithContainer(CMContainer(c)))
      .Then(AddVolumes(CMVolumes(c)))
      .Then(AddVolumeMounts("kube-controller-manager", [KUBECONFIG_MOUNT] + SecretMounts(c.name, CM_SECRETS)))
  }

  const SCHEDULER_SECRETS: seq<SecretName> := [ManagedCA, SchedulerClient]
  const SCHEDULER_CONF := "scheduler.conf"

  function SchedulerContainer(c: Cluster): Container {
    Container("kube-scheduler", [Text("--leader-elect=true")] + KubeconfigArgs(SCHEDULER_CONF), [])
  }

  function SchedulerDeployment(c: Cluster): Template {
    Named(c, Scheduler, "kube-scheduler")
      .Then(WithContainer(SchedulerContainer(c)))
      .Then(AddVolumes(SchedulerVolumes(c)))
      .Then(AddVolumeMounts("kube-scheduler", [KUBECONFIG_MOUNT] + SecretMounts(c.name, SCHEDULER_SECRETS)))
  }

  // ---------------------------------------------------------------- etcd

  const ETCD_SECRETS: seq<SecretName> := [EtcdCA, EtcdServerTLS, EtcdPeerTLS, EtcdHealthClient]

  /** The container's own flags, then those of its probe. */
  const ETCD_USES: seq<Use> :=
    [Use("--trusted-ca-file", EtcdCA, CACrt),
     Use("--cert-file", EtcdServerTLS, Crt),
     Use("--key-file", EtcdServerTLS, Key),
     Use("--peer-trusted-ca-file", EtcdCA, CACrt),
     Use("--peer-cert-file", EtcdPeerTLS, Crt),
     Use("--peer-key-file", EtcdPeerTLS, Key),
     Use("--cacert", EtcdCA, CACrt),
     Use("--cert", EtcdHealthClient, Crt),
     Use("--key", EtcdHealthClient, Key)]

  const DATA_DIR := "/var/lib/etcd"

  function EtcdMounts(c: Cluster): seq<Mount> {
    [Mount(Workload(c.name, Etcd), DATA_DIR, false)] + SecretMounts(c.name, ETCD_SECRETS)
  }

  /** The endpoint is the probe's. */
  function EtcdArgs(c: Cluster): seq<Arg> {
    [Text("--data-dir=" + DATA_DIR), Url("--endpoints", "localhost", "2379"),
     Url("--initial-advertise-peer-urls", EtcdHost(c), "2380")]
  }

  function EtcdContainer(c: Cluster): Container {
    Container(Workload(c.name, Etcd), EtcdArgs(c) + SecretArgs(c, ETCD_USES), EtcdMounts(c))
  }

  function EtcdStatefulSet(c: Cluster): Template {
    Named(c, Etcd, "etcd")
      .Then(WithServiceName(Workload(c.name, Etcd)))
      .Then(WithContainer(EtcdContainer(c)))
      .Then(AddVolumes(SecretVolumes(c.name, ETCD_SECRETS)))
      .Then(WithVolumeClaims([Workload(c.name, Etcd)]))
  }

  // ---------------------------------------------------------------- what the chains leave

  lemma NamedIs(c: Cluster, n: WorkloadName, app: string)
    ensures var labels := map["app" := app];
            Named(c, n, app) ==
            EMPTY.(name := Workload(c.name, n), namespace := c.namespace, labels := labels, selector := labels,
                   podLabels := labels, replicas := Some(1))
  {
    assert |Workload(c.name, n)| > 0;
    assert map[] + map["app" := app] == map["app" := app];
  }

  function ApiserverFinal(c: Cluster): Container {
    ApiserverContainer(c).(mounts := [EGRESS_MOUNT, UDS_MOUNT] + SecretMounts(c.name, APISERVER_SECRETS))
  }

  function KonnectivityFinal(c: Cluster): Container {
    KonnectivityContainer(c).(mounts := [UDS_MOUNT] + SecretMounts(c.name, KONNECTIVITY_SECRETS))
  }

  function CMFinal(c: Cluster): Container {
    CMContainer(c).(mounts := [KUBECONFIG_MOUNT] + SecretMounts(c.name, CM_SECRETS))
  }

  function SchedulerFinal(c: Cluster): Container {
    SchedulerContainer(c).(mounts := [KUBECONFIG_MOUNT] + SecretMounts(c.name, SCHEDULER_SECRETS))
  }

  function ApiserverVolumes(c: Cluster): seq<Volume> {
    [EmptyDirVolume(UDS), EgressVolume(c)]
    + SecretVolumes(c.name, APISERVER_SECRETS) + SecretVolumes(c.name, KONNECTIVITY_SECRETS)
  }

  lemma ApiserverBuilt(c: Cluster)
    ensures ApiserverDeployment(c) == Named(c, APIServer, "kube-apiserver")
              .(containers := [ApiserverFinal(c), KonnectivityFinal(c)], volumes := ApiserverVolumes(c))
  {
    var t := Named(c, APIServer, "kube-apiserver");
    FirstContainer(t, ApiserverContainer(c), ApiserverVolumes(c), ApiserverFinal(c).mounts);
    assert |"apiserver"| != |"konnectivity-server"|;
    SecondContainer(t.(containers := [ApiserverFinal(c)], volumes := ApiserverVolumes(c)),
                    ApiserverFinal(c), KonnectivityContainer(c), KonnectivityFinal(c).mounts);
  }

  function CMVolumes(c: Cluster): seq<Volume> {
    [ConfigMapVolume("kubeconfig", ConfigMap(c.name, ControllerManagerKubeconfig), CM_CONF, CM_CONF)]
    + SecretVolumes(c.name, CM_SECRETS)
  }

  lemma CMBuilt(c: Cluster)
    ensures CMDeployment(c) == Named(c, ControllerManager, "kube-controller-manager")
              .(containers := [CMFinal(c)], volumes := CMVolumes(c))
  {
    FirstContainer(Named(c, ControllerManager, "kube-controller-manager"), CMContainer(c), CMVolumes(c),
                   CMFinal(c).mounts);
  }

  function SchedulerVolumes(c: Cluster): seq<Volume> {
    [ConfigMapVolume("kubeconfig", ConfigMap(c.name, SchedulerKubeconfig), SCHEDULER_CONF, SCHEDULER_CONF)]
    + SecretVolumes(c.name, SCHEDULER_SECRETS)
  }

  lemma SchedulerBuilt(c: Cluster)
    ensures SchedulerDeployment(c) == Named(c, Scheduler, "kube-scheduler")
              .(containers := [SchedulerFinal(c)], volumes := SchedulerVolumes(c))
  {
    FirstContainer(Named(c, Scheduler, "kube-scheduler"), SchedulerContainer(c), SchedulerVolumes(c),
                   SchedulerFinal(c).mounts);
  }

  lemma EtcdBuilt(c: Cluster)
    ensures EtcdStatefulSet(c) == Named(c, Etcd, "etcd")
              .(serviceName := Workload(c.name, Etcd), containers := [EtcdContainer(c)],
                volumes := SecretVolumes(c.name, ETCD_SECRETS), claims := [Workload(c.name, Etcd)])
  {
    StatefulContainer(Named(c, Etcd, "etcd"), Workload(c.name, Etcd), EtcdContainer(c),
                      SecretVolumes(c.name, ETCD_SECRETS), [Workload(c.name, Etcd)]);
  }

  // ---------------------------------------------------------------- every path is mounted

  /** The container's Secrets are mounted below the root, each from the pod's volume of that Secret. */
  ghost predicate Wired(c: Cluster, t: Template, ct: Container, ns: seq<SecretName>) {
    && Slashless(c.name)
    && ct in t.containers && OnlySecretsBelowRoot(c.name, ct.mounts, ns)
    && forall n :: n in ns ==>
         SecretMount(c.name, n) in ct.mounts &&
         VolumeNamed(t.volumes, Secret(c.name, n)) == Some(SecretVolumeOf(c.name, n))
  }

  lemma {:induction false} SecretVolumeFound(c: string, ns: seq<SecretName>, n: SecretName)
    requires n in ns
    ensures VolumeNamed(SecretVolumes(c, ns), Secret(c, n)) == Some(SecretVolumeOf(c, n))
  {
    if ns[0] != n {
      if Secret(c, ns[0]) == Secret(c, n) { SecretsNeverShared(c, ns[0], c, n); }
      SecretVolumeFound(c, ns[1..], n);
    }
  }

  lemma {:induction false} VolumeAfter(vs: seq<Volume>, ws: seq<Volume>, name: string)
    requires forall v :: v in vs ==> v.name != name
    ensures VolumeNamed(vs + ws, name) == VolumeNamed(ws, name)
  {
    if vs == [] {
      assert vs + ws == ws;
    } else {
      assert (vs + ws)[1..] == vs[1..] + ws;
      VolumeAfter(vs[1..], ws, name);
    }
  }

  lemma {:induction false} VolumeBefore(vs: seq<Volume>, ws: seq<Volume>, name: string)
    requires VolumeNamed(vs, name).Some?
    ensures VolumeNamed(vs + ws, name) == VolumeNamed(vs, name)
  {
    assert (vs + ws)[1..] == vs[1..] + ws;
    if vs[0].name != name {
      VolumeBefore(vs[1..], ws, name);
    }
  }

  /** The other volumes' names are not Secret names. */
  lemma NotASecret(c: string, n: SecretName)
    ensures Secret(c, n) !in {"kubeconfig", "egress-selector", UDS}
  {
    var s := Secret(c, n);
    assert s[|c|] == '-' && |s| == |c| + 1 + |SecretSuffix(n)|;
    SecretShaped(n);
    Dashes(|c|);
  }

  lemma Dashes(i: nat)
    ensures i < 10 ==> "kubeconfig"[i] != '-'
    ensures i < 15 && "egress-selector"[i] == '-' ==> i == 6
    ensures i < 16 && UDS[i] == '-' ==> i == 12
  {
  }
}
