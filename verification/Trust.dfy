/**
  Paths and trust, end to end: from a flag through the container's mounts and the pod's volumes to the generated Secret
  and the certificate in it, and from there to who trusts whom at which host.
 */
module Trust {
  import opened Optional
  import opened Names
  import opened Pki
  import opened Templates
  import opened Mounts
  import opened Workloads

  // ---------------------------------------------------------------- the containers are wired

  lemma {:induction false} SecretVolumesJoin(c: string, ms: seq<SecretName>, ns: seq<SecretName>)
    ensures SecretVolumes(c, ms + ns) == SecretVolumes(c, ms) + SecretVolumes(c, ns)
  {
  }

  lemma WiredBy(c: Cluster, t: Template, ct: Container, fixed: seq<Mount>, ns: seq<SecretName>, others: seq<Volume>,
                all: seq<SecretName>)
    requires Slashless(c.name) && ct in t.containers
    requires ct.mounts == fixed + SecretMounts(c.name, ns) && forall m :: m in fixed ==> Elsewhere(m)
    requires t.volumes == others + SecretVolumes(c.name, all)
    requires forall v :: v in others ==> v.name in {"kubeconfig", "egress-selector", UDS}
    requires forall n :: n in ns ==> n in all
    ensures Wired(c, t, ct, ns)
  {
    forall n | n in ns
      ensures SecretMount(c.name, n) in ct.mounts
      ensures VolumeNamed(t.volumes, Secret(c.name, n)) == Some(SecretVolumeOf(c.name, n))
    {
      var i :| 0 <= i < |ns| && ns[i] == n;
      assert SecretMounts(c.name, ns)[i] == SecretMount(c.name, n);
      NotASecret(c.name, n);
      VolumeAfter(others, SecretVolumes(c.name, all), Secret(c.name, n));
      SecretVolumeFound(c.name, all, n);
    }
  }

  const APISERVER_ALL: seq<SecretName> := APISERVER_SECRETS + KONNECTIVITY_SECRETS

  ghost predicate HasArgs(c: Cluster, ct: Container, us: seq<Use>) {
    forall u :: u in us ==> SecretArg(c, u) in ct.args
  }

  lemma ArgsFrom(c: Cluster, ct: Container, others: seq<Arg>, us: seq<Use>)
    requires ct.args == others + SecretArgs(c, us)
    ensures HasArgs(c, ct, us)
  {
  }

  // What the proofs below need to know of each container, and that the builders' containers are so.

  ghost predicate RunsApiserver(c: Cluster, t: Template, ct: Container) {
    && Wired(c, t, ct, APISERVER_SECRETS) && HasArgs(c, ct, APISERVER_USES)
    && Url("--etcd-servers", EtcdHost(c), "2379") in ct.args
  }

  ghost predicate RunsKonnectivity(c: Cluster, t: Template, ct: Container) {
    && Wired(c, t, ct, KONNECTIVITY_SECRETS) && HasArgs(c, ct, KONNECTIVITY_USES)
    && KONNECTIVITY_ARGS <= ct.args
  }

  ghost predicate RunsControllerManager(c: Cluster, t: Template, ct: Container) {
    Wired(c, t, ct, CM_SECRETS) && HasArgs(c, ct, CM_USES)
  }

  ghost predicate RunsScheduler(c: Cluster, t: Template, ct: Container) {
    Wired(c, t, ct, SCHEDULER_SECRETS)
  }

  ghost predicate RunsEtcd(c: Cluster, t: Template, ct: Container) {
    && Wired(c, t, ct, ETCD_SECRETS) && HasArgs(c, ct, ETCD_USES)
    && Url("--initial-advertise-peer-urls", EtcdHost(c), "2380") in ct.args
    && Url("--endpoints", "localhost", "2379") in ct.args
  }

  function SharedVolumes(c: Cluster): seq<Volume> {
    [EmptyDirVolume(UDS), EgressVolume(c)]
  }

  lemma ApiserverPod(c: Cluster)
    ensures ApiserverDeployment(c).containers == [ApiserverFinal(c), KonnectivityFinal(c)]
    ensures ApiserverDeployment(c).volumes == SharedVolumes(c) + SecretVolumes(c.name, APISERVER_ALL)
  {
    ApiserverBuilt(c);
    ApiserverVolumesAre(c, SecretVolumes(c.name, APISERVER_SECRETS), SecretVolumes(c.name, KONNECTIVITY_SECRETS));
  }

  lemma ApiserverVolumesAre(c: Cluster, vs: seq<Volume>, ws: seq<Volume>)
    requires vs == SecretVolumes(c.name, APISERVER_SECRETS) && ws == SecretVolumes(c.name, KONNECTIVITY_SECRETS)
    ensures ApiserverVolumes(c) == SharedVolumes(c) + SecretVolumes(c.name, APISERVER_ALL)
  {
    SecretVolumesJoin(c.name, APISERVER_SECRETS, KONNECTIVITY_SECRETS);
    assert SharedVolumes(c) + vs + ws == SharedVolumes(c) + (vs + ws);
  }

  lemma ApiserverWired(c: Cluster)
    requires Slashless(c.name)
    ensures Wired(c, ApiserverDeployment(c), ApiserverFinal(c), APISERVER_SECRETS)
  {
    ApiserverPod(c);
    SharedNames(c);
    WiredBy(c, ApiserverDeployment(c), ApiserverFinal(c), [EGRESS_MOUNT, UDS_MOUNT], APISERVER_SECRETS,
            SharedVolumes(c), APISERVER_ALL);
  }

  lemma SharedNames(c: Cluster)
    ensures Elsewhere(EGRESS_MOUNT) && Elsewhere(UDS_MOUNT)
    ensures forall v :: v in SharedVolumes(c) ==> v.name in {"kubeconfig", "egress-selector", UDS}
  {
  }

  lemma ApiserverRuns(c: Cluster)
    requires Slashless(c.name)
    ensures RunsApiserver(c, ApiserverDeployment(c), ApiserverFinal(c))
  {
    var ct := ApiserverFinal(c);
    ApiserverWired(c);
    ArgsFrom(c, ct, ApiserverArgs(c), APISERVER_USES);
    assert ct.args[1] == Url("--etcd-servers", EtcdHost(c), "2379");
  }

  lemma KonnectivityRuns(c: Cluster)
    requires Slashless(c.name)
    ensures RunsKonnectivity(c, ApiserverDeployment(c), KonnectivityFinal(c))
  {
    var ct := KonnectivityFinal(c);
    ApiserverPod(c);
    WiredBy(c, ApiserverDeployment(c), ct, [UDS_MOUNT], KONNECTIVITY_SECRETS, SharedVolumes(c), APISERVER_ALL);
    ArgsFrom(c, ct, KONNECTIVITY_ARGS, KONNECTIVITY_USES);
  }

  lemma ControllerManagerRuns(c: Cluster)
    requires Slashless(c.name)
    ensures RunsControllerManager(c, CMDeployment(c), CMFinal(c))
  {
    CMBuilt(c);
    WiredBy(c, CMDeployment(c), CMFinal(c), [KUBECONFIG_MOUNT], CM_SECRETS, CMVolumes(c)[..1], CM_SECRETS);
    ArgsFrom(c, CMFinal(c), CMFinal(c).args[..4], CM_USES);
  }

  lemma SchedulerRuns(c: Cluster)
    requires Slashless(c.name)
    ensures RunsScheduler(c, SchedulerDeployment(c), SchedulerFinal(c))
  {
    SchedulerBuilt(c);
    WiredBy(c, SchedulerDeployment(c), SchedulerFinal(c), [KUBECONFIG_MOUNT], SCHEDULER_SECRETS,
            SchedulerVolumes(c)[..1],
            SCHEDULER_SECRETS);
  }

  lemma EtcdWired(c: Cluster)
    requires Slashless(c.name)
    ensures Wired(c, EtcdStatefulSet(c), EtcdContainer(c), ETCD_SECRETS)
  {
    EtcdBuilt(c);
    assert [] + SecretVolumes(c.name, ETCD_SECRETS) == SecretVolumes(c.name, ETCD_SECRETS);
    WiredBy(c, EtcdStatefulSet(c), EtcdContainer(c), EtcdMounts(c)[..1], ETCD_SECRETS, [], ETCD_SECRETS);
  }

  lemma EtcdRuns(c: Cluster)
    requires Slashless(c.name)
    ensures RunsEtcd(c, EtcdStatefulSet(c), EtcdContainer(c))
  {
    var ct := EtcdContainer(c);
    EtcdWired(c);
    ArgsFrom(c, ct, EtcdArgs(c), ETCD_USES);
    assert ct.args[1] == Url("--endpoints", "localhost", "2379");
    assert ct.args[2] == Url("--initial-advertise-peer-urls", EtcdHost(c), "2380");
  }

  // ---------------------------------------------------------------- reading a flag

  function PemOf(c: Cluster, n: SecretName, f: PemFile): Pem
    requires Certified(n)
  {
    match f
    case Crt => CertOf(Secret(c.name, n))
    case Key => KeyOf(Secret(c.name, n))
    case CACrt => CertOf(Secret(c.name, Signer(n)))
  }

  /** A path in the container is a file the certificate manager writes, with this content. */
  ghost predicate Holds(c: Cluster, t: Template, ct: Container, path: string, pem: Pem) {
    var r := Resolve(t, ct, path);
    r.Some? && r.value.SecretFile? && Written(c, r.value.secret, r.value.file) == Some(pem)
  }

  lemma UseHolds(c: Cluster, t: Template, ct: Container, ns: seq<SecretName>, u: Use)
    requires Wired(c, t, ct, ns) && u.secret in ns && Certified(u.secret)
    ensures Holds(c, t, ct, UsePath(c, u), PemOf(c, u.secret, u.file))
  {
    ResolvesSecret(c.name, t, ct, ns, u.secret, FileName(u.file));
    WrittenAre(c, u.secret);
  }

  /** The container has the flag, and it names a file with this content. */
  ghost predicate FlagHolds(c: Cluster, t: Template, ct: Container, u: Use, pem: Pem) {
    SecretArg(c, u) in ct.args && Holds(c, t, ct, UsePath(c, u), pem)
  }

  // ---------------------------------------------------------------- who trusts whom

  /** One end of a connection: what it presents, and the CA it checks the other end against. */
  datatype Side = Side(cert: Pem, key: Pem, trusted: Pem)

  function CertificateIn(c: Cluster, p: Pem): Option<Certificate> {
    if p.CertOf? then FindCertificate(Certificates(c), p.secret) else None
  }

  /** The presented certificate comes with its key, may be used so, and is signed by the trusted CA. */
  ghost predicate Authenticates(c: Cluster, cert: Pem, key: Pem, trusted: Pem, usage: Usage) {
    && CertificateIn(c, cert).Some? && usage in CertificateIn(c, cert).value.usages
    && key == KeyOf(cert.secret)
    && Written(c, cert.secret, "ca.crt") == Some(trusted)
    && CertificateIn(c, trusted).Some? && CertificateIn(c, trusted).value.isCA
  }

  /** Both ends authenticate, and the server's certificate is for the host that is dialled. */
  ghost predicate Mutual(c: Cluster, client: Side, server: Side, host: string) {
    && Authenticates(c, client.cert, client.key, server.trusted, ClientAuth)
    && Authenticates(c, server.cert, server.key, client.trusted, ServerAuth)
    && (host in CertificateIn(c, server.cert).value.dns || host in CertificateIn(c, server.cert).value.ips)
  }

  /** The container's three flags hold one side. */
  ghost predicate Configured(c: Cluster, t: Template, ct: Container, cert: Use, key: Use, trusted: Use, side: Side) {
    FlagHolds(c, t, ct, cert, side.cert) && FlagHolds(c, t, ct, key, side.key) &&
    FlagHolds(c, t, ct, trusted, side.trusted)
  }

  function SideOf(c: Cluster, n: SecretName, trusted: SecretName): Side {
    Side(CertOf(Secret(c.name, n)), KeyOf(Secret(c.name, n)), CertOf(Secret(c.name, trusted)))
  }

  predicate IsClient(n: SecretName) {
    n.APIServerEtcdClient? || n.EtcdHealthClient? || n.EtcdPeerTLS? || n.CMClient? || n.SchedulerClient? ||
    n.AdminClient?
    || n.KonnectivityAgentTLS?
  }

  predicate IsServer(n: SecretName) {
    n.EtcdServerTLS? || n.EtcdPeerTLS? || n.APIServerTLS? || n.KonnectivityServerTLS?
  }

  lemma UsagesOf(c: Cluster, n: SecretName)
    ensures IsClient(n) ==> ClientAuth in CertificateOf(c, n).usages
    ensures IsServer(n) ==> ServerAuth in CertificateOf(c, n).usages
  {
  }

  ghost predicate NamesHost(c: Cluster, n: SecretName, host: string) {
    Certified(n) && (host in CertificateOf(c, n).dns || host in CertificateOf(c, n).ips)
  }

  lemma Authentic(c: Cluster, n: SecretName, usage: Usage)
    requires Certified(n) && usage in CertificateOf(c, n).usages
    ensures Authenticates(c, CertOf(Secret(c.name, n)), KeyOf(Secret(c.name, n)), CertOf(Secret(c.name, Signer(n))),
                          usage)
    ensures CertificateIn(c, CertOf(Secret(c.name, n))) == Some(CertificateOf(c, n))
  {
    ReferencesClose(c, n);
    WrittenAre(c, n);
  }

  lemma MutuallyTrusted(c: Cluster, client: SecretName, server: SecretName, host: string)
    requires IsClient(client) && IsServer(server) && NamesHost(c, server, host)
    ensures Mutual(c, SideOf(c, client, Signer(server)), SideOf(c, server, Signer(client)), host)
  {
    UsagesOf(c, client);
    UsagesOf(c, server);
    Authentic(c, client, ClientAuth);
    Authentic(c, server, ServerAuth);
  }

  lemma EtcdHostNamed(c: Cluster)
    ensures EtcdHost(c) == EtcdNames(c)[0] && "localhost" == EtcdNames(c)[4]
  {
  }

  lemma EtcdNamed(c: Cluster, n: SecretName)
    requires n.EtcdServerTLS? || n.EtcdPeerTLS?
    ensures NamesHost(c, n, EtcdHost(c)) && NamesHost(c, n, "localhost")
  {
    EtcdHostNamed(c);
    EtcdDns(c, n);
    assert EtcdNames(c)[0] in EtcdNames(c) && EtcdNames(c)[4] in EtcdNames(c);
  }

  lemma EtcdDns(c: Cluster, n: SecretName)
    requires n.EtcdServerTLS? || n.EtcdPeerTLS?
    ensures CertificateOf(c, n).dns == EtcdNames(c)
  {
  }

  lemma ApiserverNamed(c: Cluster)
    ensures NamesHost(c, APIServerTLS, ServiceHost(c))
  {
  }

  // ---------------------------------------------------------------- the connections

  lemma OwnSide(c: Cluster, t: Template, ct: Container, ns: seq<SecretName>, us: seq<Use>, cert: Use, key: Use,
                trusted: Use)
    requires Wired(c, t, ct, ns) && HasArgs(c, ct, us) && cert in us && key in us && trusted in us
    requires cert.secret in ns && Certified(cert.secret) && cert.file.Crt?
    requires key.secret == cert.secret && key.file.Key?
    requires trusted.secret in ns && Certified(trusted.secret) && Signer(trusted.secret) == trusted.secret &&
             !trusted.file.Key?
    ensures Configured(c, t, ct, cert, key, trusted, SideOf(c, cert.secret, trusted.secret))
  {
    UseHolds(c, t, ct, ns, cert);
    UseHolds(c, t, ct, ns, key);
    UseHolds(c, t, ct, ns, trusted);
  }

  const SERVING_CERT := Use("--tls-cert-file", APIServerTLS, Crt)
  const SERVING_KEY := Use("--tls-private-key-file", APIServerTLS, Key)
  const CLIENT_CA := Use("--client-ca-file", ManagedCA, Crt)

  lemma ApiserverServes(c: Cluster, t: Template, ct: Container)
    requires RunsApiserver(c, t, ct)
    ensures Configured(c, t, ct, SERVING_CERT, SERVING_KEY, CLIENT_CA, SideOf(c, APIServerTLS, ManagedCA))
  {
    assert APISERVER_USES[4] == SERVING_CERT && APISERVER_USES[5] == SERVING_KEY && APISERVER_USES[3] == CLIENT_CA;
    assert APISERVER_SECRETS[0] == ManagedCA && APISERVER_SECRETS[1] == APIServerTLS;
    OwnSide(c, t, ct, APISERVER_SECRETS, APISERVER_USES, SERVING_CERT, SERVING_KEY, CLIENT_CA);
  }

  const ETCD_CLIENT_CERT := Use("--etcd-certfile", APIServerEtcdClient, Crt)
  const ETCD_CLIENT_KEY := Use("--etcd-keyfile", APIServerEtcdClient, Key)
  const ETCD_CA := Use("--etcd-cafile", EtcdCA, CACrt)

  lemma ApiserverDialsEtcd(c: Cluster, t: Template, ct: Container)
    requires RunsApiserver(c, t, ct)
    ensures Configured(c, t, ct, ETCD_CLIENT_CERT, ETCD_CLIENT_KEY, ETCD_CA, SideOf(c, APIServerEtcdClient, EtcdCA))
  {
    assert APISERVER_USES[1] == ETCD_CLIENT_CERT && APISERVER_USES[2] == ETCD_CLIENT_KEY &&
           APISERVER_USES[0] == ETCD_CA;
    assert APISERVER_SECRETS[2] == EtcdCA && APISERVER_SECRETS[3] == APIServerEtcdClient;
    OwnSide(c, t, ct, APISERVER_SECRETS, APISERVER_USES, ETCD_CLIENT_CERT, ETCD_CLIENT_KEY, ETCD_CA);
  }

  const TUNNEL_CERT := Use("--cluster-cert", KonnectivityServerTLS, Crt)
  const TUNNEL_KEY := Use("--cluster-key", KonnectivityServerTLS, Key)
  const TUNNEL_CA := Use("--cluster-ca-cert", KonnectivityCA, CACrt)

  lemma KonnectivityServes(c: Cluster, t: Template, ct: Container)
    requires RunsKonnectivity(c, t, ct)
    ensures Configured(c, t, ct, TUNNEL_CERT, TUNNEL_KEY, TUNNEL_CA, SideOf(c, KonnectivityServerTLS, KonnectivityCA))
  {
    assert KONNECTIVITY_USES[0] == TUNNEL_CERT && KONNECTIVITY_USES[1] == TUNNEL_KEY &&
           KONNECTIVITY_USES[2] == TUNNEL_CA;
    assert KONNECTIVITY_SECRETS[0] == KonnectivityServerTLS && KONNECTIVITY_SECRETS[1] == KonnectivityCA;
    OwnSide(c, t, ct, KONNECTIVITY_SECRETS, KONNECTIVITY_USES, TUNNEL_CERT, TUNNEL_KEY, TUNNEL_CA);
  }

  const MEMBER_CERT := Use("--cert-file", EtcdServerTLS, Crt)
  const MEMBER_KEY := Use("--key-file", EtcdServerTLS, Key)
  const MEMBER_CA := Use("--trusted-ca-file", EtcdCA, CACrt)
  const PEER_CERT := Use("--peer-cert-file", EtcdPeerTLS, Crt)
  const PEER_KEY := Use("--peer-key-file", EtcdPeerTLS, Key)
  const PEER_CA := Use("--peer-trusted-ca-file", EtcdCA, CACrt)
  const PROBE_CERT := Use("--cert", EtcdHealthClient, Crt)
  const PROBE_KEY := Use("--key", EtcdHealthClient, Key)
  const PROBE_CA := Use("--cacert", EtcdCA, CACrt)

  lemma EtcdServes(c: Cluster, t: Template, ct: Container)
    requires RunsEtcd(c, t, ct)
    ensures Configured(c, t, ct, MEMBER_CERT, MEMBER_KEY, MEMBER_CA, SideOf(c, EtcdServerTLS, EtcdCA))
  {
    assert ETCD_USES[1] == MEMBER_CERT && ETCD_USES[2] == MEMBER_KEY && ETCD_USES[0] == MEMBER_CA;
    assert ETCD_SECRETS[0] == EtcdCA && ETCD_SECRETS[1] == EtcdServerTLS;
    OwnSide(c, t, ct, ETCD_SECRETS, ETCD_USES, MEMBER_CERT, MEMBER_KEY, MEMBER_CA);
  }

  lemma EtcdPeers(c: Cluster, t: Template, ct: Container)
    requires RunsEtcd(c, t, ct)
    ensures Configured(c, t, ct, PEER_CERT, PEER_KEY, PEER_CA, SideOf(c, EtcdPeerTLS, EtcdCA))
  {
    assert ETCD_USES[4] == PEER_CERT && ETCD_USES[5] == PEER_KEY && ETCD_USES[3] == PEER_CA;
    assert ETCD_SECRETS[0] == EtcdCA && ETCD_SECRETS[2] == EtcdPeerTLS;
    OwnSide(c, t, ct, ETCD_SECRETS, ETCD_USES, PEER_CERT, PEER_KEY, PEER_CA);
  }

  lemma EtcdProbes(c: Cluster, t: Template, ct: Container)
    requires RunsEtcd(c, t, ct)
    ensures Configured(c, t, ct, PROBE_CERT, PROBE_KEY, PROBE_CA, SideOf(c, EtcdHealthClient, EtcdCA))
  {
    assert ETCD_USES[7] == PROBE_CERT && ETCD_USES[8] == PROBE_KEY && ETCD_USES[6] == PROBE_CA;
    assert ETCD_SECRETS[0] == EtcdCA && ETCD_SECRETS[3] == EtcdHealthClient;
    OwnSide(c, t, ct, ETCD_SECRETS, ETCD_USES, PROBE_CERT, PROBE_KEY, PROBE_CA);
  }

  lemma EtcdTrusts(c: Cluster, client: SecretName, server: SecretName)
    requires IsClient(client) && Signer(client) == EtcdCA && (server.EtcdServerTLS? || server.EtcdPeerTLS?)
    ensures Mutual(c, SideOf(c, client, EtcdCA), SideOf(c, server, EtcdCA), EtcdHost(c))
    ensures Mutual(c, SideOf(c, client, EtcdCA), SideOf(c, server, EtcdCA), "localhost")
  {
    EtcdNamed(c, server);
    MutuallyTrusted(c, client, server, EtcdHost(c));
    MutuallyTrusted(c, client, server, "localhost");
  }

  lemma EtcdTrustsApiserver(c: Cluster)
    ensures Mutual(c, SideOf(c, APIServerEtcdClient, EtcdCA), SideOf(c, EtcdServerTLS, EtcdCA), EtcdHost(c))
  {
    EtcdTrusts(c, APIServerEtcdClient, EtcdServerTLS);
  }

  lemma EtcdTrustsProbe(c: Cluster)
    ensures Mutual(c, SideOf(c, EtcdHealthClient, EtcdCA), SideOf(c, EtcdServerTLS, EtcdCA), "localhost")
  {
    EtcdTrusts(c, EtcdHealthClient, EtcdServerTLS);
  }

  lemma EtcdTrustsPeer(c: Cluster)
    ensures Mutual(c, SideOf(c, EtcdPeerTLS, EtcdCA), SideOf(c, EtcdPeerTLS, EtcdCA), EtcdHost(c))
  {
    EtcdTrusts(c, EtcdPeerTLS, EtcdPeerTLS);
  }

  /** The API server and etcd, at the URL the API server is given. */
  lemma ApiserverReachesEtcd(c: Cluster, a: Template, ac: Container, e: Template, ec: Container)
    requires RunsApiserver(c, a, ac) && RunsEtcd(c, e, ec)
    ensures var client, server := SideOf(c, APIServerEtcdClient, EtcdCA), SideOf(c, EtcdServerTLS, EtcdCA);
            && Configured(c, a, ac, ETCD_CLIENT_CERT, ETCD_CLIENT_KEY, ETCD_CA, client)
            && Configured(c, e, ec, MEMBER_CERT, MEMBER_KEY, MEMBER_CA, server)
            && Url("--etcd-servers", EtcdHost(c), "2379") in ac.args
            && Mutual(c, client, server, EtcdHost(c))
  {
    ApiserverDialsEtcd(c, a, ac);
    EtcdServes(c, e, ec);
    EtcdTrustsApiserver(c);
  }

  /** The probe of etcd at localhost, and etcd's peers at the name they advertise. */
  lemma EtcdReachesItself(c: Cluster, e: Template, ec: Container)
    requires RunsEtcd(c, e, ec)
    ensures Configured(c, e, ec, MEMBER_CERT, MEMBER_KEY, MEMBER_CA, SideOf(c, EtcdServerTLS, EtcdCA))
    ensures Configured(c, e, ec, PROBE_CERT, PROBE_KEY, PROBE_CA, SideOf(c, EtcdHealthClient, EtcdCA))
    ensures Configured(c, e, ec, PEER_CERT, PEER_KEY, PEER_CA, SideOf(c, EtcdPeerTLS, EtcdCA))
    ensures Mutual(c, SideOf(c, EtcdHealthClient, EtcdCA), SideOf(c, EtcdServerTLS, EtcdCA), "localhost")
    ensures Mutual(c, SideOf(c, EtcdPeerTLS, EtcdCA), SideOf(c, EtcdPeerTLS, EtcdCA), EtcdHost(c))
  {
    EtcdServes(c, e, ec);
    EtcdPeers(c, e, ec);
    EtcdProbes(c, e, ec);
    EtcdTrustsProbe(c);
    EtcdTrustsPeer(c);
  }

  /** The files a kubeconfig names, in the container that reads it, hold this side. */
  ghost predicate KubeconfigHolds(c: Cluster, t: Template, ct: Container, k: Kubeconfig, side: Side) {
    && Holds(c, t, ct, UsePath(c, k.cert), side.cert)
    && Holds(c, t, ct, UsePath(c, k.key), side.key)
    && Holds(c, t, ct, UsePath(c, k.authority), side.trusted)
  }

  lemma ComponentHolds(c: Cluster, t: Template, ct: Container, ns: seq<SecretName>, client: SecretName)
    requires Wired(c, t, ct, ns) && ManagedCA in ns && client in ns && Certified(client)
    ensures KubeconfigHolds(c, t, ct, ComponentKubeconfig(c, client), SideOf(c, client, ManagedCA))
  {
    var k := ComponentKubeconfig(c, client);
    UseHolds(c, t, ct, ns, k.authority);
    UseHolds(c, t, ct, ns, k.cert);
    UseHolds(c, t, ct, ns, k.key);
  }

  lemma ApiserverTrusts(c: Cluster, client: SecretName)
    requires IsClient(client) && Signer(client) == ManagedCA
    ensures Mutual(c, SideOf(c, client, ManagedCA), SideOf(c, APIServerTLS, ManagedCA), ServiceHost(c))
  {
    ApiserverNamed(c);
    MutuallyTrusted(c, client, APIServerTLS, ServiceHost(c));
  }

  lemma ApiserverTrustsManager(c: Cluster)
    ensures Mutual(c, SideOf(c, CMClient, ManagedCA), SideOf(c, APIServerTLS, ManagedCA), ServiceHost(c))
  {
    ApiserverTrusts(c, CMClient);
  }

  lemma ApiserverTrustsScheduler(c: Cluster)
    ensures Mutual(c, SideOf(c, SchedulerClient, ManagedCA), SideOf(c, APIServerTLS, ManagedCA), ServiceHost(c))
  {
    ApiserverTrusts(c, SchedulerClient);
  }

  /** The controller manager with its kubeconfig, at the API server's service name. */
  lemma ControllerManagerReachesApiserver(c: Cluster, m: Template, mc: Container, a: Template, ac: Container)
    requires RunsControllerManager(c, m, mc) && RunsApiserver(c, a, ac)
    ensures var client, server := SideOf(c, CMClient, ManagedCA), SideOf(c, APIServerTLS, ManagedCA);
            && KubeconfigHolds(c, m, mc, ComponentKubeconfig(c, CMClient), client)
            && Configured(c, a, ac, SERVING_CERT, SERVING_KEY, CLIENT_CA, server)
            && Mutual(c, client, server, ComponentKubeconfig(c, CMClient).host)
  {
    assert CM_SECRETS[0] == ManagedCA && CM_SECRETS[1] == CMClient;
    ComponentHolds(c, m, mc, CM_SECRETS, CMClient);
    ApiserverServes(c, a, ac);
    ApiserverTrustsManager(c);
  }

  lemma SchedulerReachesApiserver(c: Cluster, s: Template, sc: Container, a: Template, ac: Container)
    requires RunsScheduler(c, s, sc) && RunsApiserver(c, a, ac)
    ensures var client, server := SideOf(c, SchedulerClient, ManagedCA), SideOf(c, APIServerTLS, ManagedCA);
            && KubeconfigHolds(c, s, sc, ComponentKubeconfig(c, SchedulerClient), client)
            && Configured(c, a, ac, SERVING_CERT, SERVING_KEY, CLIENT_CA, server)
            && Mutual(c, client, server, ComponentKubeconfig(c, SchedulerClient).host)
  {
    assert SCHEDULER_SECRETS[0] == ManagedCA && SCHEDULER_SECRETS[1] == SchedulerClient;
    ComponentHolds(c, s, sc, SCHEDULER_SECRETS, SchedulerClient);
    ApiserverServes(c, a, ac);
    ApiserverTrustsScheduler(c);
  }

  // ---------------------------------------------------------------- the published address

  /** The published address is among the server names of the API server and of the konnectivity server. */
  lemma AddressNamed(c: Cluster, n: SecretName)
    requires c.address != "" && (n.APIServerTLS? || n.KonnectivityServerTLS?)
    ensures NamesHost(c, n, c.address)
    ensures if c.addressIsIp then c.address in CertificateOf(c, n).ips else c.address in CertificateOf(c, n).dns
  {
  }

  lemma AddressTrusts(c: Cluster, client: SecretName, server: SecretName, ca: SecretName)
    requires c.address != "" && IsClient(client) && (server.APIServerTLS? || server.KonnectivityServerTLS?)
    requires Signer(client) == ca && Signer(server) == ca
    ensures Mutual(c, SideOf(c, client, ca), SideOf(c, server, ca), c.address)
  {
    AddressNamed(c, server);
    MutuallyTrusted(c, client, server, c.address);
  }

  /** A kubeconfig with its files inside. */
  datatype Embedded = Embedded(server: string, authority: Pem, cert: Pem, key: Pem)

  /** What reconcileAdminConfig writes, once there is an address and the admin client Secret has its three files. */
  function AdminKubeconfig(c: Cluster): Option<Embedded> {
    var admin := Secret(c.name, AdminClient);
    var ca, crt, key := Written(c, admin, "ca.crt"), Written(c, admin, "tls.crt"), Written(c, admin, "tls.key");
    if c.address == "" || ca.None? || crt.None? || key.None? then None
    else Some(Embedded("https://" + c.address + ":6443", ca.value, crt.value, key.value))
  }

  /** The admin kubeconfig, made of the admin client Secret's three files, at the published address. */
  lemma AdminReachesApiserver(c: Cluster, a: Template, ac: Container)
    requires RunsApiserver(c, a, ac) && c.address != ""
    ensures AdminKubeconfig(c) ==
            Some(Embedded("https://" + c.address + ":6443", CertOf(Secret(c.name, ManagedCA)),
                          CertOf(Secret(c.name, AdminClient)), KeyOf(Secret(c.name, AdminClient))))
    ensures var admin, client, server := Secret(c.name, AdminClient), SideOf(c, AdminClient, ManagedCA),
                                         SideOf(c, APIServerTLS, ManagedCA);
            && Written(c, admin, "tls.crt") == Some(client.cert)
            && Written(c, admin, "tls.key") == Some(client.key)
            && Written(c, admin, "ca.crt") == Some(client.trusted)
            && Configured(c, a, ac, SERVING_CERT, SERVING_KEY, CLIENT_CA, server)
            && Mutual(c, client, server, c.address)
  {
    ApiserverServes(c, a, ac);
    WrittenAre(c, AdminClient);
    AdminTrusted(c);
  }

  lemma AdminTrusted(c: Cluster)
    requires c.address != ""
    ensures Mutual(c, SideOf(c, AdminClient, ManagedCA), SideOf(c, APIServerTLS, ManagedCA), c.address)
  {
    AddressTrusts(c, AdminClient, APIServerTLS, ManagedCA);
  }

  /** The konnectivity agents, at the published address. */
  lemma AgentTrusted(c: Cluster)
    requires c.address != ""
    ensures Mutual(c, SideOf(c, KonnectivityAgentTLS, KonnectivityCA), SideOf(c, KonnectivityServerTLS, KonnectivityCA),
                   c.address)
  {
    AddressTrusts(c, KonnectivityAgentTLS, KonnectivityServerTLS, KonnectivityCA);
  }

  // ---------------------------------------------------------------- what the certificates allow

  /** Every certificate may do what its bearer does and no more: only four can serve, and a CA can only sign. */
  lemma UsagesExactly(c: Cluster, n: SecretName)
    requires Certified(n)
    ensures var x := CertificateOf(c, n);
            && (x.isCA <==> n in {ManagedCA, EtcdCA, FrontProxyCA, KonnectivityCA})
            && (x.isCA ==> x.usages == {})
            && (!x.isCA ==> DigitalSignature in x.usages && KeyEncipherment in x.usages)
            && (ServerAuth in x.usages <==> n in {APIServerTLS, KonnectivityServerTLS, EtcdServerTLS, EtcdPeerTLS})
            && (ClientAuth in x.usages <==> !x.isCA && n !in {SASigner, APIServerTLS, KonnectivityServerTLS})
  {
  }

  /** Only two certificates make their bearer an administrator of the cluster. */
  lemma Administrators(c: Cluster, n: SecretName)
    requires Certified(n)
    ensures "system:masters" in CertificateOf(c, n).organizations <==> n.AdminClient? || n.APIServerKubeletClient?
  {
  }

  /** Among the clients of the managed CA, the users that the API server's default policy knows are these two. */
  lemma KnownUsers(c: Cluster, n: SecretName)
    requires Certified(n) && Signer(n) == ManagedCA
    ensures CertificateOf(c, n).commonName == "system:kube-controller-manager" <==> n.CMClient?
    ensures CertificateOf(c, n).commonName == "system:kube-scheduler" <==> n.SchedulerClient?
  {
  }

  /** A common name has at most 64 characters (RFC 5280, appendix A.1), whatever the control plane is called. */
  lemma CommonNameFits(c: Cluster, n: SecretName)
    requires Certified(n)
    ensures |CertificateOf(c, n).commonName| <= 64
    ensures n.EtcdServerTLS? || n.EtcdPeerTLS? ==>
              CertificateOf(c, n).commonName <= EtcdPod(c) &&
              (|EtcdPod(c)| <= 64 ==> CertificateOf(c, n).commonName == EtcdPod(c))
  {
    if n.EtcdServerTLS? || n.EtcdPeerTLS? { MemberName(c, n); }
  }

  lemma MemberName(c: Cluster, n: SecretName)
    requires n.EtcdServerTLS? || n.EtcdPeerTLS?
    ensures CertificateOf(c, n).commonName == Truncated(EtcdPod(c))
  {
  }

  // ---------------------------------------------------------------- kubelets and service accounts

  const KUBELET_CERT := Use("--kubelet-client-certificate", APIServerKubeletClient, Crt)
  const KUBELET_KEY := Use("--kubelet-client-key", APIServerKubeletClient, Key)

  lemma KubeletCertificate(c: Cluster)
    ensures Authenticates(c, CertOf(Secret(c.name, APIServerKubeletClient)),
                          KeyOf(Secret(c.name, APIServerKubeletClient)),
                          CertOf(Secret(c.name, ManagedCA)), ClientAuth)
  {
    assert ClientAuth in CertificateOf(c, APIServerKubeletClient).usages;
    Authentic(c, APIServerKubeletClient, ClientAuth);
  }

  /** What the API server presents to kubelets is signed by the CA that they are given, the managed CA's ca.crt. */
  lemma ApiserverReachesKubelets(c: Cluster, a: Template, ac: Container)
    requires RunsApiserver(c, a, ac)
    ensures var cert, key, ca := CertOf(Secret(c.name, APIServerKubeletClient)),
                                 KeyOf(Secret(c.name, APIServerKubeletClient)),
                                 CertOf(Secret(c.name, ManagedCA));
            && FlagHolds(c, a, ac, KUBELET_CERT, cert) && FlagHolds(c, a, ac, KUBELET_KEY, key)
            && Written(c, Secret(c.name, ManagedCA), "ca.crt") == Some(ca)
            && Authenticates(c, cert, key, ca, ClientAuth)
  {
    assert APISERVER_USES[6] == KUBELET_CERT && APISERVER_USES[7] == KUBELET_KEY &&
           APISERVER_SECRETS[4] == APIServerKubeletClient;
    UseHolds(c, a, ac, APISERVER_SECRETS, KUBELET_CERT);
    UseHolds(c, a, ac, APISERVER_SECRETS, KUBELET_KEY);
    WrittenAre(c, ManagedCA);
    KubeletCertificate(c);
  }

  const TOKEN_CERT := Use("--service-account-key-file", SASigner, Crt)
  const TOKEN_KEY := Use("--service-account-signing-key-file", SASigner, Key)
  const MANAGER_TOKEN_KEY := Use("--service-account-private-key-file", SASigner, Key)

  /** Service account tokens: both components sign with one key, and the API server verifies with its certificate. */
  lemma TokensVerify(c: Cluster, a: Template, ac: Container, m: Template, mc: Container)
    requires RunsApiserver(c, a, ac) && RunsControllerManager(c, m, mc)
    ensures FlagHolds(c, a, ac, TOKEN_CERT, CertOf(Secret(c.name, SASigner)))
    ensures FlagHolds(c, a, ac, TOKEN_KEY, KeyOf(Secret(c.name, SASigner)))
    ensures FlagHolds(c, m, mc, MANAGER_TOKEN_KEY, KeyOf(Secret(c.name, SASigner)))
  {
    assert APISERVER_USES[8] == TOKEN_CERT && APISERVER_USES[9] == TOKEN_KEY && APISERVER_SECRETS[5] == SASigner;
    assert CM_USES[0] == MANAGER_TOKEN_KEY && CM_SECRETS[2] == SASigner;
    UseHolds(c, a, ac, APISERVER_SECRETS, TOKEN_CERT);
    UseHolds(c, a, ac, APISERVER_SECRETS, TOKEN_KEY);
    UseHolds(c, m, mc, CM_SECRETS, MANAGER_TOKEN_KEY);
  }

  const ROOT_CA := Use("--root-ca-file", ManagedCA, Crt)
  const MANAGER_CLIENT_CA := Use("--client-ca-file", ManagedCA, Crt)

  /** The CA that the controller manager gives to every pod is the one that signed the API server's certificate. */
  lemma PodsTrustApiserver(c: Cluster, m: Template, mc: Container)
    requires RunsControllerManager(c, m, mc)
    ensures var ca := CertOf(Secret(c.name, ManagedCA));
            && FlagHolds(c, m, mc, ROOT_CA, ca) && FlagHolds(c, m, mc, MANAGER_CLIENT_CA, ca)
            && Authenticates(c, CertOf(Secret(c.name, APIServerTLS)), KeyOf(Secret(c.name, APIServerTLS)), ca,
                             ServerAuth)
  {
    ManagerRoots(c, m, mc);
    ServingAuthentic(c);
  }

  lemma ServingAuthentic(c: Cluster)
    ensures Authenticates(c, CertOf(Secret(c.name, APIServerTLS)), KeyOf(Secret(c.name, APIServerTLS)),
                          CertOf(Secret(c.name, ManagedCA)), ServerAuth)
  {
    UsagesOf(c, APIServerTLS);
    Authentic(c, APIServerTLS, ServerAuth);
  }

  lemma ManagerRoots(c: Cluster, m: Template, mc: Container)
    requires RunsControllerManager(c, m, mc)
    ensures FlagHolds(c, m, mc, ROOT_CA, CertOf(Secret(c.name, ManagedCA)))
    ensures FlagHolds(c, m, mc, MANAGER_CLIENT_CA, CertOf(Secret(c.name, ManagedCA)))
  {
    assert CM_USES[4] == ROOT_CA && CM_USES[3] == MANAGER_CLIENT_CA && CM_SECRETS[0] == ManagedCA;
    UseHolds(c, m, mc, CM_SECRETS, ROOT_CA);
    UseHolds(c, m, mc, CM_SECRETS, MANAGER_CLIENT_CA);
  }

  const SIGNING_CERT := Use("--cluster-signing-cert-file", ManagedCA, Crt)
  const SIGNING_KEY := Use("--cluster-signing-key-file", ManagedCA, Key)

  /** The controller manager signs node certificates with the CA against which the API server checks its clients. */
  lemma SignedNodesAreTrusted(c: Cluster, a: Template, ac: Container, m: Template, mc: Container)
    requires RunsApiserver(c, a, ac) && RunsControllerManager(c, m, mc)
    ensures FlagHolds(c, m, mc, SIGNING_CERT, CertOf(Secret(c.name, ManagedCA)))
    ensures FlagHolds(c, m, mc, SIGNING_KEY, KeyOf(Secret(c.name, ManagedCA)))
    ensures FlagHolds(c, a, ac, CLIENT_CA, CertOf(Secret(c.name, ManagedCA)))
  {
    ManagerSigns(c, m, mc);
    ApiserverServes(c, a, ac);
  }

  lemma ManagerSigns(c: Cluster, m: Template, mc: Container)
    requires RunsControllerManager(c, m, mc)
    ensures FlagHolds(c, m, mc, SIGNING_CERT, CertOf(Secret(c.name, ManagedCA)))
    ensures FlagHolds(c, m, mc, SIGNING_KEY, KeyOf(Secret(c.name, ManagedCA)))
  {
    assert CM_USES[1] == SIGNING_CERT && CM_USES[2] == SIGNING_KEY && CM_SECRETS[0] == ManagedCA;
    UseHolds(c, m, mc, CM_SECRETS, SIGNING_CERT);
    UseHolds(c, m, mc, CM_SECRETS, SIGNING_KEY);
  }
}
