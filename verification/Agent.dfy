/**
  The konnectivity agents of the managed cluster: the Secrets copied there, the pod that reads them, and whom it
  reaches.
 */
module Agent {
  import opened Optional
  import opened Names
  import opened Pki
  import opened Templates
  import opened Mounts
  import opened Workloads
  import opened Trust
  import Files

  const AGENT := "konnectivity-agent"
  const AGENT_NAMESPACE := "kube-system"
  const AGENT_VOLUME := "agent-certs"
  const AGENT_DIR := "/var/run/konnectivity"

  /** The Secrets copied into the managed cluster, under their own names and with all their data. */
  const COPIED: seq<SecretName> := [KonnectivityAgentTLS, KonnectivityCA]

  const COPIES_NAMESPACE := "kube-system"

  /** A file of a Secret in a namespace of the managed cluster, where only the copies are. */
  ghost function InCluster(c: Cluster, namespace: string, secret: string, file: string): Option<Pem> {
    if namespace == COPIES_NAMESPACE && exists n :: n in COPIED && Secret(c.name, n) == secret
    then Written(c, secret, file) else None
  }

  function AgentArgs(c: Cluster): seq<Arg> {
    [Url("--proxy-server-host", c.address, AGENT_PORT),
     File("--ca-cert", AGENT_DIR + "/ca.crt"),
     File("--agent-cert", AGENT_DIR + "/tls.crt"),
     File("--agent-key", AGENT_DIR + "/tls.key")]
  }

  function AgentItems(c: Cluster): seq<Item> {
    [Item(Secret(c.name, KonnectivityAgentTLS), "tls.crt", "tls.crt"),
     Item(Secret(c.name, KonnectivityAgentTLS), "tls.key", "tls.key"),
     Item(Secret(c.name, KonnectivityCA), "ca.crt", "ca.crt")]
  }

  const AGENT_MOUNT := Mount(AGENT_VOLUME, AGENT_DIR, true)

  /** A DaemonSet's selector and pod labels are set by two calls; the agents' are the same. */
  function AgentDaemonSet(c: Cluster): Template {
    WithPod(
      EMPTY
        .Then(WithName(AGENT))
        .Then(WithNamespace(AGENT_NAMESPACE))
        .Then(WithLabels(map["app" := AGENT]))
        .Then(WithSelector(map["app" := AGENT])),
      Container(AGENT, AgentArgs(c), []),
      [ProjectedVolume(AGENT_VOLUME, AgentItems(c))],
      [AGENT_MOUNT])
  }

  function AgentFinal(c: Cluster): Container {
    Container(AGENT, AgentArgs(c), [AGENT_MOUNT])
  }

  lemma AgentBuilt(c: Cluster)
    ensures AgentDaemonSet(c).containers == [AgentFinal(c)] && AgentDaemonSet(c).namespace == AGENT_NAMESPACE
    ensures AgentDaemonSet(c).selector == AgentDaemonSet(c).podLabels == map["app" := AGENT]
    ensures AgentDaemonSet(c).volumes == [ProjectedVolume(AGENT_VOLUME, AgentItems(c))]
  {
    var t := EMPTY
      .Then(WithName(AGENT))
      .Then(WithNamespace(AGENT_NAMESPACE))
      .Then(WithLabels(map["app" := AGENT]))
      .Then(WithSelector(map["app" := AGENT]));
    assert map[] + map["app" := AGENT] == map["app" := AGENT];
    FirstContainer(t, Container(AGENT, AgentArgs(c), []), [ProjectedVolume(AGENT_VOLUME, AgentItems(c))],
                   [AGENT_MOUNT]);
  }

  /** A path of the agent's mount is the item of that name. */
  lemma AgentResolves(c: Cluster, t: Template, ct: Container, file: string)
    requires t.volumes == [ProjectedVolume(AGENT_VOLUME, AgentItems(c))] && ct.mounts == [AGENT_MOUNT]
    ensures Resolve(t, ct, AGENT_DIR + "/" + file) == Projected(AgentItems(c), file)
  {
    Files.Join(AGENT_DIR, file);
    OnlyMountAbove(ct.mounts, AGENT_MOUNT, AGENT_DIR + "/" + file);
  }

  lemma OfThree(x: Item, y: Item, z: Item, file: string)
    ensures Projected([x, y, z], file) ==
            if x.path == file then Some(SecretFile(x.secret, x.key))
            else if y.path == file then Some(SecretFile(y.secret, y.key))
            else if z.path == file then Some(SecretFile(z.secret, z.key)) else None
  {
    assert [x, y, z][1..] == [y, z] && [y, z][1..] == [z] && [z][1..] == [];
    assert Projected([z], file) == if z.path == file then Some(SecretFile(z.secret, z.key)) else None;
  }

  lemma AgentItem(c: Cluster, n: SecretName, f: PemFile)
    requires if f.CACrt? then n.KonnectivityCA? else n.KonnectivityAgentTLS?
    ensures Projected(AgentItems(c), FileName(f)) == Some(SecretFile(Secret(c.name, n), FileName(f)))
  {
    var items := AgentItems(c);
    assert |FileName(CACrt)| != |FileName(Crt)| && FileName(Crt)[4] != FileName(Key)[4];
    OfThree(items[0], items[1], items[2], FileName(f));
  }

  /** A flag of the agent names a file, in its pod and of the copied Secrets, with this content. */
  ghost predicate AgentHolds(c: Cluster, t: Template, ct: Container, flag: string, f: PemFile, pem: Pem) {
    var path := AGENT_DIR + "/" + FileName(f);
    var r := Resolve(t, ct, path);
    && File(flag, path) in ct.args
    && r.Some? && r.value.SecretFile? && InCluster(c, t.namespace, r.value.secret, r.value.file) == Some(pem)
  }

  lemma AgentFile(c: Cluster, i: nat, flag: string, f: PemFile, n: SecretName)
    requires if f.CACrt? then n.KonnectivityCA? else n.KonnectivityAgentTLS?
    requires i < |AgentArgs(c)| && AgentArgs(c)[i] == File(flag, AGENT_DIR + "/" + FileName(f))
    ensures AgentHolds(c, AgentDaemonSet(c), AgentFinal(c), flag, f, PemOf(c, n, f))
  {
    AgentBuilt(c);
    AgentResolves(c, AgentDaemonSet(c), AgentFinal(c), FileName(f));
    AgentItem(c, n, f);
    CopiedFile(c, n, f);
  }

  lemma CopiedFile(c: Cluster, n: SecretName, f: PemFile)
    requires n.KonnectivityCA? || n.KonnectivityAgentTLS?
    ensures InCluster(c, COPIES_NAMESPACE, Secret(c.name, n), FileName(f)) == Some(PemOf(c, n, f))
  {
    assert COPIED[0] == KonnectivityAgentTLS && COPIED[1] == KonnectivityCA;
    WrittenAre(c, n);
  }

  /** The agent's three flags hold one side. */
  ghost predicate AgentConfigured(c: Cluster, t: Template, ct: Container, side: Side) {
    && AgentHolds(c, t, ct, "--agent-cert", Crt, side.cert)
    && AgentHolds(c, t, ct, "--agent-key", Key, side.key)
    && AgentHolds(c, t, ct, "--ca-cert", CACrt, side.trusted)
  }

  lemma AgentFlags(c: Cluster)
    ensures AgentArgs(c)[1] == File("--ca-cert", AGENT_DIR + "/" + FileName(CACrt))
    ensures AgentArgs(c)[2] == File("--agent-cert", AGENT_DIR + "/" + FileName(Crt))
    ensures AgentArgs(c)[3] == File("--agent-key", AGENT_DIR + "/" + FileName(Key))
  {
  }

  lemma AgentReadsItsSide(c: Cluster)
    ensures AgentConfigured(c, AgentDaemonSet(c), AgentFinal(c), SideOf(c, KonnectivityAgentTLS, KonnectivityCA))
  {
    AgentCertificate(c);
    AgentKey(c);
    AgentAuthority(c);
  }

  lemma AgentCertificate(c: Cluster)
    ensures AgentHolds(c, AgentDaemonSet(c), AgentFinal(c), "--agent-cert", Crt,
                       CertOf(Secret(c.name, KonnectivityAgentTLS)))
  {
    AgentFlags(c);
    AgentFile(c, 2, "--agent-cert", Crt, KonnectivityAgentTLS);
  }

  lemma AgentKey(c: Cluster)
    ensures AgentHolds(c, AgentDaemonSet(c), AgentFinal(c), "--agent-key", Key,
                       KeyOf(Secret(c.name, KonnectivityAgentTLS)))
  {
    AgentFlags(c);
    AgentFile(c, 3, "--agent-key", Key, KonnectivityAgentTLS);
  }

  lemma AgentAuthority(c: Cluster)
    ensures AgentHolds(c, AgentDaemonSet(c), AgentFinal(c), "--ca-cert", CACrt, CertOf(Secret(c.name, KonnectivityCA)))
  {
    AgentFlags(c);
    AgentFile(c, 1, "--ca-cert", CACrt, KonnectivityCA);
  }

  lemma TunnelPort(c: Cluster, k: Template, kc: Container)
    requires RunsKonnectivity(c, k, kc)
    ensures Text("--agent-port=" + AGENT_PORT) in kc.args
    ensures Url("--proxy-server-host", c.address, AGENT_PORT) in AgentFinal(c).args
  {
    assert kc.args[2] == KONNECTIVITY_ARGS[2];
    assert AgentFinal(c).args[0] == Url("--proxy-server-host", c.address, AGENT_PORT);
  }

  /**
    The agents dial the published address, on the port the konnectivity server listens on for them, with certificate and
    key from one copied Secret and the CA from the other; the two ends authenticate each other there.
   */
  lemma AgentReachesKonnectivity(c: Cluster, k: Template, kc: Container)
    requires RunsKonnectivity(c, k, kc) && c.address != ""
    ensures var client, server := SideOf(c, KonnectivityAgentTLS, KonnectivityCA),
                                  SideOf(c, KonnectivityServerTLS, KonnectivityCA);
            && AgentDaemonSet(c).containers == [AgentFinal(c)]
            && AgentConfigured(c, AgentDaemonSet(c), AgentFinal(c), client)
            && Url("--proxy-server-host", c.address, AGENT_PORT) in AgentFinal(c).args
            && Text("--agent-port=" + AGENT_PORT) in kc.args
            && Configured(c, k, kc, TUNNEL_CERT, TUNNEL_KEY, TUNNEL_CA, server)
            && Mutual(c, client, server, c.address)
  {
    AgentBuilt(c);
    AgentReadsItsSide(c);
    TunnelPort(c, k, kc);
    KonnectivityServes(c, k, kc);
    AgentTrusted(c);
  }
}
