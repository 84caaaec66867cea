/** Every path that a generated container is told about is a file it has. */
module Files {
  import opened Optional
  import opened Names
  import opened Pki
  import opened Templates
  import opened Mounts
  import opened Workloads
  import opened Trust

  /** The files of the generated ConfigMaps. */
  function ConfigMapKeys(c: Cluster): set<(string, string)> {
    {(ConfigMap(c.name, EgressSelector), EGRESS_FILE),
     (ConfigMap(c.name, ControllerManagerKubeconfig), CM_CONF),
     (ConfigMap(c.name, SchedulerKubeconfig), SCHEDULER_CONF)}
  }

  /** The path is below a mount, and the volume has the file: a generated one, or a place to create it. */
  ghost predicate Backed(c: Cluster, t: Template, ct: Container, path: string) {
    match Resolve(t, ct, path)
    case None => false
    case Some(SecretFile(s, f)) => Written(c, s, f).Some?
    case Some(ConfigMapKey(m, k)) => (m, k) in ConfigMapKeys(c)
    case Some(Scratch(_, _)) => true
    case Some(Disk(_)) => true
  }

  lemma SecretArgsBacked(c: Cluster, t: Template, ct: Container, ns: seq<SecretName>, us: seq<Use>, a: Arg)
    requires Wired(c, t, ct, ns) && forall u :: u in us ==> u.secret in ns && Certified(u.secret)
    requires a in SecretArgs(c, us)
    ensures a.File? && Backed(c, t, ct, a.path)
  {
    var i :| 0 <= i < |us| && SecretArgs(c, us)[i] == a;
    UseHolds(c, t, ct, ns, us[i]);
  }

  // ---------------------------------------------------------------- paths outside the PKI root

  lemma Join(dir: string, file: string)
    ensures Under(dir, dir + "/" + file) && (dir + "/" + file)[|dir| + 1..] == file
  {
  }

  lemma RootNotAbove(secret: string, path: string)
    requires |path| > 1 && path[1] != PKI_ROOT[1]
    ensures !Under(MountDir(secret), path)
  {
  }

  /** Of a container's other mounts, the longest above a path outside the root. */
  lemma OtherMount(c: string, ct: Container, fixed: seq<Mount>, ns: seq<SecretName>, m: Mount, path: string)
    requires ct.mounts == fixed + SecretMounts(c, ns) && |path| > 1 && path[1] != PKI_ROOT[1]
    requires m in fixed && Under(m.path, path)
    requires forall o :: o in fixed && Under(o.path, path) ==> o == m || |o.path| < |m.path|
    ensures MountFor(ct.mounts, path) == Some(m)
  {
    forall o | o in ct.mounts && Under(o.path, path)
      ensures o == m || |o.path| < |m.path|
    {
      if o !in fixed {
        var n := SecretMountIn(c, ns, o);
        RootNotAbove(Secret(c, n), path);
      }
    }
    OnlyMountAbove(ct.mounts, m, path);
  }

  lemma EgressPaths()
    ensures Under(KONNECTIVITY_DIR, KONNECTIVITY_DIR + "/" + EGRESS_FILE)
    ensures !Under(UDS_DIR, KONNECTIVITY_DIR + "/" + EGRESS_FILE)
    ensures Under(UDS_DIR, UDS_DIR + "/" + SOCKET) && |KONNECTIVITY_DIR| < |UDS_DIR|
  {
  }

  /**
    The API server's egress configuration is the ConfigMap's file, although the socket's directory is mounted inside its
    own.
   */
  lemma EgressConfigResolves(c: Cluster, t: Template, ct: Container)
    requires t.volumes == ApiserverVolumes(c)
    requires ct.mounts == [EGRESS_MOUNT, UDS_MOUNT] + SecretMounts(c.name, APISERVER_SECRETS)
    ensures Resolve(t, ct, KONNECTIVITY_DIR + "/" + EGRESS_FILE) ==
            Some(ConfigMapKey(ConfigMap(c.name, EgressSelector), EGRESS_FILE))
  {
    var path := KONNECTIVITY_DIR + "/" + EGRESS_FILE;
    EgressPaths();
    Join(KONNECTIVITY_DIR, EGRESS_FILE);
    OtherMount(c.name, ct, [EGRESS_MOUNT, UDS_MOUNT], APISERVER_SECRETS, EGRESS_MOUNT, path);
    EgressVolumeFound(c);
  }

  lemma EgressVolumeFound(c: Cluster)
    ensures VolumeNamed(ApiserverVolumes(c), UDS) == Some(EmptyDirVolume(UDS))
    ensures VolumeNamed(ApiserverVolumes(c), "egress-selector") == Some(EgressVolume(c))
  {
  }

  /** The tunnel: the API server and the konnectivity server find one socket in one volume of their pod. */
  lemma SocketShared(c: Cluster, t: Template, a: Container, k: Container)
    requires t.volumes == ApiserverVolumes(c)
    requires a.mounts == [EGRESS_MOUNT, UDS_MOUNT] + SecretMounts(c.name, APISERVER_SECRETS)
    requires k.mounts == [UDS_MOUNT] + SecretMounts(c.name, KONNECTIVITY_SECRETS)
    ensures Resolve(t, a, UDS_DIR + "/" + SOCKET) == Some(Scratch(UDS, SOCKET))
    ensures Resolve(t, k, UDS_DIR + "/" + SOCKET) == Some(Scratch(UDS, SOCKET))
  {
    EgressPaths();
    Join(UDS_DIR, SOCKET);
    OtherMount(c.name, a, [EGRESS_MOUNT, UDS_MOUNT], APISERVER_SECRETS, UDS_MOUNT, UDS_DIR + "/" + SOCKET);
    OtherMount(c.name, k, [UDS_MOUNT], KONNECTIVITY_SECRETS, UDS_MOUNT, UDS_DIR + "/" + SOCKET);
    EgressVolumeFound(c);
  }

  /** A component's kubeconfig is the one item of its ConfigMap volume. */
  lemma KubeconfigResolves(c: Cluster, t: Template, ct: Container, ns: seq<SecretName>, n: ConfigMapName, file: string)
    requires t.volumes == [ConfigMapVolume("kubeconfig", ConfigMap(c.name, n), file, file)] + SecretVolumes(c.name, ns)
    requires ct.mounts == [KUBECONFIG_MOUNT] + SecretMounts(c.name, ns)
    ensures Resolve(t, ct, KUBECONFIG_DIR + "/" + file) == Some(ConfigMapKey(ConfigMap(c.name, n), file))
  {
    Join(KUBECONFIG_DIR, file);
    OtherMount(c.name, ct, [KUBECONFIG_MOUNT], ns, KUBECONFIG_MOUNT, KUBECONFIG_DIR + "/" + file);
    VolumeBefore(t.volumes[..1], SecretVolumes(c.name, ns), "kubeconfig");
  }

  // ---------------------------------------------------------------- every file

  ghost predicate Fits(us: seq<Use>, ns: seq<SecretName>) {
    forall u :: u in us ==> u.secret in ns && Certified(u.secret)
  }

  lemma {:induction false} FitsAll(us: seq<Use>, ns: seq<SecretName>)
    requires forall i :: 0 <= i < |us| ==> us[i].secret in ns && Certified(us[i].secret)
    ensures Fits(us, ns)
  {
  }

  lemma ApiserverUsesFit()
    ensures Fits(APISERVER_USES, APISERVER_SECRETS)
  {
    var ns := APISERVER_SECRETS;
    assert ns[0] == ManagedCA && ns[1] == APIServerTLS && ns[2] == EtcdCA;
    assert ns[3] == APIServerEtcdClient && ns[4] == APIServerKubeletClient && ns[5] == SASigner;
    FitsAll(APISERVER_USES, ns);
  }

  lemma KonnectivityUsesFit()
    ensures Fits(KONNECTIVITY_USES, KONNECTIVITY_SECRETS)
  {
  }

  lemma CMUsesFit()
    ensures Fits(CM_USES, CM_SECRETS)
  {
  }

  lemma EtcdUsesFit()
    ensures Fits(ETCD_USES, ETCD_SECRETS)
  {
    var ns := ETCD_SECRETS;
    assert ns[0] == EtcdCA && ns[1] == EtcdServerTLS && ns[2] == EtcdPeerTLS && ns[3] == EtcdHealthClient;
    FitsAll(ETCD_USES, ns);
  }

  lemma ApiserverBacked(c: Cluster, t: Template, ct: Container, a: Arg)
    requires Wired(c, t, ct, APISERVER_SECRETS) && t.volumes == ApiserverVolumes(c)
    requires ct.mounts == [EGRESS_MOUNT, UDS_MOUNT] + SecretMounts(c.name, APISERVER_SECRETS)
    requires ct.args == ApiserverArgs(c) + SecretArgs(c, APISERVER_USES)
    requires a in ct.args && a.File?
    ensures Backed(c, t, ct, a.path)
  {
    if a in ApiserverArgs(c) {
      assert a == ApiserverArgs(c)[2];
      EgressConfigResolves(c, t, ct);
    } else {
      ApiserverUsesFit();
      SecretArgsBacked(c, t, ct, APISERVER_SECRETS, APISERVER_USES, a);
    }
  }

  lemma KonnectivityBacked(c: Cluster, t: Template, ct: Container, a: Arg)
    requires Wired(c, t, ct, KONNECTIVITY_SECRETS) && t.volumes == ApiserverVolumes(c)
    requires ct.mounts == [UDS_MOUNT] + SecretMounts(c.name, KONNECTIVITY_SECRETS)
    requires ct.args == KONNECTIVITY_ARGS + SecretArgs(c, KONNECTIVITY_USES)
    requires a in ct.args && a.File?
    ensures Backed(c, t, ct, a.path)
  {
    if a == File("--uds-name", UDS_DIR + "/" + SOCKET) {
      SocketShared(c, t, ct.(mounts := [EGRESS_MOUNT, UDS_MOUNT] + SecretMounts(c.name, APISERVER_SECRETS)), ct);
    } else {
      KonnectivityUsesFit();
      SecretArgsBacked(c, t, ct, KONNECTIVITY_SECRETS, KONNECTIVITY_USES, a);
    }
  }

  lemma KubeconfigPath(file: string, a: Arg)
    requires a in KubeconfigArgs(file)
    ensures a.File? && a.path == KUBECONFIG_DIR + "/" + file
  {
  }

  lemma KubeconfigBacked(c: Cluster, t: Template, ct: Container, ns: seq<SecretName>, n: ConfigMapName, file: string)
    requires (ConfigMap(c.name, n), file) in ConfigMapKeys(c)
    requires t.volumes == [ConfigMapVolume("kubeconfig", ConfigMap(c.name, n), file, file)] + SecretVolumes(c.name, ns)
    requires ct.mounts == [KUBECONFIG_MOUNT] + SecretMounts(c.name, ns)
    ensures Backed(c, t, ct, KUBECONFIG_DIR + "/" + file)
  {
    KubeconfigResolves(c, t, ct, ns, n, file);
  }

  lemma ComponentBacked(c: Cluster, t: Template, ct: Container, ns: seq<SecretName>, us: seq<Use>, n: ConfigMapName,
                        file: string, text: string, a: Arg)
    requires Wired(c, t, ct, ns) && Fits(us, ns) && (ConfigMap(c.name, n), file) in ConfigMapKeys(c)
    requires t.volumes == [ConfigMapVolume("kubeconfig", ConfigMap(c.name, n), file, file)] + SecretVolumes(c.name, ns)
    requires ct.mounts == [KUBECONFIG_MOUNT] + SecretMounts(c.name, ns)
    requires ct.args == [Text(text)] + KubeconfigArgs(file) + SecretArgs(c, us)
    requires a in ct.args && a.File?
    ensures Backed(c, t, ct, a.path)
  {
    if a in KubeconfigArgs(file) {
      KubeconfigPath(file, a);
      KubeconfigBacked(c, t, ct, ns, n, file);
    } else {
      assert a in SecretArgs(c, us);
      SecretArgsBacked(c, t, ct, ns, us, a);
    }
  }

  lemma EtcdBacked(c: Cluster, t: Template, ct: Container, a: Arg)
    requires Wired(c, t, ct, ETCD_SECRETS)
    requires ct.args == EtcdArgs(c) + SecretArgs(c, ETCD_USES)
    requires a in ct.args && a.File?
    ensures Backed(c, t, ct, a.path)
  {
    EtcdUsesFit();
    SecretArgsBacked(c, t, ct, ETCD_SECRETS, ETCD_USES, a);
  }

  /** The workloads of a control plane. */
  ghost predicate IsWorkload(c: Cluster, t: Template) {
    t == ApiserverDeployment(c) || t == CMDeployment(c) || t == SchedulerDeployment(c) || t == EtcdStatefulSet(c)
  }

  /** In every container of every workload, every file an argument names is mounted and generated. */
  lemma EveryFileBacked(c: Cluster, t: Template, ct: Container, a: Arg)
    requires Slashless(c.name) && IsWorkload(c, t) && ct in t.containers && a in ct.args && a.File?
    ensures Backed(c, t, ct, a.path)
  {
    if t == ApiserverDeployment(c) {
      InApiserver(c, t, ct, a);
    } else if t == CMDeployment(c) {
      InControllerManager(c, t, ct, a);
    } else if t == SchedulerDeployment(c) {
      InScheduler(c, t, ct, a);
    } else {
      InEtcd(c, t, ct, a);
    }
  }

  lemma InApiserver(c: Cluster, t: Template, ct: Container, a: Arg)
    requires Slashless(c.name) && t == ApiserverDeployment(c) && ct in t.containers && a in ct.args && a.File?
    ensures Backed(c, t, ct, a.path)
  {
    ApiserverBuilt(c);
    if ct == ApiserverFinal(c) {
      ApiserverWired(c);
      ApiserverBacked(c, t, ct, a);
    } else {
      KonnectivityRuns(c);
      KonnectivityBacked(c, t, ct, a);
    }
  }

  lemma InControllerManager(c: Cluster, t: Template, ct: Container, a: Arg)
    requires Slashless(c.name) && t == CMDeployment(c) && ct in t.containers && a in ct.args && a.File?
    ensures Backed(c, t, ct, a.path)
  {
    CMBuilt(c);
    ControllerManagerRuns(c);
    CMUsesFit();
    ComponentBacked(c, t, ct, CM_SECRETS, CM_USES, ControllerManagerKubeconfig, CM_CONF, "--cluster-name=" + c.name, a);
  }

  lemma InScheduler(c: Cluster, t: Template, ct: Container, a: Arg)
    requires Slashless(c.name) && t == SchedulerDeployment(c) && ct in t.containers && a in ct.args && a.File?
    ensures Backed(c, t, ct, a.path)
  {
    SchedulerBuilt(c);
    SchedulerRuns(c);
    assert ct.args == [Text("--leader-elect=true")] + KubeconfigArgs(SCHEDULER_CONF) + SecretArgs(c, []);
    ComponentBacked(c, t, ct, SCHEDULER_SECRETS, [], SchedulerKubeconfig, SCHEDULER_CONF, "--leader-elect=true", a);
  }

  lemma InEtcd(c: Cluster, t: Template, ct: Container, a: Arg)
    requires Slashless(c.name) && t == EtcdStatefulSet(c) && ct in t.containers && a in ct.args && a.File?
    ensures Backed(c, t, ct, a.path)
  {
    EtcdBuilt(c);
    EtcdRuns(c);
    EtcdBacked(c, t, ct, a);
  }

  /** etcd writes its data to the disk it claims, and to nothing that goes away with the pod. */
  lemma EtcdDataOnDisk(c: Cluster, file: string)
    requires Slashless(c.name)
    ensures var t, ct := EtcdStatefulSet(c), EtcdContainer(c);
            && ct in t.containers && Text("--data-dir=/var/lib/etcd") in ct.args
            && t.claims == [Workload(c.name, Etcd)]
            && Resolve(t, ct, "/var/lib/etcd/" + file) == Some(Disk(Workload(c.name, Etcd)))
  {
    var t, ct := EtcdStatefulSet(c), EtcdContainer(c);
    EtcdBuilt(c);
    EtcdDataDir(c, ct);
    DiskResolved(c, t, ct, file);
  }

  lemma EtcdDataDir(c: Cluster, ct: Container)
    requires ct == EtcdContainer(c)
    ensures Text("--data-dir=/var/lib/etcd") in ct.args
  {
    assert ct.args[0] == EtcdArgs(c)[0];
    assert "--data-dir=" + DATA_DIR == "--data-dir=/var/lib/etcd";
  }

  lemma DiskResolved(c: Cluster, t: Template, ct: Container, file: string)
    requires t.volumes == SecretVolumes(c.name, ETCD_SECRETS) && t.claims == [Workload(c.name, Etcd)]
    requires ct.mounts == EtcdMounts(c)
    ensures Resolve(t, ct, "/var/lib/etcd/" + file) == Some(Disk(Workload(c.name, Etcd)))
  {
    assert "/var/lib/etcd/" + file == DATA_DIR + "/" + file;
    EtcdMounted(c, ct, file);
    NoSecretCalled(c.name, ETCD_SECRETS, Etcd);
  }

  lemma EtcdMounted(c: Cluster, ct: Container, file: string)
    requires ct.mounts == EtcdMounts(c)
    ensures MountFor(ct.mounts, DATA_DIR + "/" + file) == Some(EtcdMounts(c)[0])
    ensures (DATA_DIR + "/" + file)[|DATA_DIR| + 1..] == file
  {
    Join(DATA_DIR, file);
    var m, path := EtcdMounts(c)[0], DATA_DIR + "/" + file;
    forall o | o in ct.mounts && Under(o.path, path)
      ensures o == m || |o.path| < |m.path|
    {
      if o != m {
        var n := SecretMountIn(c.name, ETCD_SECRETS, o);
        DataDirApart(Secret(c.name, n), file);
      }
    }
    OnlyMountAbove(ct.mounts, m, path);
  }

  lemma DataDirApart(secret: string, file: string)
    ensures !Under(MountDir(secret), DATA_DIR + "/" + file)
  {
    assert (DATA_DIR + "/" + file)[5] == 'l' && MountDir(secret)[5] == 'r';
  }

  /** No Secret's volume has a workload's name. */
  lemma {:induction false} NoSecretCalled(c: string, ns: seq<SecretName>, w: WorkloadName)
    ensures VolumeNamed(SecretVolumes(c, ns), Workload(c, w)).None?
  {
    if ns != [] {
      SecretIsNoWorkload(c, ns[0], w);
      NoSecretCalled(c, ns[1..], w);
    }
  }

  lemma SecretIsNoWorkload(c: string, n: SecretName, w: WorkloadName)
    ensures Secret(c, n) != Workload(c, w)
  {
    SuffixesDiffer(n, w);
    TailOf(c, SecretSuffix(n));
    TailOf(c, WorkloadSuffix(w));
  }

  lemma TailOf(c: string, suffix: string)
    ensures Prefix(c, suffix)[|c| + 1..] == suffix
  {
  }

  lemma SuffixesDiffer(n: SecretName, w: WorkloadName)
    ensures SecretSuffix(n) != WorkloadSuffix(w)
  {
  }
}
