/** Which file a path inside a container is: the longest mount above the path, and what its volume holds there. */
module Mounts {
  import opened Optional
  import opened Names
  import opened Templates

  datatype Source =
    | SecretFile(secret: string, file: string)
    | ConfigMapKey(configMap: string, key: string)
    | Scratch(volume: string, file: string)
    | Disk(claim: string)

  predicate Under(dir: string, path: string) {
    |dir| < |path| && path[..|dir|] == dir && path[|dir|] == '/'
  }

  /** The longest mount above the path, as the kernel resolves it. */
  function MountFor(ms: seq<Mount>, path: string): (m: Option<Mount>)
    ensures m.Some? ==> m.value in ms && Under(m.value.path, path)
  {
    if ms == [] then None
    else
      var rest := MountFor(ms[1..], path);
      if Under(ms[0].path, path) && (rest.None? || |rest.value.path| <= |ms[0].path|) then Some(ms[0]) else rest
  }

  function VolumeNamed(vs: seq<Volume>, name: string): Option<Volume> {
    if vs == [] then None else if vs[0].name == name then Some(vs[0]) else VolumeNamed(vs[1..], name)
  }

  function Projected(items: seq<Item>, file: string): Option<Source> {
    if items == [] then None
    else if items[0].path == file then Some(SecretFile(items[0].secret, items[0].key))
    else Projected(items[1..], file)
  }

  /** A volume's file; a ConfigMap volume holds only the one item it lists, a projected one only its items. */
  function FileOf(v: Volume, file: string): Option<Source> {
    match v
    case SecretVolume(_, s) => Some(SecretFile(s, file))
    case ConfigMapVolume(_, cm, key, path) => if file == path then Some(ConfigMapKey(cm, key)) else None
    case EmptyDirVolume(n) => Some(Scratch(n, file))
    case ProjectedVolume(_, items) => Projected(items, file)
  }

  function Resolve(t: Template, ct: Container, path: string): Option<Source> {
    match MountFor(ct.mounts, path)
    case None => None
    case Some(m) =>
      match VolumeNamed(t.volumes, m.name)
      case Some(v) => FileOf(v, path[|m.path| + 1..])
      case None => if m.name in t.claims then Some(Disk(m.name)) else None
  }

  lemma {:induction false} OnlyMountAbove(ms: seq<Mount>, m: Mount, path: string)
    requires m in ms && Under(m.path, path)
    requires forall o :: o in ms && Under(o.path, path) ==> o == m || |o.path| < |m.path|
    ensures MountFor(ms, path) == Some(m)
  {
    if m in ms[1..] {
      OnlyMountAbove(ms[1..], m, path);
    } else {
      ShorterAbove(ms[1..], m, path);
    }
  }

  lemma {:induction false} ShorterAbove(ms: seq<Mount>, m: Mount, path: string)
    requires forall o :: o in ms && Under(o.path, path) ==> |o.path| < |m.path|
    ensures MountFor(ms, path).Some? ==> |MountFor(ms, path).value.path| < |m.path|
  {
  }

  lemma {:induction false} OnlyVolumeNamed(vs: seq<Volume>, v: Volume)
    requires v in vs && forall o :: o in vs && o.name == v.name ==> o == v
    ensures VolumeNamed(vs, v.name) == Some(v)
  {
    if vs[0].name != v.name {
      OnlyVolumeNamed(vs[1..], v);
    }
  }

  // ---------------------------------------------------------------- secrets below the PKI root

  const PKI_ROOT := "/var/run/k8s"

  function MountDir(secret: string): string {
    PKI_ROOT + "/" + secret
  }

  function PathOf(secret: string, file: string): string {
    MountDir(secret) + "/" + file
  }

  function SecretMount(c: string, n: SecretName): Mount {
    Mount(Secret(c, n), MountDir(Secret(c, n)), true)
  }

  function SecretMounts(c: string, ns: seq<SecretName>): (ms: seq<Mount>)
    ensures |ms| == |ns| && forall i :: 0 <= i < |ns| ==> ms[i] == SecretMount(c, ns[i])
  {
    if ns == [] then [] else [SecretMount(c, ns[0])] + SecretMounts(c, ns[1..])
  }

  function SecretVolumeOf(c: string, n: SecretName): Volume {
    SecretVolume(Secret(c, n), Secret(c, n))
  }

  function SecretVolumes(c: string, ns: seq<SecretName>): (vs: seq<Volume>)
    ensures |vs| == |ns| && forall i :: 0 <= i < |ns| ==> vs[i] == SecretVolumeOf(c, ns[i])
  {
    if ns == [] then [] else [SecretVolumeOf(c, ns[0])] + SecretVolumes(c, ns[1..])
  }

  /** Kubernetes object names have no slash. */
  predicate Slashless(s: string) {
    '/' !in s
  }

  lemma SuffixSlashless(n: SecretName)
    ensures Slashless(SecretSuffix(n))
  {
    if n.AdminKubeconfig? || n.BootstrapToken? || n.KonnectivityServerTLS? || n.KonnectivityAgentTLS? {
    } else if n.ManagedCA? || n.EtcdCA? || n.FrontProxyCA? || n.KonnectivityCA? || n.SASigner? {
    } else {
      ClientSuffixSlashless(n);
    }
  }

  lemma ClientSuffixSlashless(n: SecretName)
    requires n in {APIServerTLS, APIServerKubeletClient, APIServerEtcdClient, EtcdServerTLS, EtcdPeerTLS} ||
             n in {EtcdHealthClient, FrontProxyClient, CMClient, SchedulerClient, AdminClient}
    ensures Slashless(SecretSuffix(n))
  {
  }

  lemma SecretSlashless(c: string, n: SecretName)
    requires Slashless(c)
    ensures Slashless(Secret(c, n))
  {
    SuffixSlashless(n);
    Joined(c, SecretSuffix(n));
  }

  lemma Joined(c: string, s: string)
    requires Slashless(c) && Slashless(s)
    ensures Slashless(Prefix(c, s))
  {
  }

  lemma HeadBeforeSlash(whole: string, a: string, b: string)
    requires Slashless(a) && Slashless(b) && |a| < |whole| && |b| < |whole|
    requires whole[..|a|] == a && whole[|a|] == '/'
    requires whole[..|b|] == b && whole[|b|] == '/'
    ensures a == b
  {
  }

  /** Of two slashless names below the root, only the same one is above the other's files. */
  lemma OwnDirectory(a: string, b: string, file: string)
    requires Slashless(a) && Slashless(b)
    ensures Under(MountDir(a), PathOf(b, file)) <==> a == b
    ensures PathOf(b, file)[|MountDir(b)| + 1..] == file
  {
    var path, root := PathOf(b, file), |PKI_ROOT| + 1;
    var below := path[root..];
    assert path[..|MountDir(b)|] == MountDir(b);
    assert below[..|b|] == b && below[|b|] == '/';
    if Under(MountDir(a), path) {
      assert below[..|a|] == MountDir(a)[root..] == a;
      HeadBeforeSlash(below, a, b);
    }
  }

  /** Other mounts stay clear of the root. */
  predicate Elsewhere(m: Mount) {
    |m.path| > 5 && (m.path[1] != PKI_ROOT[1] || m.path[5] != PKI_ROOT[5])
  }

  lemma ElsewhereNotAbove(m: Mount, secret: string, file: string)
    requires Elsewhere(m)
    ensures !Under(m.path, PathOf(secret, file))
  {
  }

  /** The container mounts Secrets of the control plane, and other volumes elsewhere. */
  predicate OnlySecretsBelowRoot(c: string, ms: seq<Mount>, ns: seq<SecretName>) {
    forall m :: m in ms ==> Elsewhere(m) || m in SecretMounts(c, ns)
  }

  lemma SecretMountIn(c: string, ns: seq<SecretName>, m: Mount) returns (n: SecretName)
    requires m in SecretMounts(c, ns)
    ensures n in ns && m == SecretMount(c, n)
  {
    var i :| 0 <= i < |ns| && SecretMounts(c, ns)[i] == m;
    n := ns[i];
  }

  /** The file of a Secret is what its path means in every container that mounts the Secret beside other such mounts. */
  lemma ResolvesSecret(c: string, t: Template, ct: Container, ns: seq<SecretName>, n: SecretName, file: string)
    requires Slashless(c)
    requires SecretMount(c, n) in ct.mounts && OnlySecretsBelowRoot(c, ct.mounts, ns)
    requires VolumeNamed(t.volumes, Secret(c, n)) == Some(SecretVolumeOf(c, n))
    ensures Resolve(t, ct, PathOf(Secret(c, n), file)) == Some(SecretFile(Secret(c, n), file))
  {
    var m, path := SecretMount(c, n), PathOf(Secret(c, n), file);
    SecretSlashless(c, n);
    OwnDirectory(Secret(c, n), Secret(c, n), file);
    forall o | o in ct.mounts && Under(o.path, path)
      ensures o == m
    {
      if Elsewhere(o) {
        ElsewhereNotAbove(o, Secret(c, n), file);
      } else {
        var k := SecretMountIn(c, ns, o);
        SecretSlashless(c, k);
        OwnDirectory(Secret(c, k), Secret(c, n), file);
        SecretsNeverShared(c, k, c, n);
      }
    }
    OnlyMountAbove(ct.mounts, m, path);
  }
}
