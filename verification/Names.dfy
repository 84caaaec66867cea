/**
  The names of what the operator generates for one control plane: the control plane's name, a dash, and a fixed suffix.
 */
module Names {
  datatype SecretName =
    | ManagedCA | EtcdCA | FrontProxyCA | KonnectivityCA | SASigner | APIServerTLS | APIServerKubeletClient
    | APIServerEtcdClient | EtcdServerTLS | EtcdPeerTLS | EtcdHealthClient | FrontProxyClient | CMClient
    | SchedulerClient
    | AdminClient | KonnectivityServerTLS | KonnectivityAgentTLS | AdminKubeconfig | BootstrapToken

  datatype IssuerName =
    | SelfSigned | CA | EtcdSelfSigned | EtcdCAIssuer | FrontProxySelfSigned | FrontProxyCAIssuer
    | KonnectivitySelfSigned | KonnectivityCAIssuer

  /** Services, Deployments and the StatefulSet; two of different kinds may carry the same name. */
  datatype WorkloadName = APIServer | Etcd | ControllerManager | Scheduler

  datatype ConfigMapName = EgressSelector | ControllerManagerKubeconfig | SchedulerKubeconfig

  function Prefix(name: string, suffix: string): string {
    name + "-" + suffix
  }

  function SecretSuffix(n: SecretName): string {
    match n
    case ManagedCA => "managed-ca"
    case EtcdCA => "etcd-ca"
    case FrontProxyCA => "front-proxy-ca"
    case KonnectivityCA => "konnectivity-ca"
    case SASigner => "sa-signer"
    case APIServerTLS => "apiserver-tls"
    case APIServerKubeletClient => "apiserver-kubelet-client"
    case APIServerEtcdClient => "apiserver-etcd-client"
    case EtcdServerTLS => "etcd-server-tls"
    case EtcdPeerTLS => "etcd-peer-tls"
    case EtcdHealthClient => "etcd-healthcheck-client"
    case FrontProxyClient => "front-proxy-client"
    case CMClient => "cm-client"
    case SchedulerClient => "scheduler-client"
    case AdminClient => "admin-client"
    case KonnectivityServerTLS => "konnectivity-server-tls"
    case KonnectivityAgentTLS => "konnectivity-agent-tls"
    case AdminKubeconfig => "admin-kubeconfig"
    case BootstrapToken => "bootstrap-token"
  }

  function IssuerSuffix(n: IssuerName): string {
    match n
    case SelfSigned => "selfsigned"
    case CA => "ca-issuer"
    case EtcdSelfSigned => "etcd-selfsigned"
    case EtcdCAIssuer => "etcd-ca-issuer"
    case FrontProxySelfSigned => "front-proxy-selfsigned"
    case FrontProxyCAIssuer => "front-proxy-ca-issuer"
    case KonnectivitySelfSigned => "konnectivity-selfsigned"
    case KonnectivityCAIssuer => "konnectivity-ca-issuer"
  }

  function WorkloadSuffix(n: WorkloadName): string {
    match n
    case APIServer => "apiserver"
    case Etcd => "etcd"
    case ControllerManager => "controller-manager"
    case Scheduler => "scheduler"
  }

  function ConfigMapSuffix(n: ConfigMapName): string {
    match n
    case EgressSelector => "konnectivity-egress-selector"
    case ControllerManagerKubeconfig => "controller-manager-kubeconfig"
    case SchedulerKubeconfig => "scheduler-kubeconfig"
  }

  function Secret(name: string, n: SecretName): string {
    Prefix(name, SecretSuffix(n))
  }

  function Issuer(name: string, n: IssuerName): string {
    Prefix(name, IssuerSuffix(n))
  }

  function Workload(name: string, n: WorkloadName): string {
    Prefix(name, WorkloadSuffix(n))
  }

  function ConfigMap(name: string, n: ConfigMapName): string {
    Prefix(name, ConfigMapSuffix(n))
  }

  function KubeconfigSecret(name: string): string {
    Secret(name, AdminKubeconfig)
  }

  // ---------------------------------------------------------------- two prefixed names

  /** s ends in a dash and t. */
  predicate DashTail(s: string, t: string) {
    |s| > |t| && s[|s| - |t| - 1] == '-' && s[|s| - |t|..] == t
  }

  /**
    Two prefixed names are equal only if all is, or one suffix continues the other name and ends in the other suffix.
   */
  lemma TwoPrefixes(p: string, s: string, q: string, t: string)
    requires Prefix(p, s) == Prefix(q, t)
    ensures |s| == |t| ==> p == q && s == t
    ensures |s| > |t| ==> DashTail(s, t) && q == Prefix(p, s[..|s| - |t| - 1])
    ensures |s| < |t| ==> DashTail(t, s) && p == Prefix(q, t[..|t| - |s| - 1])
  {
    var whole := Prefix(p, s);
    assert whole == Prefix(q, t);
    if |s| == |t| {
      assert whole[..|p|] == p && whole[..|q|] == q;
      assert whole[|p| + 1..] == s && whole[|q| + 1..] == t;
    } else if |s| > |t| {
      LongerSuffix(p, s, q, t);
    } else {
      LongerSuffix(q, t, p, s);
    }
  }

  lemma Apart(p: string, s: string, q: string, t: string)
    requires Prefix(p, s) == Prefix(q, t) && !DashTail(s, t) && !DashTail(t, s)
    ensures p == q && s == t
  {
    TwoPrefixes(p, s, q, t);
  }

  lemma LongerSuffix(p: string, s: string, q: string, t: string)
    requires Prefix(p, s) == Prefix(q, t) && |s| > |t|
    ensures DashTail(s, t) && q == Prefix(p, s[..|s| - |t| - 1])
  {
    var whole, d := Prefix(p, s), |s| - |t| - 1;
    assert |q| == |p| + 1 + d;
    assert whole[|p| + 1..] == s && whole[|q| + 1..] == t;
    assert s[d] == whole[|q|] == '-';
    assert s[d + 1..] == t;
    assert whole[..|q|] == q;
    assert whole[..|q|] == p + "-" + s[..d];
  }

  // ---------------------------------------------------------------- secrets

  /** Length and first letter, which tell the suffixes apart. */
  function SecretShape(n: SecretName): (nat, char) {
    match n
    case ManagedCA => (10, 'm')
    case EtcdCA => (7, 'e')
    case FrontProxyCA => (14, 'f')
    case KonnectivityCA => (15, 'k')
    case SASigner => (9, 's')
    case APIServerTLS => (13, 'a')
    case APIServerKubeletClient => (24, 'a')
    case APIServerEtcdClient => (21, 'a')
    case EtcdServerTLS => (15, 'e')
    case EtcdPeerTLS => (13, 'e')
    case EtcdHealthClient => (23, 'e')
    case FrontProxyClient => (18, 'f')
    case CMClient => (9, 'c')
    case SchedulerClient => (16, 's')
    case AdminClient => (12, 'a')
    case KonnectivityServerTLS => (23, 'k')
    case KonnectivityAgentTLS => (22, 'k')
    case AdminKubeconfig => (16, 'a')
    case BootstrapToken => (15, 'b')
  }

  lemma SecretShaped(n: SecretName)
    ensures SecretSuffix(n) != [] && SecretShape(n) == (|SecretSuffix(n)|, SecretSuffix(n)[0])
  {
  }

  /** The shapes of what follows a dash in a suffix; no suffix has one of them. */
  predicate TailShape(length: nat, first: char) {
    match length
    case 2 => first == 'c'
    case 3 => first == 't'
    case 5 => first == 't'
    case 6 => first == 's' || first == 'c'
    case 8 => first == 'p'
    case 9 => first == 'a'
    case 10 => first == 's' || first == 'k'
    case 11 => first == 'e'
    case 12 => first == 'p'
    case 14 => first == 'k'
    case 18 => first == 'h'
    case _ => false
  }

  lemma CATails(n: SecretName, i: nat)
    requires n.ManagedCA? || n.EtcdCA? || n.FrontProxyCA? || n.KonnectivityCA?
    requires i + 1 < |SecretSuffix(n)| && SecretSuffix(n)[i] == '-'
    ensures TailShape(|SecretSuffix(n)| - i - 1, SecretSuffix(n)[i + 1])
  {
  }

  lemma ServingTails(n: SecretName, i: nat)
    requires n.APIServerTLS? || n.EtcdServerTLS? || n.EtcdPeerTLS? || n.KonnectivityServerTLS? ||
             n.KonnectivityAgentTLS?
    requires i + 1 < |SecretSuffix(n)| && SecretSuffix(n)[i] == '-'
    ensures TailShape(|SecretSuffix(n)| - i - 1, SecretSuffix(n)[i + 1])
  {
  }

  lemma LongClientTails(n: SecretName, i: nat)
    requires n.APIServerKubeletClient? || n.APIServerEtcdClient? || n.EtcdHealthClient?
    requires i + 1 < |SecretSuffix(n)| && SecretSuffix(n)[i] == '-'
    ensures TailShape(|SecretSuffix(n)| - i - 1, SecretSuffix(n)[i + 1])
  {
  }

  lemma ClientTails(n: SecretName, i: nat)
    requires n.FrontProxyClient? || n.CMClient? || n.SchedulerClient? || n.AdminClient?
    requires i + 1 < |SecretSuffix(n)| && SecretSuffix(n)[i] == '-'
    ensures TailShape(|SecretSuffix(n)| - i - 1, SecretSuffix(n)[i + 1])
  {
  }

  lemma OtherTails(n: SecretName, i: nat)
    requires n.SASigner? || n.AdminKubeconfig? || n.BootstrapToken?
    requires i + 1 < |SecretSuffix(n)| && SecretSuffix(n)[i] == '-'
    ensures TailShape(|SecretSuffix(n)| - i - 1, SecretSuffix(n)[i + 1])
  {
  }

  lemma SecretTails(n: SecretName, i: nat)
    requires i + 1 < |SecretSuffix(n)| && SecretSuffix(n)[i] == '-'
    ensures TailShape(|SecretSuffix(n)| - i - 1, SecretSuffix(n)[i + 1])
  {
    match n {
      case ManagedCA | EtcdCA | FrontProxyCA | KonnectivityCA => CATails(n, i);
      case APIServerTLS | EtcdServerTLS | EtcdPeerTLS => ServingTails(n, i);
      case KonnectivityServerTLS | KonnectivityAgentTLS => ServingTails(n, i);
      case APIServerKubeletClient | APIServerEtcdClient | EtcdHealthClient => LongClientTails(n, i);
      case FrontProxyClient | CMClient | SchedulerClient | AdminClient => ClientTails(n, i);
      case _ => OtherTails(n, i);
    }
  }

  lemma TailOfSecret(m: SecretName, t: string)
    requires DashTail(SecretSuffix(m), t) && t != []
    ensures TailShape(|t|, t[0])
  {
    var s := SecretSuffix(m);
    assert s[|s| - |t|..][0] == s[|s| - |t|];
    SecretTails(m, |s| - |t| - 1);
  }

  lemma NotTailShaped(n: SecretName)
    ensures SecretSuffix(n) != [] && !TailShape(|SecretSuffix(n)|, SecretSuffix(n)[0])
  {
  }

  lemma SecretNoTail(m: SecretName, n: SecretName)
    ensures !DashTail(SecretSuffix(m), SecretSuffix(n))
  {
    NotTailShaped(n);
    if DashTail(SecretSuffix(m), SecretSuffix(n)) { TailOfSecret(m, SecretSuffix(n)); }
  }

  lemma SecretSameSuffix(m: SecretName, n: SecretName)
    requires SecretSuffix(m) == SecretSuffix(n)
    ensures m == n
  {
  }

  /**
    Generated Secrets: names are equal only for the same control plane and the same purpose. So they are distinct within
    one control plane and never shared by two, whatever those are called. Certificates carry the names of their Secrets.
   */
  lemma SecretsNeverShared(p: string, m: SecretName, q: string, n: SecretName)
    requires Secret(p, m) == Secret(q, n)
    ensures p == q && m == n
  {
    SecretNoTail(m, n);
    SecretNoTail(n, m);
    Apart(p, SecretSuffix(m), q, SecretSuffix(n));
    SecretSameSuffix(m, n);
  }

  // ---------------------------------------------------------------- the other kinds

  lemma WorkloadNoTail(m: WorkloadName, n: WorkloadName)
    ensures !DashTail(WorkloadSuffix(m), WorkloadSuffix(n))
    ensures WorkloadSuffix(m) == WorkloadSuffix(n) ==> m == n
  {
  }

  lemma WorkloadsNeverShared(p: string, m: WorkloadName, q: string, n: WorkloadName)
    requires Workload(p, m) == Workload(q, n)
    ensures p == q && m == n
  {
    WorkloadNoTail(m, n);
    WorkloadNoTail(n, m);
    Apart(p, WorkloadSuffix(m), q, WorkloadSuffix(n));
  }

  lemma ConfigMapNoTail(m: ConfigMapName, n: ConfigMapName)
    ensures !DashTail(ConfigMapSuffix(m), ConfigMapSuffix(n))
    ensures ConfigMapSuffix(m) == ConfigMapSuffix(n) ==> m == n
  {
  }

  lemma ConfigMapsNeverShared(p: string, m: ConfigMapName, q: string, n: ConfigMapName)
    requires ConfigMap(p, m) == ConfigMap(q, n)
    ensures p == q && m == n
  {
    ConfigMapNoTail(m, n);
    ConfigMapNoTail(n, m);
    Apart(p, ConfigMapSuffix(m), q, ConfigMapSuffix(n));
  }

  // ---------------------------------------------------------------- issuers

  /** The trust domain an issuer belongs to. */
  function Domain(n: IssuerName): string {
    match n
    case SelfSigned | CA => ""
    case EtcdSelfSigned | EtcdCAIssuer => "etcd"
    case FrontProxySelfSigned | FrontProxyCAIssuer => "front-proxy"
    case KonnectivitySelfSigned | KonnectivityCAIssuer => "konnectivity"
  }

  predicate IsCA(n: IssuerName) {
    n.CA? || n.EtcdCAIssuer? || n.FrontProxyCAIssuer? || n.KonnectivityCAIssuer?
  }

  function Root(ca: bool): IssuerName {
    if ca then CA else SelfSigned
  }

  lemma SelfSignedComposed(n: IssuerName)
    requires Domain(n) != "" && !IsCA(n)
    ensures IssuerSuffix(n) == Prefix(Domain(n), "selfsigned")
  {
  }

  lemma CAComposed(n: IssuerName)
    requires Domain(n) != "" && IsCA(n)
    ensures IssuerSuffix(n) == Prefix(Domain(n), "ca-issuer")
  {
  }

  lemma IssuerComposed(n: IssuerName)
    requires Domain(n) != ""
    ensures IssuerSuffix(n) == Prefix(Domain(n), IssuerSuffix(Root(IsCA(n))))
  {
    if IsCA(n) { CAComposed(n); } else { SelfSignedComposed(n); }
  }

  function IssuerShape(n: IssuerName): (nat, char) {
    match n
    case SelfSigned => (10, 's')
    case CA => (9, 'c')
    case EtcdSelfSigned => (15, 'e')
    case EtcdCAIssuer => (14, 'e')
    case FrontProxySelfSigned => (22, 'f')
    case FrontProxyCAIssuer => (21, 'f')
    case KonnectivitySelfSigned => (23, 'k')
    case KonnectivityCAIssuer => (22, 'k')
  }

  lemma IssuerShaped(n: IssuerName)
    ensures IssuerSuffix(n) != [] && IssuerShape(n) == (|IssuerSuffix(n)|, IssuerSuffix(n)[0])
  {
  }

  lemma IssuerSameSuffix(m: IssuerName, n: IssuerName)
    requires IssuerSuffix(m) == IssuerSuffix(n)
    ensures m == n
  {
  }

  lemma IssuerDashes(n: IssuerName, i: nat)
    requires i + 1 < |IssuerSuffix(n)| && IssuerSuffix(n)[i] == '-'
    ensures var shape := (|IssuerSuffix(n)| - i - 1, IssuerSuffix(n)[i + 1]);
            || (Domain(n) != "" && shape == IssuerShape(Root(IsCA(n))) && i == |Domain(n)|)
            || shape in {(6, 'i'), (15, 'p'), (16, 'p')}
  {
    match n {
      case CA => assert i == 2;
      case EtcdSelfSigned => assert i == 4;
      case EtcdCAIssuer => assert i == 4 || i == 7;
      case FrontProxySelfSigned => assert i == 5 || i == 11;
      case FrontProxyCAIssuer => assert i == 5 || i == 11 || i == 14;
      case KonnectivitySelfSigned => assert i == 12;
      case KonnectivityCAIssuer => assert i == 12 || i == 15;
      case SelfSigned =>
    }
  }

  /**
    Only the issuers of a domain of their own end in a dash and another issuer's suffix: the root one of their kind.
   */
  lemma IssuerTails(m: IssuerName, n: IssuerName)
    requires DashTail(IssuerSuffix(m), IssuerSuffix(n))
    ensures Domain(m) != "" && n == Root(IsCA(m))
    ensures IssuerSuffix(m)[..|IssuerSuffix(m)| - |IssuerSuffix(n)| - 1] == Domain(m)
  {
    RootOfTail(m, n);
    IssuerComposed(m);
    HeadOf(IssuerSuffix(m), Domain(m), IssuerSuffix(n));
  }

  lemma RootOfTail(m: IssuerName, n: IssuerName)
    requires DashTail(IssuerSuffix(m), IssuerSuffix(n))
    ensures Domain(m) != "" && n == Root(IsCA(m))
  {
    IssuerShaped(n);
    IssuerDashes(m, |IssuerSuffix(m)| - |IssuerSuffix(n)| - 1);
    RootByShape(n, IsCA(m));
  }

  lemma RootByShape(n: IssuerName, ca: bool)
    requires IssuerShape(n) == IssuerShape(Root(ca)) || IssuerShape(n) in {(6, 'i'), (15, 'p'), (16, 'p')}
    ensures n == Root(ca)
  {
  }

  lemma HeadOf(s: string, d: string, t: string)
    requires s == Prefix(d, t)
    ensures s[..|s| - |t| - 1] == d
  {
  }

  /** q is p continued by a trust domain. */
  predicate Continues(q: string, p: string) {
    q == Prefix(p, "etcd") || q == Prefix(p, "front-proxy") || q == Prefix(p, "konnectivity")
  }

  lemma IssuerClash(p: string, m: IssuerName, q: string, n: IssuerName)
    requires Issuer(p, m) == Issuer(q, n)
    ensures (p == q && m == n) || Continues(p, q) || Continues(q, p)
  {
    var s, t := IssuerSuffix(m), IssuerSuffix(n);
    if |s| == |t| {
      TwoPrefixes(p, s, q, t);
      IssuerSameSuffix(m, n);
    } else if |s| > |t| {
      LongerIssuer(p, m, q, n);
    } else {
      LongerIssuer(q, n, p, m);
    }
  }

  lemma LongerIssuer(p: string, m: IssuerName, q: string, n: IssuerName)
    requires Issuer(p, m) == Issuer(q, n) && |IssuerSuffix(m)| > |IssuerSuffix(n)|
    ensures Continues(q, p)
  {
    TwoPrefixes(p, IssuerSuffix(m), q, IssuerSuffix(n));
    IssuerTails(m, n);
    DomainContinues(p, q, m);
  }

  lemma DomainContinues(p: string, q: string, m: IssuerName)
    requires Domain(m) != "" && q == Prefix(p, Domain(m))
    ensures Continues(q, p)
  {
  }

  lemma IssuerShared(p: string, m: IssuerName)
    requires Domain(m) != ""
    ensures Issuer(p, m) == Issuer(Prefix(p, Domain(m)), Root(IsCA(m)))
  {
    IssuerComposed(m);
  }

  lemma IssuersDistinct(p: string, m: IssuerName, n: IssuerName)
    requires Issuer(p, m) == Issuer(p, n)
    ensures m == n
  {
    IssuerClash(p, m, p, n);
  }

  /** Two control planes share an Issuer name exactly when one's name is the other's continued by a trust domain. */
  lemma IssuersShared(p: string, q: string)
    requires p != q
    ensures (exists m, n :: Issuer(p, m) == Issuer(q, n)) <==> Continues(p, q) || Continues(q, p)
  {
    if m, n :| Issuer(p, m) == Issuer(q, n) {
      IssuerClash(p, m, q, n);
    }
    if Continues(q, p) {
      ContinuedShares(p, q);
    } else if Continues(p, q) {
      ContinuedShares(q, p);
    }
  }

  lemma ContinuedShares(p: string, q: string)
    requires Continues(q, p)
    ensures exists m, n :: Issuer(p, m) == Issuer(q, n)
  {
    var m := if q == Prefix(p, "etcd") then EtcdCAIssuer
             else if q == Prefix(p, "front-proxy") then FrontProxyCAIssuer else KonnectivityCAIssuer;
    IssuerShared(p, m);
    assert Issuer(p, m) == Issuer(q, CA);
  }
}
