/** The issuers and certificates of one control plane, and what the certificate manager writes for them. */
module Pki {
  import opened Optional
  import opened Names

  /**
    A control plane: `addressIsIp` is whether its address parses as an IP, `serviceIp` what firstServiceIP gives for the
    service CIDR, if there is one.
   */
  datatype Cluster = Cluster(name: string, namespace: string, address: string, addressIsIp: bool,
                             serviceIp: Option<string>)

  datatype IssuerSpec = SelfSignedSpec | CASpec(secret: string)

  datatype IssuerObject = IssuerObject(name: string, namespace: string, spec: IssuerSpec)

  datatype Usage = DigitalSignature | KeyEncipherment | ServerAuth | ClientAuth

  datatype Certificate = Certificate(
    name: string, namespace: string, secretName: string, commonName: string, isCA: bool, issuer: string,
    usages: set<Usage>, dns: seq<string>, ips: seq<string>, organizations: seq<string>)

  const ISSUERS: seq<IssuerName> :=
    [SelfSigned, CA, EtcdSelfSigned, EtcdCAIssuer, FrontProxySelfSigned, FrontProxyCAIssuer,
     KonnectivitySelfSigned, KonnectivityCAIssuer]

  const CERTIFICATES: seq<SecretName> :=
    [ManagedCA, EtcdCA, FrontProxyCA, KonnectivityCA, SASigner, APIServerTLS, KonnectivityServerTLS,
     APIServerKubeletClient, KonnectivityAgentTLS, EtcdServerTLS, EtcdPeerTLS, EtcdHealthClient, APIServerEtcdClient,
     FrontProxyClient, CMClient, SchedulerClient, AdminClient]

  // ---------------------------------------------------------------- issuers

  function SpecOf(c: Cluster, n: IssuerName): IssuerSpec {
    match n
    case CA => CASpec(Secret(c.name, ManagedCA))
    case EtcdCAIssuer => CASpec(Secret(c.name, EtcdCA))
    case FrontProxyCAIssuer => CASpec(Secret(c.name, FrontProxyCA))
    case KonnectivityCAIssuer => CASpec(Secret(c.name, KonnectivityCA))
    case _ => SelfSignedSpec
  }

  function IssuerOf(c: Cluster, n: IssuerName): IssuerObject {
    IssuerObject(Issuer(c.name, n), c.namespace, SpecOf(c, n))
  }

  function IssuersFrom(c: Cluster, ns: seq<IssuerName>): (r: seq<IssuerObject>)
    ensures |r| == |ns| && forall i :: 0 <= i < |ns| ==> r[i] == IssuerOf(c, ns[i])
  {
    if ns == [] then [] else [IssuerOf(c, ns[0])] + IssuersFrom(c, ns[1..])
  }

  function Issuers(c: Cluster): seq<IssuerObject> {
    IssuersFrom(c, ISSUERS)
  }

  // ---------------------------------------------------------------- subject alternative names

  function AddressNames(c: Cluster): seq<string> {
    if c.address != "" && !c.addressIsIp then [c.address] else []
  }

  function AddressIps(c: Cluster): seq<string> {
    (if c.serviceIp.Some? then [c.serviceIp.value] else [])
    + (if c.address != "" && c.addressIsIp then [c.address] else [])
    + ["127.0.0.1"]
  }

  function ServiceHost(c: Cluster): string {
    Workload(c.name, APIServer) + "." + c.namespace + ".svc"
  }

  function ApiserverNames(c: Cluster): seq<string> {
    [ServiceHost(c), ServiceHost(c) + ".cluster.local",
     "kube-apiserver." + c.namespace + ".svc", "kube-apiserver." + c.namespace + ".svc.cluster.local",
     "kubernetes", "kubernetes.default", "kubernetes.default.svc", "kubernetes.default.svc.cluster.local",
     "localhost"] + AddressNames(c)
  }

  function KonnectivityNames(c: Cluster): seq<string> {
    ["konnectivity-server", "konnectivity-server." + c.namespace, "konnectivity-server." + c.namespace + ".svc"]
    + AddressNames(c)
  }

  function EtcdPod(c: Cluster): string {
    Workload(c.name, Etcd) + "-0"
  }

  function EtcdNames(c: Cluster): seq<string> {
    var pod := EtcdPod(c) + "." + Workload(c.name, Etcd) + "." + c.namespace + ".svc";
    var service := Workload(c.name, Etcd) + "." + c.namespace + ".svc";
    [pod, pod + ".cluster.local", service, service + ".cluster.local", "localhost"]
  }

  function Truncated(s: string): string {
    if |s| > 64 then s[..64] else s
  }

  // ---------------------------------------------------------------- certificates

  const SIGNING: set<Usage> := {DigitalSignature, KeyEncipherment}

  function Root(c: Cluster, n: SecretName, cn: string, issuer: IssuerName): Certificate {
    Certificate(Secret(c.name, n), c.namespace, Secret(c.name, n), cn, true, Issuer(c.name, issuer), {}, [], [], [])
  }

  function Leaf(c: Cluster, n: SecretName, cn: string, issuer: IssuerName, usages: set<Usage>): Certificate {
    var secret := Secret(c.name, n);
    Certificate(secret, c.namespace, secret, cn, false, Issuer(c.name, issuer), usages, [], [], [])
  }

  function Serving(c: Cluster, n: SecretName, cn: string, issuer: IssuerName, dns: seq<string>,
                   ips: seq<string>): Certificate {
    Leaf(c, n, cn, issuer, SIGNING + {ServerAuth}).(dns := dns, ips := ips)
  }

  function Client(c: Cluster, n: SecretName, cn: string, issuer: IssuerName): Certificate {
    Leaf(c, n, cn, issuer, SIGNING + {ClientAuth})
  }

  function Member(c: Cluster, n: SecretName): Certificate {
    Leaf(c, n, Truncated(EtcdPod(c)), EtcdCAIssuer, SIGNING + {ServerAuth, ClientAuth}).(dns := EtcdNames(c))
  }

  predicate Certified(n: SecretName) {
    !n.AdminKubeconfig? && !n.BootstrapToken?
  }

  function CertificateOf(c: Cluster, n: SecretName): (x: Certificate)
    requires Certified(n)
    ensures x.name == x.secretName == Secret(c.name, n) && x.namespace == c.namespace
  {
    match n
    case ManagedCA => Root(c, n, "managed-ca", SelfSigned)
    case EtcdCA => Root(c, n, "etcd-ca", EtcdSelfSigned)
    case FrontProxyCA => Root(c, n, "kubernetes-front-proxy-ca", FrontProxySelfSigned)
    case KonnectivityCA => Root(c, n, "konnectivity-ca", KonnectivitySelfSigned)
    case SASigner => Leaf(c, n, "sa-signer", CA, SIGNING)
    case APIServerTLS => Serving(c, n, "kube-apiserver", CA, ApiserverNames(c), AddressIps(c))
    case KonnectivityServerTLS => Serving(c, n, "konnectivity-server", KonnectivityCAIssuer, KonnectivityNames(c),
                                          AddressIps(c))
    case APIServerKubeletClient =>
      Client(c, n, "kube-apiserver-kubelet-client", CA).(organizations := ["system:masters"])
    case KonnectivityAgentTLS => Client(c, n, "konnectivity-agent", KonnectivityCAIssuer)
    case EtcdServerTLS => Member(c, n)
    case EtcdPeerTLS => Member(c, n)
    case EtcdHealthClient => Client(c, n, "kube-etcd-healthcheck-client", EtcdCAIssuer)
    case APIServerEtcdClient => Client(c, n, "kube-apiserver-etcd-client", EtcdCAIssuer)
    case FrontProxyClient => Client(c, n, "front-proxy-client", FrontProxyCAIssuer)
    case CMClient => Client(c, n, "system:kube-controller-manager", CA)
    case SchedulerClient => Client(c, n, "system:kube-scheduler", CA)
    case AdminClient => Client(c, n, "kubernetes-admin", CA).(organizations := ["system:masters"])
  }

  function CertificatesFrom(c: Cluster, ns: seq<SecretName>): (cs: seq<Certificate>)
    requires forall n :: n in ns ==> Certified(n)
    ensures |cs| == |ns| && forall i :: 0 <= i < |ns| ==> cs[i] == CertificateOf(c, ns[i])
  {
    if ns == [] then [] else [CertificateOf(c, ns[0])] + CertificatesFrom(c, ns[1..])
  }

  function Certificates(c: Cluster): seq<Certificate> {
    CertificatesFrom(c, CERTIFICATES)
  }

  // ---------------------------------------------------------------- references

  function FindIssuer(s: seq<IssuerObject>, name: string): Option<IssuerObject> {
    if s == [] then None else if s[0].name == name then Some(s[0]) else FindIssuer(s[1..], name)
  }

  function FindCertificate(cs: seq<Certificate>, secret: string): Option<Certificate> {
    if cs == [] then None else if cs[0].secretName == secret then Some(cs[0]) else FindCertificate(cs[1..], secret)
  }

  lemma {:induction false} IssuerAt(s: seq<IssuerObject>, k: nat)
    requires k < |s| && forall j :: 0 <= j < k ==> s[j].name != s[k].name
    ensures FindIssuer(s, s[k].name) == Some(s[k])
  {
    if k > 0 {
      IssuerAt(s[1..], k - 1);
    }
  }

  lemma {:induction false} CertificateAt(s: seq<Certificate>, k: nat)
    requires k < |s| && forall j :: 0 <= j < k ==> s[j].secretName != s[k].secretName
    ensures FindCertificate(s, s[k].secretName) == Some(s[k])
  {
    if k > 0 {
      CertificateAt(s[1..], k - 1);
    }
  }

  lemma {:induction false} FirstAt<T>(s: seq<T>, x: T) returns (k: nat)
    requires x in s
    ensures k < |s| && s[k] == x && forall j :: 0 <= j < k ==> s[j] != x
  {
    if s[0] == x {
      k := 0;
    } else {
      k := FirstAt(s[1..], x);
      k := k + 1;
    }
  }

  lemma FoundIssuer(c: Cluster, ns: seq<IssuerName>, n: IssuerName)
    requires n in ns
    ensures FindIssuer(IssuersFrom(c, ns), Issuer(c.name, n)) == Some(IssuerOf(c, n))
  {
    var k := FirstAt(ns, n);
    var s := IssuersFrom(c, ns);
    forall j | 0 <= j < k
      ensures s[j].name != s[k].name
    {
      if Issuer(c.name, ns[j]) == Issuer(c.name, n) { IssuersDistinct(c.name, ns[j], n); }
    }
    IssuerAt(s, k);
  }

  lemma FoundCertificate(c: Cluster, ns: seq<SecretName>, n: SecretName)
    requires n in ns && forall n :: n in ns ==> Certified(n)
    ensures FindCertificate(CertificatesFrom(c, ns), Secret(c.name, n)) == Some(CertificateOf(c, n))
  {
    var k := FirstAt(ns, n);
    var s := CertificatesFrom(c, ns);
    forall j | 0 <= j < k
      ensures s[j].secretName != s[k].secretName
    {
      if Secret(c.name, ns[j]) == Secret(c.name, n) { SecretsNeverShared(c.name, ns[j], c.name, n); }
    }
    CertificateAt(s, k);
  }

  lemma AllListed(n: SecretName, i: IssuerName)
    ensures Certified(n) <==> n in CERTIFICATES
    ensures i in ISSUERS
  {
  }

  /** Whose key signs the certificate in a Secret. */
  function Signer(n: SecretName): SecretName
    requires Certified(n)
  {
    match n
    case ManagedCA | SASigner | APIServerTLS | APIServerKubeletClient => ManagedCA
    case CMClient | SchedulerClient | AdminClient => ManagedCA
    case EtcdCA | EtcdServerTLS | EtcdPeerTLS | EtcdHealthClient | APIServerEtcdClient => EtcdCA
    case FrontProxyCA | FrontProxyClient => FrontProxyCA
    case KonnectivityCA | KonnectivityServerTLS | KonnectivityAgentTLS => KonnectivityCA
  }

  /**
    The references close: every certificate names an issuer of the list in its namespace; the CAs are the certificates
    of self-signed issuers; and any other issuer signs with the Secret of a CA certificate of the list.
   */
  lemma ReferencesClose(c: Cluster, n: SecretName)
    requires Certified(n)
    ensures n in CERTIFICATES && FindCertificate(Certificates(c), Secret(c.name, n)) == Some(CertificateOf(c, n))
    ensures FindCertificate(Certificates(c), Secret(c.name, Signer(n))) == Some(CertificateOf(c, Signer(n)))
    ensures CertificateOf(c, Signer(n)).isCA
    ensures var i := FindIssuer(Issuers(c), CertificateOf(c, n).issuer);
            && i.Some? && i.value.namespace == c.namespace
            && i.value.spec == if CertificateOf(c, n).isCA then SelfSignedSpec else CASpec(Secret(c.name, Signer(n)))
  {
    var i := IssuedBy(c, n);
    Listed(c, n, i);
    Listed(c, Signer(n), i);
    SignersAreRoots(c, n);
  }

  lemma SignersAreRoots(c: Cluster, n: SecretName)
    requires Certified(n)
    ensures CertificateOf(c, Signer(n)).isCA
  {
  }

  lemma Listed(c: Cluster, n: SecretName, i: IssuerName)
    requires Certified(n)
    ensures n in CERTIFICATES && FindCertificate(Certificates(c), Secret(c.name, n)) == Some(CertificateOf(c, n))
    ensures FindIssuer(Issuers(c), Issuer(c.name, i)) == Some(IssuerOf(c, i))
  {
    AllListed(n, i);
    FoundCertificate(c, CERTIFICATES, n);
    FoundIssuer(c, ISSUERS, i);
  }

  lemma IssuedBy(c: Cluster, n: SecretName) returns (i: IssuerName)
    requires Certified(n)
    ensures CertificateOf(c, n).issuer == Issuer(c.name, i)
    ensures SpecOf(c, i) == if CertificateOf(c, n).isCA then SelfSignedSpec else CASpec(Secret(c.name, Signer(n)))
  {
    match n {
      case ManagedCA => i := SelfSigned;
      case EtcdCA => i := EtcdSelfSigned;
      case FrontProxyCA => i := FrontProxySelfSigned;
      case KonnectivityCA => i := KonnectivitySelfSigned;
      case SASigner | APIServerTLS | APIServerKubeletClient | CMClient | SchedulerClient | AdminClient => i := CA;
      case EtcdServerTLS | EtcdPeerTLS | EtcdHealthClient | APIServerEtcdClient => i := EtcdCAIssuer;
      case FrontProxyClient => i := FrontProxyCAIssuer;
      case KonnectivityServerTLS | KonnectivityAgentTLS => i := KonnectivityCAIssuer;
    }
  }

  /** A shared CA issuer is a conflict: the two control planes want different CAs behind one name. */
  lemma SharedIssuersConflict(c: Cluster, d: Cluster, m: IssuerName)
    requires Domain(m) != "" && IsCA(m) && d.name == Prefix(c.name, Domain(m)) && c.namespace == d.namespace
    ensures IssuerOf(c, m).name == IssuerOf(d, CA).name && IssuerOf(c, m).namespace == IssuerOf(d, CA).namespace
    ensures IssuerOf(c, m).spec != IssuerOf(d, CA).spec
  {
    IssuerShared(c.name, m);
    if IssuerOf(c, m).spec == IssuerOf(d, CA).spec {
      var n := if m.EtcdCAIssuer? then EtcdCA else if m.FrontProxyCAIssuer? then FrontProxyCA else KonnectivityCA;
      SecretsNeverShared(c.name, n, d.name, ManagedCA);
    }
  }

  // ---------------------------------------------------------------- what ends up in the secrets

  /** A file's content: the certificate or the key of a Secret. */
  datatype Pem = CertOf(secret: string) | KeyOf(secret: string)

  /** What the certificate manager writes: the certificate, its key, and the certificate of the CA that signed it. */
  function Written(c: Cluster, secret: string, file: string): Option<Pem> {
    match FindCertificate(Certificates(c), secret)
    case None => None
    case Some(x) =>
      match file
      case "tls.crt" => Some(CertOf(secret))
      case "tls.key" => Some(KeyOf(secret))
      case "ca.crt" =>
        (match FindIssuer(Issuers(c), x.issuer)
         case None => None
         case Some(i) => Some(CertOf(if i.spec.SelfSignedSpec? then secret else i.spec.secret)))
      case _ => None
  }

  lemma WrittenFor(c: Cluster, secret: string, x: Certificate, i: IssuerObject)
    requires FindCertificate(Certificates(c), secret) == Some(x) && FindIssuer(Issuers(c), x.issuer) == Some(i)
    ensures Written(c, secret, "tls.crt") == Some(CertOf(secret))
    ensures Written(c, secret, "tls.key") == Some(KeyOf(secret))
    ensures Written(c, secret, "ca.crt") == Some(CertOf(if i.spec.SelfSignedSpec? then secret else i.spec.secret))
  {
  }

  lemma RootsSignThemselves(c: Cluster, n: SecretName)
    requires Certified(n) && CertificateOf(c, n).isCA
    ensures Signer(n) == n
  {
  }

  lemma WrittenAre(c: Cluster, n: SecretName)
    requires Certified(n)
    ensures Written(c, Secret(c.name, n), "tls.crt") == Some(CertOf(Secret(c.name, n)))
    ensures Written(c, Secret(c.name, n), "tls.key") == Some(KeyOf(Secret(c.name, n)))
    ensures Written(c, Secret(c.name, n), "ca.crt") == Some(CertOf(Secret(c.name, Signer(n))))
  {
    ReferencesClose(c, n);
    var x := CertificateOf(c, n);
    WrittenFor(c, Secret(c.name, n), x, FindIssuer(Issuers(c), x.issuer).value);
    if x.isCA { RootsSignThemselves(c, n); }
  }
}
