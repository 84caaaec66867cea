/**
  What clients inside the managed cluster dial: the first address of the service network, and the service's names. From
  the CIDR of the spec to the serving certificates, and from there to who is trusted at that address.
 */
module ServiceAddress {
  import opened Optional
  import opened Names
  import opened Pki
  import opened Trust
  import Addresses
  import BigEndian

  type Printer = Option<seq<BigEndian.byte>> -> string

  /**
    The service IP of a spec: `networking` is its CIDR as net.ParseCIDR takes it, None if the section is missing, and
    `written` how addresses are written, the nil one included.
   */
  ghost function ServiceIpOf(networking: Option<Option<Addresses.Cidr>>, written: Printer): Option<string> {
    match networking
    case None => None
    case Some(cidr) =>
      match Addresses.FirstServiceIpOf(cidr)
      case None => None
      case Some(ip) => Some(written(ip))
  }

  predicate ServesTheCluster(n: SecretName) {
    n.APIServerTLS? || n.KonnectivityServerTLS?
  }

  // ---------------------------------------------------------------- the names of the serving certificates

  /** The addresses of both serving certificates are these three and no others. */
  lemma IpsExactly(c: Cluster, n: SecretName, host: string)
    requires ServesTheCluster(n)
    ensures host in CertificateOf(c, n).ips <==>
              || c.serviceIp == Some(host)
              || (host == c.address && host != "" && c.addressIsIp)
              || host == "127.0.0.1"
  {
  }

  lemma ServiceIpNamed(c: Cluster, n: SecretName, ip: string)
    requires ServesTheCluster(n) && c.serviceIp == Some(ip)
    ensures NamesHost(c, n, ip)
  {
    IpsExactly(c, n, ip);
  }

  /** The names under which pods find the API server and the konnectivity server. */
  lemma ServiceNamesNamed(c: Cluster, host: string)
    ensures host in {"kubernetes", "kubernetes.default", "kubernetes.default.svc",
                     "kubernetes.default.svc.cluster.local", "localhost"} ==>
              NamesHost(c, APIServerTLS, host)
    ensures host == ServiceHost(c) + ".cluster.local" ==> NamesHost(c, APIServerTLS, host)
    ensures host == "konnectivity-server." + c.namespace + ".svc" ==> NamesHost(c, KonnectivityServerTLS, host)
  {
    var names := ApiserverNames(c);
    assert names[1] == ServiceHost(c) + ".cluster.local" && names[4] == "kubernetes" && names[8] == "localhost";
    assert names[5] == "kubernetes.default" && names[6] == "kubernetes.default.svc";
    assert names[7] == "kubernetes.default.svc.cluster.local";
    assert KonnectivityNames(c)[2] == "konnectivity-server." + c.namespace + ".svc";
  }

  // ---------------------------------------------------------------- who is trusted there

  /**
    A client of the managed CA and the API server authenticate each other at the service IP and at the service name.
   */
  lemma ClientsInside(c: Cluster, client: SecretName, ip: string)
    requires IsClient(client) && Signer(client) == ManagedCA && c.serviceIp == Some(ip)
    ensures Mutual(c, SideOf(c, client, ManagedCA), SideOf(c, APIServerTLS, ManagedCA), ip)
    ensures Mutual(c, SideOf(c, client, ManagedCA), SideOf(c, APIServerTLS, ManagedCA), "kubernetes.default.svc")
  {
    ServiceIpNamed(c, APIServerTLS, ip);
    ServiceNamesNamed(c, "kubernetes.default.svc");
    MutuallyTrusted(c, client, APIServerTLS, ip);
    MutuallyTrusted(c, client, APIServerTLS, "kubernetes.default.svc");
  }

  /**
    From the spec: for every service network with room for it, the address after the network's own is a member of the
    network, and the API server authenticates there.
   */
  lemma ServiceNetworkServed(c: Cluster, cidr: Addresses.Cidr, written: Printer, client: SecretName)
    requires IsClient(client) && Signer(client) == ManagedCA
    requires Addresses.Parsed(cidr) && cidr.prefix < if cidr.V4? then 32 else 128
    requires c.serviceIp == ServiceIpOf(Some(Some(cidr)), written)
    ensures exists ip ::
              && Addresses.FirstServiceIpOf(Some(cidr)) == Some(Some(ip))
              && BigEndian.Value(ip) == BigEndian.Value(Addresses.Canonical(Addresses.Network(cidr))) + 1
              && Mutual(c, SideOf(c, client, ManagedCA), SideOf(c, APIServerTLS, ManagedCA), written(Some(ip)))
  {
    var ip := FirstAddress(cidr);
    ClientsInside(c, client, written(Some(ip)));
  }

  lemma FirstAddress(cidr: Addresses.Cidr) returns (ip: seq<BigEndian.byte>)
    requires Addresses.Parsed(cidr) && cidr.prefix < if cidr.V4? then 32 else 128
    ensures Addresses.FirstServiceIpOf(Some(cidr)) == Some(Some(ip))
    ensures BigEndian.Value(ip) == BigEndian.Value(Addresses.Canonical(Addresses.Network(cidr))) + 1
  {
    if cidr.V4? {
      ip := Addresses.FirstOfV4(cidr);
    } else {
      ip := Addresses.FirstOfV6(cidr);
    }
  }

  /** Without a networking section, or with a CIDR that does not parse, no service address is named. */
  lemma NoServiceIp(c: Cluster, networking: Option<Option<Addresses.Cidr>>, written: Printer, n: SecretName,
                    host: string)
    requires ServesTheCluster(n) && (networking.None? || networking.value.None?)
    requires c.serviceIp == ServiceIpOf(networking, written)
    ensures host in CertificateOf(c, n).ips ==> host == c.address || host == "127.0.0.1"
  {
    IpsExactly(c, n, host);
  }
}
