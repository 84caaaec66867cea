/**
  The objects that run a control plane: what they are called and where they live, the Services in front of them, and
  which pods a Service reaches.
 */
module Objects {
  import opened Optional
  import opened Names
  import opened Pki
  import opened Templates
  import opened Workloads

  function WorkloadOf(c: Cluster, n: WorkloadName): Template {
    match n
    case APIServer => ApiserverDeployment(c)
    case Etcd => EtcdStatefulSet(c)
    case ControllerManager => CMDeployment(c)
    case Scheduler => SchedulerDeployment(c)
  }

  // ---------------------------------------------------------------- names

  /** Each workload has its own name in the control plane's namespace, one replica, and its app label everywhere. */
  lemma GeneratedAs(c: Cluster, n: WorkloadName)
    ensures var t := WorkloadOf(c, n);
            var app := match n
                       case APIServer => "kube-apiserver"
                       case Etcd => "etcd"
                       case ControllerManager => "kube-controller-manager"
                       case Scheduler => "kube-scheduler";
            && t.name == Workload(c.name, n) && t.namespace == c.namespace && t.replicas == Some(1)
            && t.labels == t.selector == t.podLabels == map["app" := app]
            && t.serviceName == (if n.Etcd? then Workload(c.name, Etcd) else "")
            && t.serviceAccount == ""
  {
    match n
    case APIServer => ApiserverBuilt(c); NamedIs(c, APIServer, "kube-apiserver");
    case Etcd => EtcdBuilt(c); NamedIs(c, Etcd, "etcd");
    case ControllerManager => CMBuilt(c); NamedIs(c, ControllerManager, "kube-controller-manager");
    case Scheduler => SchedulerBuilt(c); NamedIs(c, Scheduler, "kube-scheduler");
  }

  /** No generated workload overwrites another: same name and namespace only for one control plane and one purpose. */
  lemma WorkloadsNeverCollide(c: Cluster, n: WorkloadName, d: Cluster, m: WorkloadName)
    requires WorkloadOf(c, n).name == WorkloadOf(d, m).name
    requires WorkloadOf(c, n).namespace == WorkloadOf(d, m).namespace
    ensures c.name == d.name && c.namespace == d.namespace && n == m
  {
    GeneratedAs(c, n);
    GeneratedAs(d, m);
    WorkloadsNeverShared(c.name, n, d.name, m);
  }

  // ---------------------------------------------------------------- Services

  datatype Service = Service(
    name: string, namespace: string, selector: Labels, headless: bool, ports: map<string, string>)

  function ApiserverService(c: Cluster): Service {
    Service(Workload(c.name, APIServer), c.namespace, map["app" := "kube-apiserver"], false,
            map["https" := "6443", "grpc" := "8132"])
  }

  function EtcdService(c: Cluster): Service {
    Service(Workload(c.name, Etcd), c.namespace, map["app" := "etcd"], true, map["client" := "2379", "peer" := "2380"])
  }

  /** The pods a Service sends to: those of its namespace that have all labels of its selector. */
  ghost predicate Reaches(s: Service, t: Template) {
    s.namespace == t.namespace && forall k :: k in s.selector ==> k in t.podLabels && t.podLabels[k] == s.selector[k]
  }

  /**
    What the API server dials exists: the host is that of the first pod of the StatefulSet, under the Service the
    StatefulSet names, which is headless, in the same namespace, and reaches the pod on the port dialled.
   */
  lemma EtcdHostIsThePod(c: Cluster)
    ensures var t, s := EtcdStatefulSet(c), EtcdService(c);
            && EtcdHost(c) == t.name + "-0." + t.serviceName + "." + t.namespace + ".svc"
            && t.serviceName == s.name && t.namespace == s.namespace && s.headless && Reaches(s, t)
            && s.ports["client"] == "2379" && s.ports["peer"] == "2380"
            && Url("--etcd-servers", EtcdHost(c), s.ports["client"]) in ApiserverArgs(c)
  {
    EtcdPodNamed(c);
    EtcdServiceReaches(c);
    assert ApiserverArgs(c)[1] == Url("--etcd-servers", EtcdHost(c), "2379");
  }

  lemma EtcdPodNamed(c: Cluster)
    ensures var t := EtcdStatefulSet(c); EtcdHost(c) == t.name + "-0." + t.serviceName + "." + t.namespace + ".svc"
  {
    GeneratedAs(c, Etcd);
    PodName(c.name);
  }

  lemma EtcdServiceReaches(c: Cluster)
    ensures var t, s := EtcdStatefulSet(c), EtcdService(c);
            t.serviceName == s.name && t.namespace == s.namespace && Reaches(s, t)
  {
    GeneratedAs(c, Etcd);
  }

  lemma PodName(name: string)
    ensures Prefix(name, "etcd-0") + "." == Workload(name, Etcd) + "-0."
  {
    assert "etcd-0" + "." == "etcd" + "-0.";
    assert Prefix(name, "etcd-0") + "." == name + "-" + ("etcd-0" + ".");
    assert Workload(name, Etcd) + "-0." == name + "-" + ("etcd" + "-0.");
  }

  /** The API server's service name leads to its own pods, on the port the component kubeconfigs dial. */
  lemma ServiceHostIsTheService(c: Cluster, client: SecretName)
    ensures var s := ApiserverService(c);
            && ServiceHost(c) == s.name + "." + s.namespace + ".svc" && Reaches(s, ApiserverDeployment(c))
            && ComponentKubeconfig(c, client).host == ServiceHost(c)
            && ComponentKubeconfig(c, client).port == s.ports["https"]
            && AGENT_PORT == s.ports["grpc"]
  {
    GeneratedAs(c, APIServer);
  }

  // ---------------------------------------------------------------- two control planes

  /**
    A Service reaches the pods of its purpose of every control plane in the namespace, and no others: the selector names
    the application and not the control plane.
   */
  lemma ReachesExactly(c: Cluster, d: Cluster, m: WorkloadName)
    ensures Reaches(ApiserverService(c), WorkloadOf(d, m)) <==> c.namespace == d.namespace && m.APIServer?
    ensures Reaches(EtcdService(c), WorkloadOf(d, m)) <==> c.namespace == d.namespace && m.Etcd?
  {
    GeneratedAs(d, m);
    AppsDiffer();
    ReachesByApp(ApiserverService(c), WorkloadOf(d, m), "kube-apiserver");
    ReachesByApp(EtcdService(c), WorkloadOf(d, m), "etcd");
  }

  lemma ReachesByApp(s: Service, t: Template, app: string)
    requires s.selector == map["app" := app] && "app" in t.podLabels
    ensures Reaches(s, t) <==> s.namespace == t.namespace && t.podLabels["app"] == app
  {
    assert "app" in s.selector;
  }

  lemma AppsDiffer()
    ensures "kube-apiserver" != "etcd" && "kube-apiserver" != "kube-controller-manager"
    ensures "kube-apiserver" != "kube-scheduler"
    ensures "etcd" != "kube-controller-manager" && "etcd" != "kube-scheduler"
  {
    assert |"kube-apiserver"| == |"kube-scheduler"| && "kube-apiserver"[5] != "kube-scheduler"[5];
  }

  /** So of two control planes in one namespace, each one's Services send to the other's API server and etcd as well. */
  lemma EndpointsShared(c: Cluster, d: Cluster)
    requires c.name != d.name && c.namespace == d.namespace
    ensures ApiserverDeployment(c).name != ApiserverDeployment(d).name
    ensures Reaches(ApiserverService(c), ApiserverDeployment(d)) && Reaches(EtcdService(c), EtcdStatefulSet(d))
  {
    GeneratedAs(c, APIServer);
    GeneratedAs(d, APIServer);
    if Workload(c.name, APIServer) == Workload(d.name, APIServer) {
      WorkloadsNeverShared(c.name, APIServer, d.name, APIServer);
    }
    ReachesExactly(c, d, APIServer);
    ReachesExactly(c, d, Etcd);
  }
}
