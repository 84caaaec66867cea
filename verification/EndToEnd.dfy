/**
  From the reconcile protocol to the certificates: what a written kubeconfig dials is what the generated certificates
  name.
 */
module EndToEnd {
  import opened Optional
  import opened Status
  import opened ControlPlaneModel
  import opened ControlPlaneProofs
  import Names
  import Pki
  import Trust

  /** Certificates, API server and kubeconfig were generated for this address. */
  ghost predicate AllFor(c: Children, a: string) {
    c.pki == Some(a) && c.apiserver == Some(a) && c.kubeconfig == Some(a)
  }

  /** Within a pass everything is generated for the address of the one version it read. */
  ghost predicate OneAddress(s: State) {
    match s.pc
    case Component(v, i) =>
      && v < |s.history|
      && (i >= 2 ==> s.children.pki == Some(s.history[v].status.address))
      && (i >= 4 ==> s.children.apiserver == Some(s.history[v].status.address))
    case Fetching(v, i, _, _) => v < |s.history| && (i == 6 ==> AllFor(s.children, s.history[v].status.address))
    case Committing(v, i, _, _, _) => v < |s.history| && (i == 6 ==> AllFor(s.children, s.history[v].status.address))
    case Reporting(v, o) => v < |s.history| && (o.AllReady? ==> AllFor(s.children, s.history[v].status.address))
    case _ => true
  }

  lemma OneAddressPass(s: State, l: Label)
    requires Invariant(s) && OneAddress(s) && Enabled(s, l) && ByOperator(l)
    ensures OneAddress(Step(s, l))
  {
    if l.Apply? || l.Admin? || l.Address? {
      OneAddressComponent(s, l);
    } else if l.Fetch? || l.Put? {
      OneAddressWrite(s, l);
    }
  }

  lemma OneAddressComponent(s: State, l: Label)
    requires Invariant(s) && OneAddress(s) && Enabled(s, l) && (l.Apply? || l.Admin? || l.Address?)
    ensures OneAddress(Step(s, l))
  {
  }

  lemma OneAddressWrite(s: State, l: Label)
    requires Invariant(s) && OneAddress(s) && Enabled(s, l) && (l.Fetch? || l.Put?)
    ensures OneAddress(Step(s, l))
  {
  }

  lemma OneAddressOutside(s: State, l: Label)
    requires Invariant(s) && OneAddress(s) && Enabled(s, l) && !ByOperator(l)
    ensures OneAddress(Step(s, l))
  {
  }

  lemma {:induction false} OneAddressRun(s: State, labels: seq<Label>)
    requires Invariant(s) && OneAddress(s) && Run(s, labels).Some?
    ensures OneAddress(Run(s, labels).value) && Run(s, labels).value.name == s.name
    decreases |labels|
  {
    if labels != [] {
      InvariantStep(s, labels[0]);
      if ByOperator(labels[0]) { OneAddressPass(s, labels[0]); } else { OneAddressOutside(s, labels[0]); }
      OneAddressRun(Step(s, labels[0]), labels[1..]);
    }
  }

  lemma ReachableOneAddress(s: State)
    requires Reachable(s)
    ensures Invariant(s) && OneAddress(s)
  {
    var name, others, labels :| Run(Init(name, others), labels) == Some(s);
    assert Invariant(Init(name, others)) && OneAddress(Init(name, others));
    InvariantRun(Init(name, others), labels);
    OneAddressRun(Init(name, others), labels);
  }

  /**
    Over all runs, with any interference: a kubeconfig is only ever written for a non-empty address that the
    certificates and the API server last applied were generated for; and a pass that reports Ready leaves the three so.
   */
  lemma KubeconfigMatchesCertificates(s: State, l: Label)
    requires Reachable(s) && Enabled(s, l)
    ensures var t := Step(s, l);
            && (t.children.kubeconfig != s.children.kubeconfig ==>
                  t.children.kubeconfig.Some? && t.children.kubeconfig.value != "" &&
                  AllFor(t.children, t.children.kubeconfig.value))
            && (s.pc.Reporting? && s.pc.o.AllReady? && ByOperator(l) ==>
                  t.children.kubeconfig.Some? && t.children.kubeconfig.value != "" &&
                  AllFor(t.children, t.children.kubeconfig.value))
  {
    ReachableOneAddress(s);
  }

  /** So whenever a kubeconfig is written, the admin and the API server authenticate each other at the host it dials. */
  lemma WrittenKubeconfigIsTrusted(s: State, l: Label, c: Pki.Cluster)
    requires Reachable(s) && Enabled(s, l) && Step(s, l).children.kubeconfig != s.children.kubeconfig
    requires Step(s, l).children.pki == Some(c.address)
    ensures var t := Step(s, l);
            && t.children.kubeconfig.Some?
            && Trust.Mutual(c, Trust.SideOf(c, Names.AdminClient, Names.ManagedCA),
                            Trust.SideOf(c, Names.APIServerTLS, Names.ManagedCA),
                            t.children.kubeconfig.value)
  {
    KubeconfigMatchesCertificates(s, l);
    Trust.AdminTrusted(c);
  }
}
