/** In which order the objects of a control plane come into being, over every run. */
module Order {
  import opened Optional
  import opened Status
  import opened ControlPlaneModel
  import opened ControlPlaneProofs

  /** What the first n components generate is there. */
  ghost predicate HasFirst(c: Children, n: nat) {
    && (n >= 1 ==> c.service)
    && (n >= 2 ==> c.pki.Some?)
    && (n >= 3 ==> c.etcd)
    && (n >= 4 ==> c.apiserver.Some?)
    && (n >= 5 ==> c.controllerManager)
    && (n >= 6 ==> c.scheduler)
    && (n >= 7 ==> c.kubeconfig.Some?)
  }

  /** Nothing is there before what it needs. */
  ghost predicate InOrder(c: Children) {
    && (c.kubeconfig.Some? ==> c.scheduler)
    && (c.scheduler ==> c.controllerManager)
    && (c.controllerManager ==> c.apiserver.Some?)
    && (c.apiserver.Some? ==> c.etcd)
    && (c.etcd ==> c.pki.Some?)
    && (c.pki.Some? ==> c.service)
  }

  ghost predicate Ordered(s: State) {
    && InOrder(s.children)
    && (s.completed > 0 ==> HasFirst(s.children, 7))
    && match s.pc
       case Component(_, i) => HasFirst(s.children, i)
       case Addressing(_) => HasFirst(s.children, 1)
       case Fetching(_, i, _, _) => HasFirst(s.children, i + 1)
       case Committing(_, i, _, _, _) => HasFirst(s.children, i + 1)
       case Reporting(_, o) => HasFirst(s.children, if o.AllReady? then 7 else o.i)
       case _ => true
  }

  lemma OrderedStep(s: State, l: Label)
    requires Invariant(s) && Ordered(s) && Enabled(s, l)
    ensures Ordered(Step(s, l))
  {
    if l.Apply? {
      OrderedApply(s, l.fails);
    } else if l.Fetch? || l.Put? {
      OrderedWrite(s, l);
    } else if l.Admin? || l.Address? {
      OrderedAnswer(s, l);
    }
  }

  lemma OrderedAnswer(s: State, l: Label)
    requires Invariant(s) && Ordered(s) && Enabled(s, l) && (l.Admin? || l.Address?)
    ensures Ordered(Step(s, l))
  {
  }

  lemma OrderedApply(s: State, fails: bool)
    requires Invariant(s) && Ordered(s) && Enabled(s, Apply(fails))
    ensures Ordered(Step(s, Apply(fails)))
  {
  }

  lemma OrderedWrite(s: State, l: Label)
    requires Invariant(s) && Ordered(s) && Enabled(s, l) && (l.Fetch? || l.Put?)
    ensures Ordered(Step(s, l))
  {
  }

  lemma {:induction false} OrderedRun(s: State, labels: seq<Label>)
    requires Invariant(s) && Ordered(s) && Run(s, labels).Some?
    ensures Ordered(Run(s, labels).value)
    decreases |labels|
  {
    if labels != [] {
      InvariantStep(s, labels[0]);
      OrderedStep(s, labels[0]);
      OrderedRun(Step(s, labels[0]), labels[1..]);
    }
  }

  /**
    In every reachable state: no object is there before those it needs (Service, PKI, etcd, API server, controller
    manager, scheduler, kubeconfig, in this order); a pass that reports component i has everything of the components
    before it; and as soon as any version said Ready=true all of them are there.
   */
  lemma ChildrenInOrder(s: State)
    requires Reachable(s)
    ensures InOrder(s.children)
    ensures s.pc.Reporting? ==> HasFirst(s.children, if s.pc.o.AllReady? then 7 else s.pc.o.i)
    ensures (exists i :: 0 <= i < |s.history| && s.history[i].status.ready == Some(true)) ==>
              var c := s.children;
              && c.service && c.pki.Some? && c.etcd && c.apiserver.Some? && c.controllerManager && c.scheduler
              && c.kubeconfig.Some?
  {
    var name, others, labels :| Run(Init(name, others), labels) == Some(s);
    assert Invariant(Init(name, others));
    InvariantRun(Init(name, others), labels);
    OrderedRun(Init(name, others), labels);
    forall i | 0 <= i < |s.history| && s.history[i].status.ready == Some(true)
      ensures s.completed > 0
    {
      assert ReadyBacked(s.history[i], s.completed);
    }
  }
}
