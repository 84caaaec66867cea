/**
  Bounded convergence: with a fixed load-balancer address, a complete admin secret, fresh reads and no errors, any
  object not being deleted is Ready within three passes, and further passes change nothing.
 */
module Convergence {
  import opened Optional
  import opened Status
  import opened ControlPlaneModel
  import Names

  /** Undisturbed: the object exists and is not being deleted, the address and the secret are there. */
  ghost predicate Settled(s: State, a: string) {
    && s.history != [] && !s.gone && !Current(s).deleting
    && s.published != [] && s.published[|s.published| - 1] == a && a != ""
    && s.secret.Complete?
  }

  /** The one step of a pass without stale reads and errors. */
  function FreshLabel(s: State, now: nat): Label
    requires s.history != [] && s.published != []
  {
    match s.pc
    case Idle => Read(|s.history| - 1)
    case Deciding(_) => Decide(false)
    case Component(_, i) => if i < 6 then Apply(false) else Admin(false, false)
    case Addressing(_) => Address(Found(s.published[|s.published| - 1]))
    case Fetching(_, _, _, _) => Fetch(Some(|s.history| - 1))
    case Committing(_, _, _, _, _) => Put(false)
    case Reporting(_, _) => Report(false, now)
  }

  /** How far a pass is from its end. */
  function Rank(pc: Pc): nat {
    match pc
    case Idle => 0
    case Reporting(_, _) => 1
    case Fetching(_, i, _, attempt) => (if i == 0 then 40 else 2)
                                       + (if attempt < ATTEMPTS then 2 * (ATTEMPTS - attempt) else 0) + 1
    case Committing(_, i, _, attempt, _) => (if i == 0 then 40 else 2)
                                            + (if attempt < ATTEMPTS then 2 * (ATTEMPTS - attempt) else 0)
    case Component(_, i) => if i == 0 then 61 else if i <= 6 then 26 - i else 0
    case Addressing(_) => 60
    case Deciding(_) => 62
  }

  /** The rest of the pass. */
  ghost function Finish(s: State, now: nat): State
    requires s.history != [] && s.published != []
    decreases Rank(s.pc)
  {
    if s.pc.Idle? || !Enabled(s, FreshLabel(s, now)) then s
    else
      var t := Step(s, FreshLabel(s, now));
      Finish(t, now)
  }

  lemma FinishOn(s: State, now: nat)
    requires s.history != [] && s.published != [] && !s.pc.Idle? && Enabled(s, FreshLabel(s, now))
    ensures var t := Step(s, FreshLabel(s, now));
            t.history != [] && t.published != [] && Rank(t.pc) < Rank(s.pc) && Finish(s, now) == Finish(t, now)
  {
  }

  /** A whole pass, read to report. */
  ghost function FreshPass(s: State, now: nat): State
    requires s.history != [] && s.published != [] && s.pc.Idle?
  {
    Finish(Step(s, Read(|s.history| - 1)), now)
  }

  /** Such a pass is one of the runs of the transition system. */
  lemma {:induction false} FinishIsRun(s: State, now: nat) returns (labels: seq<Label>)
    requires s.history != [] && s.published != []
    ensures Run(s, labels) == Some(Finish(s, now))
    decreases Rank(s.pc)
  {
    labels := [];
    if !s.pc.Idle? && Enabled(s, FreshLabel(s, now)) {
      var l := FreshLabel(s, now);
      var rest := FinishIsRun(Step(s, l), now);
      labels := [l] + rest;
      assert labels[1..] == rest;
    }
  }

  /** The children after the first n components of a pass whose local copy has this address. */
  function Upto(c: Children, n: nat, address: string): Children {
    if n == 0 then c else Applied(Upto(c, n - 1, address), n - 1, address)
  }

  /** The object after an undisturbed pass over version m. */
  function Passed(m: Mcp, a: string, ref: string, now: nat): Mcp {
    if !m.finalizer then m.(finalizer := true)
    else
      var o := if m.status.address == "" then Waiting(6) else AllReady;
      var st := SetOutcome(m.status, m.generation, o, now);
      m.(status := st.(address := a, secretRef := if o.AllReady? then ref else m.status.secretRef))
  }

  /** The children after it: everything carries the address the object had when the pass began. */
  function PassedChildren(m: Mcp, c: Children): Children {
    if !m.finalizer then c
    else
      var all := Upto(c, 6, m.status.address);
      if m.status.address == "" then all else all.(kubeconfig := Some(m.status.address))
  }

  /** Where the pass that began in s0 has to be. */
  ghost predicate OnTrack(s0: State, s: State, a: string, now: nat)
    requires s0.history != []
  {
    var m := Current(s0);
    var v, ref, read := |s0.history| - 1, Names.KubeconfigSecret(s0.name), m.status.address;
    var addressed := m.(status := m.status.(address := a));
    && Settled(s, a) && s.name == s0.name
    && v < |s.history| && s.history[v] == m
    && match s.pc
       case Deciding(v') => v' == v && s.history == s0.history && s.children == s0.children
       case Component(v', i) =>
         && v' == v && i <= 6 && m.finalizer && s.children == Upto(s0.children, i, read)
         && (if i == 0 then s.history == s0.history else Current(s) == addressed)
       case Addressing(v') => v' == v && m.finalizer && s.history == s0.history &&
                              s.children == Upto(s0.children, 1, read)
       case Fetching(v', i, w, attempt) => v' == v && attempt == 0 && m.finalizer && WriteAhead(s0, s, i, w, a)
       case Committing(v', i, w, attempt, at) =>
         v' == v && attempt == 0 && m.finalizer && WriteAhead(s0, s, i, w, a) && at == |s.history| - 1
       case Reporting(v', o) =>
         && v' == v && m.finalizer && s.children == PassedChildren(m, s0.children)
         && (if read == "" then o == Waiting(6) && Current(s) == addressed
             else o == AllReady && Current(s) == addressed.(status := addressed.status.(secretRef := ref)))
       case Idle => Current(s) == Passed(m, a, ref, now) && s.children == PassedChildren(m, s0.children)
  }

  ghost predicate WriteAhead(s0: State, s: State, i: nat, w: Write, a: string)
    requires s0.history != [] && s.history != []
  {
    var m := Current(s0);
    if i == 0 then w == SetAddress(a) && s.history == s0.history && s.children == Upto(s0.children, 1, m.status.address)
    else
      && i == 6 && w == SetSecretRef(Names.KubeconfigSecret(s0.name)) && m.status.address != ""
      && Current(s) == m.(status := m.status.(address := a)) && s.children == PassedChildren(m, s0.children)
  }

  lemma OnTrackEarly(s0: State, s: State, a: string, now: nat)
    requires s0.history != [] && OnTrack(s0, s, a, now)
    requires s.pc.Deciding? || s.pc.Addressing?
    ensures Enabled(s, FreshLabel(s, now)) && OnTrack(s0, Step(s, FreshLabel(s, now)), a, now)
  {
  }

  lemma OnTrackComponent(s0: State, s: State, a: string, now: nat)
    requires s0.history != [] && OnTrack(s0, s, a, now) && s.pc.Component?
    ensures Enabled(s, FreshLabel(s, now)) && OnTrack(s0, Step(s, FreshLabel(s, now)), a, now)
  {
  }

  lemma OnTrackFetch(s0: State, s: State, a: string, now: nat)
    requires s0.history != [] && OnTrack(s0, s, a, now) && s.pc.Fetching?
    ensures Enabled(s, FreshLabel(s, now)) && OnTrack(s0, Step(s, FreshLabel(s, now)), a, now)
  {
  }

  lemma OnTrackCommitAddress(s0: State, s: State, a: string, now: nat)
    requires s0.history != [] && OnTrack(s0, s, a, now) && s.pc.Committing? && s.pc.i == 0
    ensures Enabled(s, FreshLabel(s, now)) && OnTrack(s0, Step(s, FreshLabel(s, now)), a, now)
  {
  }

  lemma OnTrackCommitRef(s0: State, s: State, a: string, now: nat)
    requires s0.history != [] && OnTrack(s0, s, a, now) && s.pc.Committing? && s.pc.i == 6
    ensures Enabled(s, FreshLabel(s, now)) && OnTrack(s0, Step(s, FreshLabel(s, now)), a, now)
  {
    PutLands(s);
  }

  lemma PutLands(s: State)
    requires Enabled(s, Put(false)) && UpToDate(s, s.pc.at)
    ensures var c, t := Current(s), Step(s, Put(false));
            && s.history <= t.history && t == s.(pc := AfterWrite(s.pc.v, s.pc.i), history := t.history)
            && Current(t) == c.(status := WithField(c.status, s.pc.w))
  {
  }

  /**
    A patch over a store that agrees with the local copy on the triple stores the new triple beside the store's fields.
   */
  lemma MergeOverAgreed(c: Status, before: Status, after: Status)
    requires SameTriple(c, before) && after.address == before.address && after.secretRef == before.secretRef
    ensures Merge(c, before, after) == after.(address := c.address, secretRef := c.secretRef)
  {
  }

  lemma OnTrackReport(s0: State, s: State, a: string, now: nat)
    requires s0.history != [] && OnTrack(s0, s, a, now) && s.pc.Reporting?
    ensures Enabled(s, FreshLabel(s, now)) && OnTrack(s0, Step(s, FreshLabel(s, now)), a, now)
  {
    ReportLands(s, Current(s0), now);
    var t := Step(s, Report(false, now));
    assert t.pc.Idle? && t.children == s.children && Settled(t, a);
    assert Current(t) == Passed(Current(s0), a, Names.KubeconfigSecret(s0.name), now);
  }

  lemma ReportLands(s: State, m: Mcp, now: nat)
    requires Enabled(s, Report(false, now)) && !s.gone && m == s.history[s.pc.v]
    requires SameTriple(Current(s).status, m.status)
    ensures var c, t := Current(s), Step(s, Report(false, now));
            && s.history <= t.history && t == s.(pc := Idle, completed := t.completed, history := t.history)
            && Current(t) == c.(status := SetOutcome(m.status, m.generation, s.pc.o, now).(
                                  address := c.status.address, secretRef := c.status.secretRef))
  {
    MergeOverAgreed(Current(s).status, m.status, SetOutcome(m.status, m.generation, s.pc.o, now));
  }

  lemma OnTrackStep(s0: State, s: State, a: string, now: nat)
    requires s0.history != [] && OnTrack(s0, s, a, now) && !s.pc.Idle?
    ensures Enabled(s, FreshLabel(s, now)) && OnTrack(s0, Step(s, FreshLabel(s, now)), a, now)
  {
    if s.pc.Reporting? { OnTrackReport(s0, s, a, now); }
    else if s.pc.Fetching? { OnTrackFetch(s0, s, a, now); }
    else if s.pc.Committing? && s.pc.i == 0 { OnTrackCommitAddress(s0, s, a, now); }
    else if s.pc.Committing? { OnTrackCommitRef(s0, s, a, now); }
    else if s.pc.Component? { OnTrackComponent(s0, s, a, now); }
    else { OnTrackEarly(s0, s, a, now); }
  }

  lemma {:induction false} OnTrackToEnd(s0: State, s: State, a: string, now: nat)
    requires s0.history != [] && OnTrack(s0, s, a, now)
    ensures OnTrack(s0, Finish(s, now), a, now) && Finish(s, now).pc.Idle?
    decreases Rank(s.pc)
  {
    if !s.pc.Idle? {
      OnTrackStep(s0, s, a, now);
      FinishOn(s, now);
      OnTrackToEnd(s0, Step(s, FreshLabel(s, now)), a, now);
    }
  }

  /** A version that the pass would leave as it is gets no successor. */
  lemma Untouched(s0: State, s: State, a: string, now: nat)
    requires s0.history != [] && OnTrack(s0, s, a, now) && s.history == s0.history && !s.pc.Idle?
    requires Passed(Current(s0), a, Names.KubeconfigSecret(s0.name), now) == Current(s0)
    ensures Enabled(s, FreshLabel(s, now)) ==> Step(s, FreshLabel(s, now)).history == s0.history
  {
  }

  /** The object stays as it is. */
  ghost predicate Still(s0: State, s: State, a: string, now: nat)
    requires s0.history != []
  {
    && OnTrack(s0, s, a, now) && s.history == s0.history
    && Passed(Current(s0), a, Names.KubeconfigSecret(s0.name), now) == Current(s0)
  }

  lemma StillStep(s0: State, s: State, a: string, now: nat)
    requires s0.history != [] && Still(s0, s, a, now) && !s.pc.Idle?
    ensures Enabled(s, FreshLabel(s, now)) && Still(s0, Step(s, FreshLabel(s, now)), a, now)
  {
    Untouched(s0, s, a, now);
    OnTrackStep(s0, s, a, now);
  }

  lemma {:induction false} UntouchedToEnd(s0: State, s: State, a: string, now: nat)
    requires s0.history != [] && Still(s0, s, a, now)
    ensures Finish(s, now).history == s0.history
    decreases Rank(s.pc)
  {
    if !s.pc.Idle? {
      StillStep(s0, s, a, now);
      FinishOn(s, now);
      UntouchedToEnd(s0, Step(s, FreshLabel(s, now)), a, now);
    }
  }

  /** One undisturbed pass, from any version: what it leaves of the object and of the children. */
  lemma OnePass(s: State, a: string, now: nat)
    requires Settled(s, a) && s.pc.Idle?
    ensures var t, ref := FreshPass(s, now), Names.KubeconfigSecret(s.name);
            && Settled(t, a) && t.pc.Idle? && t.name == s.name
            && Current(t) == Passed(Current(s), a, ref, now)
            && t.children == PassedChildren(Current(s), s.children)
            && (Passed(Current(s), a, ref, now) == Current(s) ==> t.history == s.history)
  {
    var first := Step(s, Read(|s.history| - 1));
    OnTrackToEnd(s, first, a, now);
    if Passed(Current(s), a, Names.KubeconfigSecret(s.name), now) == Current(s) {
      UntouchedToEnd(s, first, a, now);
    }
  }

  // ---------------------------------------------------------------- three passes

  /** Everything names this address, and the status says so. */
  ghost predicate Converged(s: State, a: string) {
    && s.history != []
    && var m := Current(s);
    && m.finalizer && m.status.ready == Some(true) && Consistent(m.status)
    && m.status.address == a && m.status.secretRef == Names.KubeconfigSecret(s.name)
    && s.children == Children(true, Some(a), true, Some(a), true, true, Some(a))
  }

  lemma AllApplied(c: Children, address: string)
    ensures Upto(c, 6, address) == Children(true, Some(address), true, Some(address), true, true, c.kubeconfig)
  {
    var c3 := Upto(c, 3, address);
    assert Upto(c, 1, address) == c.(service := true);
    assert Upto(c, 2, address) == c.(service := true, pki := Some(address));
    assert c3 == c.(service := true, pki := Some(address), etcd := true);
    assert Upto(c, 4, address) == c3.(apiserver := Some(address));
    assert Upto(c, 5, address) == c3.(apiserver := Some(address), controllerManager := true);
  }

  /** The pass in which the object reads its final address. */
  lemma ReadyPass(s: State, a: string, now: nat)
    requires Settled(s, a) && s.pc.Idle? && Current(s).finalizer && Current(s).status.address == a
    ensures Converged(FreshPass(s, now), a)
  {
    var m := Current(s);
    OnePass(s, a, now);
    AllApplied(s.children, a);
    LocallyConsistent(m.status, m.generation, AllReady, now);
  }

  lemma ReadyPassAgain(m: Mcp, a: string, ref: string, now: nat, later: nat)
    requires m.finalizer && a != "" && m.status.address == a
    ensures Passed(Passed(m, a, ref, now), a, ref, later) == Passed(m, a, ref, now)
  {
    SetTwice(m.status.conditions, ReadyCondition(AllReady, m.generation), now, later);
  }

  /** From any version of an object not being deleted, whatever its status and children, at any three times. */
  lemma ReadyWithinThreePasses(s: State, a: string, now1: nat, now2: nat, now3: nat)
    requires Settled(s, a) && s.pc.Idle?
    ensures var s1 := FreshPass(s, now1);
            && Settled(s1, a) && s1.pc.Idle?
            && var s2 := FreshPass(s1, now2);
            && Settled(s2, a) && s2.pc.Idle?
            && Converged(FreshPass(s2, now3), a)
  {
    OnePass(s, a, now1);
    var s1 := FreshPass(s, now1);
    OnePass(s1, a, now2);
    var s2 := FreshPass(s1, now2);
    assert Current(s2).finalizer && Current(s2).status.address == a;
    ReadyPass(s2, a, now3);
  }

  /** After such a pass, another one at any time changes neither the object, nor its resource version, nor a child. */
  lemma ConvergedPassIsIdle(s: State, a: string, now: nat, later: nat)
    requires Settled(s, a) && s.pc.Idle? && Current(s).finalizer && Current(s).status.address == a
    ensures var t := FreshPass(s, now);
            && Settled(t, a) && t.pc.Idle?
            && FreshPass(t, later).history == t.history && FreshPass(t, later).children == t.children
  {
    OnePass(s, a, now);
    var t := FreshPass(s, now);
    OnePass(t, a, later);
    ReadyPassAgain(Current(s), a, Names.KubeconfigSecret(s.name), now, later);
    ReadyPass(s, a, now);
    AllApplied(t.children, a);
  }

  /** The kubeconfig, the certificates and the server trail the stored address by exactly the pass that stored it. */
  lemma KubeconfigTrailsByOnePass(s: State, a: string, now: nat)
    requires Settled(s, a) && s.pc.Idle? && Current(s).finalizer && Current(s).status.address != ""
    ensures var t, before := FreshPass(s, now), Current(s).status.address;
            && t.history != [] && Current(t).status.address == a
            && t.children.kubeconfig == t.children.pki == t.children.apiserver == Some(before)
  {
    OnePass(s, a, now);
    AllApplied(s.children, Current(s).status.address);
  }

  /** The bound is tight: an object without finalizer and address is not Ready after two passes. */
  lemma TwoPassesAreNotEnough(name: string, a: string, now1: nat, now2: nat)
    requires a != ""
    ensures var s := Init(name, false).(published := ["", a], secret := Complete);
            && Settled(s, a)
            && var s1 := FreshPass(s, now1);
            && Settled(s1, a) && s1.pc.Idle?
            && FreshPass(s1, now2).history != [] && Current(FreshPass(s1, now2)).status.ready == Some(false)
  {
    var s := Init(name, false).(published := ["", a], secret := Complete);
    OnePass(s, a, now1);
    OnePass(FreshPass(s, now1), a, now2);
  }
}
