/**
  Ready, Message and the Ready condition over whole runs: the exact reports that keep them consistent, and two runs in
  which a stale copy does not.
 */
module Consistency {
  import opened Optional
  import opened Status
  import opened ControlPlaneModel
  import opened ControlPlaneProofs
  import opened Convergence
  import Names

  // ---------------------------------------------------------------- one report

  /** The status has no report yet, or its three fields tell one. */
  ghost predicate Narrates(s: Status) {
    Blank(s) || exists o, generation :: Tells(s, o, generation)
  }

  ghost predicate Sound(s: Status) {
    Blank(s) || Consistent(s)
  }

  /** What can be checked before a report of o from a local copy `a` over a stored status `c`. */
  ghost predicate Safe(c: Status, a: Status, generation: nat, o: Outcome)
    requires Proper(o)
  {
    var seen := FindCondition(a.conditions, CONDITION_READY);
    if a.message == Message(o) then
      (seen.Some? && seen.value.observed == generation) || c.message == Message(o)
    else
      a.ready != Some(false) || o.AllReady? || c.ready != Some(true)
  }

  lemma SafeExactly(c: Status, a: Status, generation: nat, o: Outcome, now: nat)
    requires Narrates(c) && Narrates(a) && (Blank(c) ==> Blank(a)) && Proper(o)
    ensures var m := Merge(c, a, SetOutcome(a, generation, o, now));
            && (Safe(c, a, generation, o) <==> Sound(m))
            && (Safe(c, a, generation, o) ==> Narrates(m) && !Blank(m))
  {
    if Blank(a) {
      BlankCopyConsistent(c, a, generation, o, now);
      FirstLetter(o);
    } else {
      var oa, ga :| Tells(a, oa, ga);
      var oc, gc :| Tells(c, oc, gc);
      ToldExactly(c, oc, gc, a, oa, ga, generation, o, now);
    }
  }

  lemma ToldExactly(c: Status, oc: Outcome, gc: nat, a: Status, oa: Outcome, ga: nat, generation: nat, o: Outcome,
                    now: nat)
    requires Tells(c, oc, gc) && Tells(a, oa, ga) && Proper(o)
    ensures var m := Merge(c, a, SetOutcome(a, generation, o, now));
            && (Safe(c, a, generation, o) <==> Sound(m))
            && (Safe(c, a, generation, o) ==> Narrates(m) && !Blank(m))
  {
    var m := Merge(c, a, SetOutcome(a, generation, o, now));
    PatchConsistentExactly(c, oc, gc, a, oa, ga, generation, o, now);
    PatchedTriple(c, a, oa, ga, generation, o, now);
    FindAfterSet(a.conditions, ReadyCondition(o, generation), now);
    MessageIdentifies(oa, o);
    MessageIdentifies(oc, o);
    if Safe(c, a, generation, o) {
      assert Tells(m, oc, gc) || Tells(m, o, generation);
    }
  }

  // ---------------------------------------------------------------- whole runs

  /** Every version tells its report, and a report is never taken back. */
  ghost predicate Chronicle(h: seq<Mcp>) {
    && (forall i :: 0 <= i < |h| ==> Narrates(h[i].status))
    && (forall i, j :: 0 <= i <= j < |h| && Blank(h[j].status) ==> Blank(h[i].status))
  }

  ghost predicate AllSound(h: seq<Mcp>) {
    forall i :: 0 <= i < |h| ==> Sound(h[i].status)
  }

  /** A report that is stored is a safe one. */
  ghost predicate SafeStep(s: State, l: Label)
    requires Enabled(s, l)
  {
    l.Report? && !l.lost && !s.gone ==>
      var m := s.history[s.pc.v]; Safe(Current(s).status, m.status, m.generation, s.pc.o)
  }

  ghost predicate SafeRun(s: State, labels: seq<Label>)
    requires Run(s, labels).Some?
    decreases |labels|
  {
    labels == [] || (SafeStep(s, labels[0]) && SafeRun(Step(s, labels[0]), labels[1..]))
  }

  /** Everything but a report leaves the three fields alone. */
  lemma QuietTriple(s: State, l: Label)
    requires Enabled(s, l) && !l.Report?
    ensures var t := Step(s, l);
            t.history == s.history ||
            (t.history == s.history + [Current(t)] && SameTriple(Current(t).status, Current(s).status))
  {
  }

  lemma SameTripleNarrates(s: Status, t: Status)
    requires SameTriple(s, t) && Narrates(s)
    ensures Narrates(t) && (Blank(s) <==> Blank(t))
  {
    if !Blank(s) {
      var o, g :| Tells(s, o, g);
      assert Tells(t, o, g);
    }
  }

  lemma ChronicleOn(h: seq<Mcp>, m: Mcp)
    requires h != [] && Chronicle(h) && Narrates(m.status) && (Blank(m.status) ==> Blank(h[|h| - 1].status))
    ensures Chronicle(h + [m])
  {
  }

  lemma ChronicleStep(s: State, l: Label)
    requires Invariant(s) && Chronicle(s.history) && Enabled(s, l)
    ensures SafeStep(s, l) ==> Chronicle(Step(s, l).history)
    ensures !SafeStep(s, l) ==> !AllSound(Step(s, l).history)
  {
    var t := Step(s, l);
    if l.Report? {
      ReportChronicled(s, l.lost, l.now);
    } else {
      QuietTriple(s, l);
      if t.history != s.history {
        SameTripleNarrates(Current(s).status, Current(t).status);
        ChronicleOn(s.history, Current(t));
      }
    }
  }

  lemma ReportedExactly(s: State, now: nat)
    requires Chronicle(s.history) && Enabled(s, Report(false, now)) && !s.gone
    ensures SafeStep(s, Report(false, now)) <==> Sound(Reported(s, now).status)
    ensures SafeStep(s, Report(false, now)) ==> Narrates(Reported(s, now).status) && !Blank(Reported(s, now).status)
  {
    var m, c := s.history[s.pc.v], Current(s);
    assert c == s.history[|s.history| - 1];
    SafeExactly(c.status, m.status, m.generation, s.pc.o, now);
  }

  lemma CommitChronicled(s: State, m: Mcp)
    requires s.history != [] && Chronicle(s.history)
    ensures Narrates(m.status) && !Blank(m.status) ==> Chronicle(Commit(s, m).history)
    ensures !Sound(m.status) ==> !AllSound(Commit(s, m).history)
  {
    var h := Commit(s, m).history;
    assert h[|h| - 1] == m;
    if Narrates(m.status) && !Blank(m.status) && m != Current(s) { ChronicleOn(s.history, m); }
  }

  lemma ReportChronicled(s: State, lost: bool, now: nat)
    requires Invariant(s) && Chronicle(s.history) && Enabled(s, Report(lost, now))
    ensures SafeStep(s, Report(lost, now)) ==> Chronicle(Step(s, Report(lost, now)).history)
    ensures !SafeStep(s, Report(lost, now)) ==> !AllSound(Step(s, Report(lost, now)).history)
  {
    if !lost && !s.gone {
      ReportStores(s, now);
      ReportedExactly(s, now);
      CommitChronicled(s, Reported(s, now));
    }
  }

  lemma ChronicleSound(h: seq<Mcp>)
    requires Chronicle(h)
    ensures AllSound(h)
  {
    forall i | 0 <= i < |h|
      ensures Sound(h[i].status)
    {
      if !Blank(h[i].status) {
        var o, g :| Tells(h[i].status, o, g);
      }
    }
  }

  lemma {:induction false} SoundRun(s: State, labels: seq<Label>)
    requires Invariant(s) && Chronicle(s.history) && Run(s, labels).Some?
    ensures AllSound(Run(s, labels).value.history) <==> SafeRun(s, labels)
    decreases |labels|
  {
    if labels == [] {
      ChronicleSound(s.history);
    } else {
      var n := Step(s, labels[0]);
      InvariantStep(s, labels[0]);
      ChronicleStep(s, labels[0]);
      if SafeStep(s, labels[0]) {
        SoundRun(n, labels[1..]);
      } else {
        VersionsStay(n, labels[1..]);
      }
    }
  }

  /**
    Over any run of a newly created object, every version ever stored has no report or three consistent fields if and
    only if every report that was stored was safe.
   */
  lemma ConsistentExactly(name: string, others: bool, labels: seq<Label>)
    requires Run(Init(name, others), labels).Some?
    ensures AllSound(Run(Init(name, others), labels).value.history) <==> SafeRun(Init(name, others), labels)
  {
    var s := Init(name, others);
    assert Blank(s.history[0].status);
    SoundRun(s, labels);
  }

  /** Reports from copies that agree with the store are safe, and so are first reports. */
  lemma AgreedIsSafe(c: Status, a: Status, generation: nat, o: Outcome)
    requires Proper(o) && (SameTriple(c, a) || Blank(a))
    ensures Safe(c, a, generation, o)
  {
    FirstLetter(o);
  }

  // ---------------------------------------------------------------- runs that do not

  lemma ReachOn(s: State, l: Label)
    requires Reachable(s) && Enabled(s, l)
    ensures Reachable(Step(s, l)) && s.history <= Step(s, l).history
  {
    var name, others, labels :| Run(Init(name, others), labels) == Some(s);
    RunOn(Init(name, others), labels, s, l);
    ReachableInvariant(s);
    VersionsStay(s, [l]);
    assert [l][1..] == [];
  }

  lemma {:induction false} ReachRun(s: State, labels: seq<Label>)
    requires Reachable(s) && Run(s, labels).Some?
    ensures Reachable(Run(s, labels).value) && s.history <= Run(s, labels).value.history
    decreases |labels|
  {
    if labels != [] {
      ReachOn(s, labels[0]);
      ReachRun(Step(s, labels[0]), labels[1..]);
    }
  }

  /** An undisturbed pass. */
  lemma ReachPass(s: State, a: string, now: nat) returns (t: State)
    requires Reachable(s) && Settled(s, a) && s.pc.Idle?
    ensures Reachable(t) && Settled(t, a) && t.pc.Idle? && s.history <= t.history
    ensures Current(t) == Passed(Current(s), a, Names.KubeconfigSecret(s.name), now) && t.name == s.name
  {
    var first := Step(s, Read(|s.history| - 1));
    ReachOn(s, Read(|s.history| - 1));
    var labels := FinishIsRun(first, now);
    ReachRun(first, labels);
    t := FreshPass(s, now);
    OnePass(s, a, now);
  }

  /** A pass over version v up to its PKI, the service not being there yet. */
  lemma ReachPki(s: State, a: string, v: nat) returns (t: State)
    requires Reachable(s) && Settled(s, a) && s.pc.Idle?
    requires v < |s.history| && s.history[v].finalizer && !s.history[v].deleting
    ensures Reachable(t) && Settled(t, a) && t.pc == Component(v, 1) && t.history == s.history && t.name == s.name
  {
    ReachOn(s, Read(v));
    var s1 := Step(s, Read(v));
    ReachOn(s1, Decide(false));
    var s2 := Step(s1, Decide(false));
    ReachOn(s2, Apply(false));
    var s3 := Step(s2, Apply(false));
    ReachOn(s3, Address(ServiceNotFound));
    t := Step(s3, Address(ServiceNotFound));
  }

  /** A pass over version v that fails at the PKI (1) or at etcd (2). */
  lemma ReachFailure(s: State, a: string, v: nat, i: nat, now: nat) returns (t: State)
    requires Reachable(s) && Settled(s, a) && s.pc.Idle? && 1 <= i <= 2
    requires v < |s.history| && s.history[v].finalizer && !s.history[v].deleting
    ensures Reachable(t) && Settled(t, a) && t.pc.Idle? && s.history <= t.history && t.name == s.name
    ensures var m, c := s.history[v], Current(s);
            Current(t) == c.(status := Merge(c.status, m.status, SetOutcome(m.status, m.generation, Failed(i), now)))
  {
    var s1: State := ReachPki(s, a, v);
    if i == 2 { s1 := ReachEtcd(s1, a, v); }
    s1 := ComponentFails(s1, a, v, i);
    t := FailureReported(s1, a, v, s.history[v], Current(s), i, now);
  }

  lemma ReachEtcd(s: State, a: string, v: nat) returns (t: State)
    requires Reachable(s) && Settled(s, a) && s.pc == Component(v, 1) && v < |s.history|
    ensures Reachable(t) && Settled(t, a) && t.pc == Component(v, 2) && t.history == s.history && t.name == s.name
  {
    ReachOn(s, Apply(false));
    t := Step(s, Apply(false));
  }

  lemma ComponentFails(s: State, a: string, v: nat, i: nat) returns (t: State)
    requires Reachable(s) && Settled(s, a) && s.pc == Component(v, i) && v < |s.history| && i < 6
    ensures Reachable(t) && Settled(t, a) && t.pc == Reporting(v, Failed(i)) && t.history == s.history &&
            t.name == s.name
  {
    ReachOn(s, Apply(true));
    t := Step(s, Apply(true));
  }

  lemma FailureReported(s: State, a: string, v: nat, m: Mcp, c: Mcp, i: nat, now: nat) returns (t: State)
    requires Reachable(s) && Settled(s, a) && s.pc == Reporting(v, Failed(i)) && i < 7
    requires v < |s.history| && m == s.history[v] && c == Current(s)
    ensures Reachable(t) && Settled(t, a) && t.pc.Idle? && s.history <= t.history && t.name == s.name
    ensures Current(t) == c.(status := Merge(c.status, m.status, SetOutcome(m.status, m.generation, Failed(i), now)))
  {
    ReachOn(s, Report(false, now));
    t := Step(s, Report(false, now));
    ReportSteps(s, false, now);
    var after := SetOutcome(m.status, m.generation, Failed(i), now);
    assert Reported(s, now) == c.(status := Merge(c.status, m.status, after));
  }

  lemma TellsAfterSet(a: Status, generation: nat, o: Outcome, now: nat)
    requires Proper(o)
    ensures Tells(SetOutcome(a, generation, o, now), o, generation)
  {
    FindAfterSet(a.conditions, ReadyCondition(o, generation), now);
  }

  /** A live object with the finalizer whose last report, at this generation, is that its PKI failed. */
  ghost predicate PkiFailed(m: Mcp, generation: nat) {
    m.finalizer && !m.deleting && m.status.address == "" && Tells(m.status, Failed(1), generation)
  }

  lemma FirstFailure(name: string, a: string) returns (s: State)
    requires a != ""
    ensures Reachable(s) && Settled(s, a) && s.pc.Idle? && PkiFailed(Current(s), Current(s).generation)
  {
    var first := Init(name, false);
    assert Run(first, []) == Some(first) && Reachable(first);
    ReachOn(first, Publish(a));
    var s1 := Step(first, Publish(a));
    ReachOn(s1, Certify(Complete));
    s := Step(s1, Certify(Complete));
    assert Settled(s, a);
    s := ReachPass(s, a, 0);
    var m := Current(s);
    s := ReachFailure(s, a, |s.history| - 1, 1, 0);
    BlankCopyConsistent(m.status, m.status, m.generation, Failed(1), 0);
  }

  /** Two undisturbed passes later it is Ready, and the old version is still there to be read. */
  lemma ReadyAgain(s: State, a: string) returns (t: State)
    requires Reachable(s) && Settled(s, a) && s.pc.Idle? && Current(s).finalizer && Current(s).status.address == ""
    ensures Reachable(t) && Settled(t, a) && t.pc.Idle? && s.history <= t.history
    ensures Tells(Current(t).status, AllReady, Current(t).generation)
  {
    var half := ReachPass(s, a, 1);
    t := ReachPass(half, a, 2);
    var m := Current(half);
    TellsAfterSet(m.status, m.generation, AllReady, 2);
  }

  /**
    A run from a newly created object in which a stale read mixes the three: a pass fails at the PKI, another one makes
    the object Ready, and a third, having read the version the first one left, fails at etcd.
   */
  lemma StaleCopyMixes(name: string, a: string) returns (s: State)
    requires a != ""
    ensures Reachable(s) && s.history != [] && !Consistent(Current(s).status)
    ensures Current(s).status.ready == Some(true) && Current(s).status.message == Message(Failed(2))
  {
    var failed := FirstFailure(name, a);
    var v := |failed.history| - 1;
    var ready := ReadyAgain(failed, a);
    var m, c := ready.history[v], Current(ready);
    assert m == Current(failed);
    s := ReachFailure(ready, a, v, 2, 3);
    PatchConsistentExactly(c.status, AllReady, c.generation, m.status, Failed(1), m.generation, m.generation, Failed(2),
                           3);
    PatchedTriple(c.status, m.status, Failed(1), m.generation, m.generation, Failed(2), 3);
  }

  /**
    And one in which the stale copy reports the outcome it already told, for a newer generation: only the condition
    moves, and says that the PKI failed beside a Ready object with the message of one.
   */
  lemma StaleGenerationMixes(name: string, a: string) returns (s: State)
    requires a != ""
    ensures Reachable(s) && s.history != [] && !Consistent(Current(s).status)
    ensures Current(s).status.ready == Some(true) && Current(s).status.message == Message(AllReady)
  {
    var failed := FirstFailure(name, a);
    var changed := Step(failed, ChangeSpec);
    ReachOn(failed, ChangeSpec);
    var v := |changed.history| - 1;
    var ready := ReadyAgain(changed, a);
    var m, c, ga := ready.history[v], Current(ready), Current(failed).generation;
    assert m == Current(changed) && PkiFailed(m, ga) && m.generation == ga + 1;
    s := ReachFailure(ready, a, v, 1, 3);
    PatchConsistentExactly(c.status, AllReady, c.generation, m.status, Failed(1), ga, m.generation, Failed(1), 3);
    PatchedTriple(c.status, m.status, Failed(1), ga, m.generation, Failed(1), 3);
  }
}
