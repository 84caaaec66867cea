/**
  What every run of the reconcile protocol keeps, with stale reads, lost conflicts, errors and other writers at every
  step.
 */
module ControlPlaneProofs {
  import opened Optional
  import opened Status
  import opened ControlPlaneModel
  import Names

  // ---------------------------------------------------------------- the versions of the object

  /** What holds between any version and any later one. */
  ghost predicate Later(a: Mcp, b: Mcp) {
    && (a.deleting ==> b.deleting)
    && (a.deleting && !a.finalizer ==> !b.finalizer)
    && (a.status.address != "" ==> b.status.address != "")
    && (a.status.secretRef != "" ==> b.status.secretRef != "")
  }

  ghost predicate Ordered(h: seq<Mcp>) {
    forall i, j :: 0 <= i <= j < |h| ==> Later(h[i], h[j])
  }

  /** Ready is only ever stored beside an address and a kubeconfig reference, and after a completed pass. */
  ghost predicate ReadyBacked(m: Mcp, completed: nat) {
    m.status.ready == Some(true) ==> m.status.address != "" && m.status.secretRef != "" && completed > 0
  }

  ghost predicate Versions(s: State) {
    && s.history != []
    && Ordered(s.history)
    && forall i :: 0 <= i < |s.history| ==> ReadyBacked(s.history[i], s.completed)
  }

  // ---------------------------------------------------------------- the pass

  /** The components 0 to n-1, in order. */
  function Prefix(n: nat): (p: seq<nat>)
    ensures |p| == n && forall i :: 0 <= i < n ==> p[i] == i
  {
    seq(n, i => i)
  }

  /** A pass works on a version that had the finalizer and was not being deleted. */
  ghost predicate Admitted(s: State, v: nat) {
    v < |s.history| && s.history[v].finalizer && !s.history[v].deleting
  }

  ghost predicate Writing(s: State, v: nat, i: nat, w: Write, attempt: nat) {
    && Admitted(s, v) && s.ran == Prefix(i + 1) && attempt < ATTEMPTS
    && match w
       case SetAddress(a) => i == 0 && a != ""
       case SetSecretRef(r) => i == 6 && r != "" && s.history[v].status.address != ""
  }

  ghost predicate AtPc(s: State) {
    match s.pc
    case Idle => true
    case Deciding(v) => v < |s.history|
    case Component(v, i) => Admitted(s, v) && i <= 6 && s.ran == Prefix(i)
    case Addressing(v) => Admitted(s, v) && s.ran == Prefix(1)
    case Fetching(v, i, w, attempt) => Writing(s, v, i, w, attempt)
    case Committing(v, i, w, attempt, at) => Writing(s, v, i, w, attempt) && at < |s.history|
    case Reporting(v, o) =>
      && Admitted(s, v) && Proper(o) && s.ran == Prefix(if o.AllReady? then 7 else o.i + 1)
      && (o.AllReady? ==> s.history[v].status.address != "" && Current(s).status.secretRef != "")
  }

  ghost predicate Invariant(s: State) {
    Versions(s) && AtPc(s)
  }

  // ---------------------------------------------------------------- one step

  /** The version a report is to store. */
  ghost function Reported(s: State, now: nat): Mcp
    requires Enabled(s, Report(false, now))
  {
    var m, c := s.history[s.pc.v], Current(s);
    c.(status := Merge(c.status, m.status, SetOutcome(m.status, m.generation, s.pc.o, now)))
  }

  lemma ReportSteps(s: State, lost: bool, now: nat)
    requires Enabled(s, Report(lost, now))
    ensures var t := s.(pc := Idle, completed := s.completed + if s.pc.o.AllReady? then 1 else 0);
            Step(s, Report(lost, now)) == if lost || s.gone then t else Commit(t, Reported(s, now))
  {
  }

  lemma CommitMovesHistory(s: State, t: State, m: Mcp)
    requires s.history != [] && t.history == s.history
    ensures Commit(t, m) == t.(history := Commit(s, m).history)
  {
  }

  lemma ReportStores(s: State, now: nat)
    requires Enabled(s, Report(false, now)) && !s.gone
    ensures Step(s, Report(false, now)).history == Commit(s, Reported(s, now)).history
  {
  }

  /** Adding a version keeps every promise about the ones before it. */
  lemma CommitKeeps(s: State, t: State, m: Mcp)
    requires Versions(s) && t.history == Commit(s, m).history && s.completed <= t.completed
    requires Later(Current(s), m) && ReadyBacked(m, t.completed)
    ensures Versions(t)
    ensures |s.history| <= |t.history| && forall i :: 0 <= i < |s.history| ==> t.history[i] == s.history[i]
    ensures Current(t) == m
  {
  }

  lemma PrefixOn(n: nat)
    ensures Prefix(n) + [n] == Prefix(n + 1)
  {
  }

  /** Steps that write nothing. */
  lemma QuietStep(s: State, l: Label)
    requires Invariant(s) && Enabled(s, l)
    requires l.ReadNothing? || l.Read? || l.Apply? || l.Address? || l.Fetch? || l.Admin? || l.Publish? || l.Certify?
    ensures Invariant(Step(s, l)) && Step(s, l).history == s.history
  {
    if l.Apply? || l.Admin? { ComponentStep(s, l); }
  }

  lemma ComponentStep(s: State, l: Label)
    requires Invariant(s) && Enabled(s, l) && (l.Apply? || l.Admin?)
    ensures Invariant(Step(s, l)) && Step(s, l).history == s.history
  {
    PrefixOn(|s.ran|);
    if l.Admin? { NonEmptyName(s.name); }
  }

  lemma NonEmptyName(name: string)
    ensures Names.KubeconfigSecret(name) != ""
  {
  }

  lemma DecideKeeps(s: State, fails: bool)
    requires Invariant(s) && Enabled(s, Decide(fails))
    ensures Invariant(Step(s, Decide(fails)))
  {
  }

  lemma PutKeeps(s: State, fails: bool)
    requires Invariant(s) && Enabled(s, Put(fails))
    ensures Invariant(Step(s, Put(fails)))
  {
    var t := Step(s, Put(fails));
    if UpToDate(s, s.pc.at) && !fails {
      var m := Current(s);
      var m' := m.(status := WithField(m.status, s.pc.w));
      assert ReadyBacked(m, s.completed);
      CommitKeeps(s, t, m');
    }
  }

  lemma ReportKeeps(s: State, lost: bool, now: nat)
    requires Invariant(s) && Enabled(s, Report(lost, now))
    ensures Invariant(Step(s, Report(lost, now)))
  {
    var t := Step(s, Report(lost, now));
    if !lost && !s.gone {
      var m, c := s.history[s.pc.v], Current(s);
      var c' := c.(status := Merge(c.status, m.status, SetOutcome(m.status, m.generation, s.pc.o, now)));
      assert Later(m, c) && ReadyBacked(c, s.completed);
      CommitKeeps(s, t, c');
    }
  }

  /** Steps of users and other controllers on the object: they leave the status alone. */
  lemma OutsideKeeps(s: State, l: Label)
    requires Invariant(s) && Enabled(s, l) && (l.ChangeSpec? || l.Delete? || l.Touch?)
    ensures Invariant(Step(s, l))
  {
    var t := Step(s, l);
    if t.history != s.history {
      assert ReadyBacked(Current(s), s.completed);
      CommitKeeps(s, t, Current(t));
    }
  }

  lemma InvariantStep(s: State, l: Label)
    requires Invariant(s) && Enabled(s, l)
    ensures Invariant(Step(s, l))
  {
    match l
    case Decide(fails) => DecideKeeps(s, fails);
    case Put(fails) => PutKeeps(s, fails);
    case Report(lost, now) => ReportKeeps(s, lost, now);
    case ChangeSpec => OutsideKeeps(s, l);
    case Delete => OutsideKeeps(s, l);
    case Touch(_, _) => OutsideKeeps(s, l);
    case _ => QuietStep(s, l);
  }

  lemma {:induction false} InvariantRun(s: State, labels: seq<Label>)
    requires Invariant(s) && Run(s, labels).Some?
    ensures Invariant(Run(s, labels).value)
    decreases |labels|
  {
    if labels != [] {
      InvariantStep(s, labels[0]);
      InvariantRun(Step(s, labels[0]), labels[1..]);
    }
  }

  ghost predicate Reachable(s: State) {
    exists name, others, labels :: Run(Init(name, others), labels) == Some(s)
  }

  lemma ReachableInvariant(s: State)
    requires Reachable(s)
    ensures Invariant(s)
  {
    var name, others, labels :| Run(Init(name, others), labels) == Some(s);
    assert Invariant(Init(name, others));
    InvariantRun(Init(name, others), labels);
  }

  // ---------------------------------------------------------------- completed passes

  lemma {:induction false} RunSplit(s: State, labels: seq<Label>, k: nat)
    requires k <= |labels|
    ensures Run(s, labels) == match Run(s, labels[..k]) case None => None case Some(m) => Run(m, labels[k..])
    decreases k
  {
    if k == 0 {
      assert labels[..0] == [] && labels[0..] == labels;
    } else if Enabled(s, labels[0]) {
      assert labels[..k][1..] == labels[1..][..k - 1] && labels[1..][k - 1..] == labels[k..];
      RunSplit(Step(s, labels[0]), labels[1..], k - 1);
    }
  }

  /** Versions are only ever added. */
  lemma {:induction false} VersionsStay(s: State, labels: seq<Label>)
    requires Invariant(s) && Run(s, labels).Some?
    ensures s.history <= Run(s, labels).value.history
    decreases |labels|
  {
    if labels != [] {
      InvariantStep(s, labels[0]);
      VersionsStay(Step(s, labels[0]), labels[1..]);
    }
  }

  /** The first j steps of a run are a run, and keep their versions. */
  lemma PrefixRuns(s: State, labels: seq<Label>, j: nat)
    requires Invariant(s) && Run(s, labels).Some? && j <= |labels|
    ensures var u := Run(s, labels[..j]);
            u.Some? && Invariant(u.value) && u.value.history <= Run(s, labels).value.history
  {
    RunSplit(s, labels, j);
    InvariantRun(s, labels[..j]);
    VersionsStay(Run(s, labels[..j]).value, labels[j..]);
  }

  /** A prefix of a run is its first step and a prefix of the rest. */
  lemma FirstStep(s: State, labels: seq<Label>, k: nat)
    requires labels != [] && Enabled(s, labels[0]) && k < |labels|
    ensures Run(s, labels[..k + 1]) == Run(Step(s, labels[0]), labels[1..][..k])
    ensures Run(s, labels[..0]) == Some(s)
  {
    assert labels[..k + 1][1..] == labels[1..][..k];
  }

  /** The step that stores version i. */
  lemma {:induction false} StoredBy(s: State, labels: seq<Label>, i: nat) returns (j: nat)
    requires Run(s, labels).Some? && |s.history| <= i < |Run(s, labels).value.history|
    ensures j < |labels| && Run(s, labels[..j]).Some? && Run(s, labels[..j + 1]).Some?
    ensures |Run(s, labels[..j]).value.history| <= i < |Run(s, labels[..j + 1]).value.history|
    decreases |labels|
  {
    var n := Step(s, labels[0]);
    FirstStep(s, labels, 0);
    if i < |n.history| {
      return 0;
    }
    j := StoredBy(n, labels[1..], i);
    FirstStep(s, labels, j);
    FirstStep(s, labels, j + 1);
    j := j + 1;
  }

  /** A pass has run all seven components, in order, none failing or waiting, and is about to say so. */
  ghost predicate AllRan(s: State) {
    s.pc.Reporting? && s.pc.o.AllReady? && s.ran == Prefix(7)
  }

  /** After k steps of the run such a pass is at its end, and the object does not have version i yet. */
  ghost predicate CompletesAt(s: State, labels: seq<Label>, k: nat, i: nat) {
    k < |labels| && Run(s, labels[..k]).Some?
    && AllRan(Run(s, labels[..k]).value) && |Run(s, labels[..k]).value.history| <= i
  }

  /** The counter of completed passes goes up only where such a pass ends. */
  lemma {:induction false} CompletedByPass(s: State, labels: seq<Label>) returns (k: nat)
    requires Invariant(s) && Run(s, labels).Some? && Run(s, labels).value.completed > s.completed
    ensures k < |labels| && Run(s, labels[..k]).Some? && AllRan(Run(s, labels[..k]).value)
    decreases |labels|
  {
    var n := Step(s, labels[0]);
    FirstStep(s, labels, 0);
    if n.completed > s.completed {
      return 0;
    }
    InvariantStep(s, labels[0]);
    k := CompletedByPass(n, labels[1..]);
    FirstStep(s, labels, k);
    k := k + 1;
  }

  /** Where version i is stored with Ready=true, the counter is positive already. */
  lemma CompletedBefore(s: State, labels: seq<Label>, i: nat) returns (k: nat)
    requires Invariant(s) && s.completed == 0 && |s.history| <= i && Run(s, labels).Some?
    requires var t := Run(s, labels).value; i < |t.history| && t.history[i].status.ready == Some(true)
    ensures CompletesAt(s, labels, k, i)
  {
    var j := StoredBy(s, labels, i);
    PrefixRuns(s, labels, j + 1);
    assert ReadyBacked(Run(s, labels[..j + 1]).value.history[i], Run(s, labels[..j + 1]).value.completed);
    k := CompletedByPass(s, labels[..j + 1]);
    assert labels[..j + 1][..k] == labels[..k];
    PrefixRuns(s, labels, j);
    assert labels[..j][..k] == labels[..k];
    PrefixRuns(s, labels[..j], k);
  }

  // ---------------------------------------------------------------- over all runs

  /**
    In every reachable state and every version of the object: Ready=true stands beside a non-empty address and a set
    kubeconfig reference, and, before that version was stored, a pass of the same run had run all seven components in
    order without error or wait.
   */
  lemma ReadyIsBacked(s: State, i: nat)
    requires Reachable(s) && i < |s.history| && s.history[i].status.ready == Some(true)
    ensures s.history[i].status.address != "" && s.history[i].status.secretRef != "" && s.completed > 0
    ensures exists name, others, labels, k ::
              Run(Init(name, others), labels) == Some(s) && CompletesAt(Init(name, others), labels, k, i)
  {
    ReachableInvariant(s);
    var name, others, labels :| Run(Init(name, others), labels) == Some(s);
    var first := Init(name, others);
    VersionsStay(first, labels);
    assert s.history[0] == first.history[0];
    var k := CompletedBefore(first, labels, i);
  }

  /**
    When a pass reports, it has run exactly the components up to the one that stopped it, in order; all seven if none
    did.
   */
  lemma ReportsAfterPrefix(s: State)
    requires Reachable(s) && s.pc.Reporting?
    ensures s.ran == Prefix(if s.pc.o.AllReady? then 7 else s.pc.o.i + 1) && Proper(s.pc.o)
  {
    ReachableInvariant(s);
  }

  /** From an agreeing copy, the stored message then identifies the last component run. */
  lemma MessageNamesLastComponent(s: State, now: nat, o: Outcome)
    requires Reachable(s) && Enabled(s, Report(false, now)) && !s.gone && Proper(o)
    requires SameTriple(Current(s).status, s.history[s.pc.v].status)
    ensures var t := Step(s, Report(false, now));
            && Consistent(Current(t).status)
            && (Current(t).status.message == Message(o) <==> o == s.pc.o)
            && (!s.pc.o.AllReady? ==> s.ran == Prefix(s.pc.o.i + 1))
  {
    ReportsAfterPrefix(s);
    var m, c := s.history[s.pc.v], Current(s);
    PatchOfAgreedCopy(c.status, m.status, m.generation, s.pc.o, now, now);
    MessageIdentifies(o, s.pc.o);
  }

  /**
    Finalizers over all runs: once a version of the object being deleted lacks the finalizer no later version has it;
    the operator adds it only to a version that is not being deleted; and no child is applied for an object of which no
    version had it.
   */
  lemma FinalizerNeverReadded(s: State, i: nat, j: nat)
    requires Reachable(s) && i <= j < |s.history| && s.history[i].deleting && !s.history[i].finalizer
    ensures s.history[j].deleting && !s.history[j].finalizer
  {
    ReachableInvariant(s);
    assert Later(s.history[i], s.history[j]);
  }

  lemma FinalizerAddedOnlyToLive(s: State, fails: bool)
    requires Enabled(s, Decide(fails))
    ensures var t := Step(s, Decide(fails));
            && (!Current(s).finalizer && Current(t).finalizer ==>
                  t.history == s.history + [Current(s).(finalizer := true)] && !Current(s).deleting)
            && (t.gone != s.gone ==> Current(s).deleting && Current(s).finalizer && !Current(s).others)
  {
  }

  lemma ChildrenOnlyAfterFinalizer(s: State, l: Label)
    requires Reachable(s) && Enabled(s, l) && Step(s, l).children != s.children
    ensures exists i :: 0 <= i < |s.history| && s.history[i].finalizer && !s.history[i].deleting
  {
    ReachableInvariant(s);
    assert Admitted(s, s.pc.v);
  }

  // ---------------------------------------------------------------- conflict retry

  ghost predicate InLoop(pc: Pc) {
    pc.Fetching? || pc.Committing?
  }

  /** The attempt wrote. */
  ghost predicate Wrote(s: State, l: Label) {
    l.Put? && s.pc.Committing? && !l.fails && UpToDate(s, s.pc.at)
  }

  /**
    A successful attempt replaces the current version by one that differs from it in the one field; any other writes
    nothing.
   */
  lemma AttemptIsAtomic(s: State, fails: bool)
    requires Enabled(s, Put(fails))
    ensures var t, pc := Step(s, Put(fails)), s.pc;
            if Wrote(s, Put(fails)) then
              t.pc == AfterWrite(pc.v, pc.i) &&
              t.history == Commit(s, Current(s).(status := WithField(Current(s).status, pc.w))).history
            else
              t.history == s.history &&
              t.pc == if fails || s.gone || pc.attempt + 1 >= ATTEMPTS then Reporting(pc.v, Failed(pc.i))
                      else Fetching(pc.v, pc.i, pc.w, pc.attempt + 1)
  {
  }

  /** The steps of the loop: two calls per attempt still allowed. */
  function Remaining(pc: Pc): nat {
    match pc
    case Fetching(_, _, _, attempt) => if attempt < ATTEMPTS then 2 * (ATTEMPTS - attempt) else 0
    case Committing(_, _, _, attempt, _) => if attempt < ATTEMPTS then 2 * (ATTEMPTS - attempt) - 1 else 0
    case _ => 0
  }

  /** The operator's steps in a run, and the writes among them. */
  ghost function Calls(s: State, labels: seq<Label>): nat
    requires Run(s, labels).Some?
    decreases |labels|
  {
    if labels == [] then 0
    else (if ByOperator(labels[0]) then 1 else 0) + Calls(Step(s, labels[0]), labels[1..])
  }

  ghost function Writes(s: State, labels: seq<Label>): nat
    requires Run(s, labels).Some?
    decreases |labels|
  {
    if labels == [] then 0
    else (if Wrote(s, labels[0]) then 1 else 0) + Writes(Step(s, labels[0]), labels[1..])
  }

  /** Outside the loop nothing is left of it. */
  ghost predicate LoopLeft(pc: Pc, v: nat, i: nat, written: bool) {
    pc == if written then AfterWrite(v, i) else Reporting(v, Failed(i))
  }

  lemma {:induction false} AfterLoop(s: State, labels: seq<Label>, v: nat, i: nat, written: bool)
    requires Run(s, labels).Some? && LoopLeft(s.pc, v, i, written)
    requires forall l :: l in labels ==> !ByOperator(l) || l.Fetch? || l.Put?
    ensures LoopLeft(Run(s, labels).value.pc, v, i, written) && Writes(s, labels) == 0 && Calls(s, labels) == 0
    decreases |labels|
  {
    if labels != [] {
      assert !ByOperator(labels[0]);
      AfterLoop(Step(s, labels[0]), labels[1..], v, i, written);
    }
  }

  lemma LoopStep(s: State, l: Label)
    requires Invariant(s) && InLoop(s.pc) && Enabled(s, l) && (!ByOperator(l) || l.Fetch? || l.Put?)
    ensures var n := Step(s, l);
            && Remaining(n.pc) + (if ByOperator(l) then 1 else 0) <= Remaining(s.pc)
            && (if InLoop(n.pc) then n.pc.v == s.pc.v && n.pc.i == s.pc.i && !Wrote(s, l)
                else LoopLeft(n.pc, s.pc.v, s.pc.i, Wrote(s, l)))
  {
  }

  /**
    The conflict-retry updates, whatever other writers do in between: the loop makes at most ten calls; it has written
    exactly once when it is left successfully, and not at all while it runs or when it is left with an error.
   */
  lemma {:induction false} RetryWritesOnce(s: State, labels: seq<Label>)
    requires Invariant(s) && InLoop(s.pc) && Run(s, labels).Some?
    requires forall l :: l in labels ==> !ByOperator(l) || l.Fetch? || l.Put?
    ensures var t := Run(s, labels).value;
            && Calls(s, labels) + Remaining(t.pc) <= Remaining(s.pc)
            && (if InLoop(t.pc) then Writes(s, labels) == 0
                else Writes(s, labels) <= 1 && LoopLeft(t.pc, s.pc.v, s.pc.i, Writes(s, labels) == 1))
    decreases |labels|
  {
    if labels != [] {
      var l := labels[0];
      assert !ByOperator(l) || l.Fetch? || l.Put?;
      InvariantStep(s, l);
      LoopStep(s, l);
      var n := Step(s, l);
      if InLoop(n.pc) {
        RetryWritesOnce(n, labels[1..]);
      } else {
        AfterLoop(n, labels[1..], s.pc.v, s.pc.i, Wrote(s, l));
      }
    }
  }

  /** A conflict is tried again until the calls run out: without another failure, giving up takes all of them. */
  lemma {:induction false} GivesUpLast(s: State, labels: seq<Label>)
    requires Invariant(s) && InLoop(s.pc) && s.pc.attempt < ATTEMPTS && Run(s, labels).Some?
    requires forall l :: l in labels ==> !ByOperator(l) || (l.Fetch? && l.version.Some?) || (l.Put? && !l.fails)
    requires var t := Run(s, labels).value; !t.gone && t.pc == Reporting(s.pc.v, Failed(s.pc.i))
    ensures Calls(s, labels) == Remaining(s.pc)
    decreases |labels|
  {
    var l := labels[0];
    assert l in labels;
    InvariantStep(s, l);
    LoopStep(s, l);
    var n := Step(s, l);
    if n.gone { GoneStays(n, labels[1..]); }
    if InLoop(n.pc) {
      GivesUpLast(n, labels[1..]);
    } else {
      AfterLoop(n, labels[1..], s.pc.v, s.pc.i, Wrote(s, l));
    }
  }

  lemma {:induction false} GoneStays(s: State, labels: seq<Label>)
    requires Run(s, labels).Some? && s.gone
    ensures Run(s, labels).value.gone
    decreases |labels|
  {
    if labels != [] { GoneStays(Step(s, labels[0]), labels[1..]); }
  }

  /**
    The update gives up for a conflict only after five attempts, a read and a write each: any run of it that ends in
    failure without a failed call, on an object that is still there, has made ten calls.
   */
  lemma FiveAttempts(s: State, labels: seq<Label>)
    requires Invariant(s) && s.pc.Fetching? && s.pc.attempt == 0 && Run(s, labels).Some?
    requires forall l :: l in labels ==> !ByOperator(l) || (l.Fetch? && l.version.Some?) || (l.Put? && !l.fails)
    requires var t := Run(s, labels).value; !t.gone && t.pc == Reporting(s.pc.v, Failed(s.pc.i))
    ensures Calls(s, labels) == 10
  {
    GivesUpLast(s, labels);
  }

  /** A loop label writes the one field if its attempt succeeds; nothing else in the loop's time touches the status. */
  lemma StatusStep(s: State, l: Label)
    requires Enabled(s, l) && (!ByOperator(l) || (InLoop(s.pc) && (l.Fetch? || l.Put?)))
    ensures var n := Step(s, l);
            && n.history != []
            && Current(n).status == (if Wrote(s, l) then WithField(Current(s).status, s.pc.w) else Current(s).status)
            && (InLoop(s.pc) && InLoop(n.pc) ==> n.pc.w == s.pc.w)
  {
    if l.Put? { AttemptIsAtomic(s, l.fails); }
  }

  lemma {:induction false} StatusAfterLoop(s: State, labels: seq<Label>)
    requires Run(s, labels).Some? && !InLoop(s.pc) && s.history != []
    requires forall l :: l in labels ==> !ByOperator(l) || l.Fetch? || l.Put?
    ensures var t := Run(s, labels).value; t.history != [] && Current(t).status == Current(s).status
    decreases |labels|
  {
    if labels != [] {
      assert !ByOperator(labels[0]);
      StatusStep(s, labels[0]);
      StatusAfterLoop(Step(s, labels[0]), labels[1..]);
    }
  }

  /**
    And what they write: whatever others do in between, the status afterwards is the one before, with the one field set
    if the loop wrote, and the very same otherwise.
   */
  lemma {:induction false} RetryWritesItsField(s: State, labels: seq<Label>)
    requires Invariant(s) && InLoop(s.pc) && Run(s, labels).Some?
    requires forall l :: l in labels ==> !ByOperator(l) || l.Fetch? || l.Put?
    ensures var t := Run(s, labels).value;
            && t.history != []
            && Current(t).status ==
               (if Writes(s, labels) == 1 then WithField(Current(s).status, s.pc.w) else Current(s).status)
    decreases |labels|
  {
    if labels != [] {
      var l := labels[0];
      assert !ByOperator(l) || l.Fetch? || l.Put?;
      InvariantStep(s, l);
      LoopStep(s, l);
      StatusStep(s, l);
      var n := Step(s, l);
      if InLoop(n.pc) {
        RetryWritesItsField(n, labels[1..]);
      } else {
        AfterLoop(n, labels[1..], s.pc.v, s.pc.i, Wrote(s, l));
        StatusAfterLoop(n, labels[1..]);
      }
    }
  }
}
