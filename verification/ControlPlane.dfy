/**
  The reconciler's code. Objects it reads are local copies that it changes in place; the API server is the object's
  history and the children. Whatever the code cannot choose (which version a cached read returns, which calls fail, what
  others do between two calls) is nondeterministic, and every execution is proved to be a run of the transition system.
 */
module ControlPlane {
  import opened Optional
  import opened Status
  import opened ControlPlaneModel
  import opened ControlPlaneProofs
  import Names

  /** A `*bool`: two pointers to equal values are different pointers. */
  class BoolRef {
    const value: bool
    constructor (value: bool)
      ensures this.value == value
    {
      this.value := value;
    }
  }

  /** A local copy of the object. */
  class Local {
    const version: nat
    const generation: nat
    const deleting: bool
    const others: bool
    var finalizer: bool
    var ready: BoolRef?
    var message: string
    var conditions: seq<Condition>
    var address: string
    var secretRef: string

    function StatusValue(): Status
      reads this
    {
      Status(if ready == null then None else Some(ready.value), message, conditions, address, secretRef)
    }

    function Value(): Mcp
      reads this
    {
      Mcp(generation, deleting, finalizer, others, StatusValue())
    }

    /** What Get decodes. */
    constructor (version: nat, m: Mcp)
      ensures this.version == version && Value() == m && (ready != null ==> fresh(ready))
    {
      this.version, generation, deleting, others, finalizer := version, m.generation, m.deleting, m.others, m.finalizer;
      message, conditions := m.status.message, m.status.conditions;
      address, secretRef := m.status.address, m.status.secretRef;
      ready := null;
      new;
      if m.status.ready.Some? { ready := new BoolRef(m.status.ready.value); }
    }

    /** DeepCopy: equal, and sharing nothing. */
    method DeepCopy() returns (copy: Local)
      ensures fresh(copy) && copy.version == version && copy.Value() == Value()
      ensures copy.ready != null ==> fresh(copy.ready)
    {
      copy := new Local(version, Value());
    }
  }

  ghost function Fetches(labels: seq<Label>): nat {
    if labels == [] then 0
    else Fetches(labels[..|labels| - 1]) + if labels[|labels| - 1].Fetch? then 1 else 0
  }

  /** A ctrl.Result with its error. */
  datatype Result = Continue | Requeue | Wait | Error

  class Reconciler {
    const name: string
    // the API server
    var history: seq<Mcp>
    var gone: bool
    var children: Children
    var published: seq<string>
    var secret: Secret
    // the run so far
    ghost var pc: Pc
    ghost var ran: seq<nat>
    ghost var completed: nat
    ghost const others: bool
    ghost var trace: seq<Label>

    ghost function Now(): State
      reads this
    {
      State(name, history, gone, pc, children, published, secret, ran, completed)
    }

    ghost predicate Valid()
      reads this
    {
      history != [] && Run(Init(name, others), trace) == Some(Now())
    }

    lemma Known()
      requires Valid()
      ensures Invariant(Now())
    {
      assert Invariant(Init(name, others));
      InvariantRun(Init(name, others), trace);
    }

    constructor (name: string, others: bool)
      ensures Valid() && pc.Idle? && trace == []
    {
      this.name := name;
      history, gone, children := [Mcp(1, false, false, others, EMPTY_STATUS)], false, NO_CHILDREN;
      published, secret, pc, ran, completed := [""], Missing, Idle, [], 0;
      this.others, trace := others, [];
    }

    /** The run goes on from t, with at most n more calls of Get in a retry loop. */
    ghost predicate Since(t: seq<Label>, n: nat)
      reads this`trace
    {
      t <= trace && Fetches(trace) <= Fetches(t) + n
    }

    /** The fields just assigned are those after the step. */
    ghost method Take(l: Label, was: State)
      requires Run(Init(name, others), trace) == Some(was)
      requires Enabled(was, l) && Now() == Step(was, l)
      modifies this`trace
      ensures Run(Init(name, others), trace) == Some(Now()) && trace == old(trace) + [l]
      ensures Since(old(trace), if l.Fetch? then 1 else 0)
    {
      assert (trace + [l])[..|trace|] == trace;
      RunOn(Init(name, others), trace, was, l);
      trace := trace + [l];
    }

    /** The server stores m as the current version; an unchanged object gets no new resource version. */
    method Store(m: Mcp)
      requires history != []
      modifies this`history
      ensures history == Commit(old(Now()), m).history
    {
      if m != history[|history| - 1] { history := history + [m]; }
    }

    method StoreMeta(m: Mcp)
      requires history != []
      modifies this`history, this`gone
      ensures Now() == CommitMeta(old(Now()), m)
    {
      if m.deleting && !m.finalizer && !m.others { gone := true; } else { Store(m); }
    }

    /** What others do between two calls of the operator. */
    method Others()
      requires Valid()
      modifies this`history, this`gone, this`published, this`secret, this`trace
      ensures Since(old(trace), 0)
      ensures Valid() && Extends(old(history))
    {
      var n: nat := *;
      while n > 0
        invariant Valid() && Extends(old(history)) && Since(old(trace), 0)
      {
        Other();
        n := n - 1;
      }
    }

    ghost predicate Extends(h: seq<Mcp>)
      reads this`history
    {
      |h| <= |history| && forall i :: 0 <= i < |h| ==> history[i] == h[i]
    }

    method Other()
      requires Valid()
      modifies this`history, this`gone, this`published, this`secret, this`trace
      ensures Since(old(trace), 0)
      ensures Valid() && Extends(old(history))
    {
      if
      case !gone =>
        ByUser();
      case true =>
        ghost var was := Now();
        var a: string := *;
        published := published + [a];
        Take(Publish(a), was);
      case true =>
        ghost var was := Now();
        var x: Secret := *;
        secret := x;
        Take(Certify(x), was);
    }

    method ByUser()
      requires Valid() && !gone
      modifies this`history, this`gone, this`trace
      ensures Since(old(trace), 0)
      ensures Valid() && Extends(old(history))
    {
      var m := history[|history| - 1];
      var finalizer: bool, others: bool := *, *;
      if
      case true =>
        EditSpec();
      case !m.deleting =>
        RequestDeletion();
      case m.deleting ==> (finalizer ==> m.finalizer) && (others ==> m.others) =>
        EditFinalizers(finalizer, others);
    }

    method EditSpec()
      requires Valid() && !gone
      modifies this`history, this`trace
      ensures Since(old(trace), 0) && Valid() && Extends(old(history))
    {
      ghost var was := Now();
      var m := history[|history| - 1];
      Store(m.(generation := m.generation + 1));
      Take(ChangeSpec, was);
    }

    method RequestDeletion()
      requires Valid() && !gone && !history[|history| - 1].deleting
      modifies this`history, this`gone, this`trace
      ensures Since(old(trace), 0) && Valid() && Extends(old(history))
    {
      ghost var was := Now();
      var m := history[|history| - 1];
      StoreMeta(m.(deleting := true, generation := m.generation + 1));
      Take(Delete, was);
    }

    method EditFinalizers(finalizer: bool, others: bool)
      requires Valid() && !gone
      requires var m := history[|history| - 1]; m.deleting ==> (finalizer ==> m.finalizer) && (others ==> m.others)
      modifies this`history, this`gone, this`trace
      ensures Since(old(trace), 0) && Valid() && Extends(old(history))
    {
      ghost var was := Now();
      var m := history[|history| - 1];
      StoreMeta(m.(finalizer := finalizer, others := others));
      Take(Touch(finalizer, others), was);
    }

    // -------------------------------------------------------------- status

    /** Status().Patch with MergeFrom(before): no version, only what differs; it may fail, and nobody looks. */
    method Patch(before: Status, after: Status, lost: bool)
      requires history != []
      modifies this`history
      ensures history == if lost || gone then old(history)
              else Commit(old(Now()), Patched(Current(old(Now())), before, after)).history
    {
      if !lost && !gone {
        var c := history[|history| - 1];
        Store(c.(status := Merge(c.status, before, after)));
      }
    }

    static ghost function Patched(c: Mcp, before: Status, after: Status): Mcp {
      c.(status := Merge(c.status, before, after))
    }

    /**
      setStatus on the local copy and the server; `sent` says that the patch was sent, `lost` that it failed. The early
      return compares a fresh pointer to an older one.
     */
    method WriteStatus(mcp: Local, o: Outcome) returns (sent: bool, lost: bool, now: nat)
      requires AtVersion(mcp) && pc == Reporting(mcp.version, o) && Proper(o)
      modifies this`history, mcp
      ensures sent && Enabled(old(Now()), Report(lost, now))
      ensures history == if lost || gone then old(history) else Commit(old(Now()), Reported(old(Now()), now)).history
    {
      now, lost := *, *;
      var before := mcp.DeepCopy();
      mcp.ready := new BoolRef(o.AllReady?);
      mcp.message := Message(o);
      var newC := ReadyCondition(o, mcp.generation);
      mcp.conditions := SetCondition(mcp.conditions, newC, now);
      var oldC := FindCondition(before.conditions, newC.kind);
      var sameCond := oldC.Some? && oldC.value.(since := newC.since) == newC;
      var sameReady := before.ready == mcp.ready;
      var sameMessage := before.message == mcp.message;
      sent := !(sameReady && sameMessage && sameCond);
      if sent {
        Patch(before.StatusValue(), mcp.StatusValue(), lost);
      }
    }

    /** setStatus: the patch is always sent. */
    method SetStatus(mcp: Local, o: Outcome) returns (sent: bool)
      requires Valid() && pc == Reporting(mcp.version, o) && Proper(o)
      requires AtVersion(mcp)
      modifies this`history, this`pc, this`completed, this`trace, mcp
      ensures Since(old(trace), 0)
      ensures Valid() && pc.Idle?
      ensures completed == old(completed) + if o.AllReady? then 1 else 0
      ensures sent
    {
      ghost var was := Now();
      var lost, now;
      sent, lost, now := WriteStatus(mcp, o);
      EndPass(was, lost, now);
    }

    /** The last step of a pass, its patch sent. */
    ghost method EndPass(was: State, lost: bool, now: nat)
      requires Run(Init(name, others), trace) == Some(was) && Enabled(was, Report(lost, now))
      requires Now() == was.(history := history)
      requires history == if lost || gone then was.history else Commit(was, Reported(was, now)).history
      modifies this`pc, this`completed, this`trace
      ensures Since(old(trace), 0)
      ensures Valid() && pc.Idle?
      ensures completed == old(completed) + if was.pc.o.AllReady? then 1 else 0
    {
      pc, completed := Idle, completed + if was.pc.o.AllReady? then 1 else 0;
      ghost var done := was.(pc := Idle, completed := completed);
      ReportSteps(was, lost, now);
      CommitMovesHistory(was, done, Reported(was, now));
      assert Now() == done.(history := history);
      Take(Report(lost, now), was);
    }

    // -------------------------------------------------------------- conflict retry

    ghost predicate Stopped(r: Result, v: nat, i: nat)
      reads this`pc
    {
      r.Error? && pc == Reporting(v, Failed(i))
    }

    /** The Get of one attempt: any version, or an error. */
    method FetchLatest(v: nat, i: nat, w: Write, attempt: nat) returns (latest: Local?)
      requires Valid() && pc == Fetching(v, i, w, attempt)
      modifies this`pc, this`trace
      ensures Since(old(trace), 1)
      ensures Valid()
      ensures if latest == null then pc == Reporting(v, Failed(i))
              else fresh(latest) && latest.version < |history| && latest.Value() == history[latest.version] &&
                   pc == Committing(v, i, w, attempt, latest.version)
    {
      ghost var was := Now();
      if * {
        pc := Reporting(v, Failed(i));
        Take(Fetch(None), was);
        return null;
      }
      var at: nat :| at < |history|;
      latest := new Local(at, history[at]);
      pc := Committing(v, i, w, attempt, at);
      Take(Fetch(Some(at)), was);
    }

    /** Status().Update: compare-and-swap on the resource version. */
    method UpdateStatus(latest: Local, v: nat, i: nat, w: Write, attempt: nat) returns (r: Result, conflict: bool)
      requires Valid() && pc == Committing(v, i, w, attempt, latest.version)
      requires latest.version < |history|
      requires latest.StatusValue() == WithField(history[latest.version].status, w)
      modifies this`history, this`pc, this`trace
      ensures Since(old(trace), 0)
      ensures Valid() && Extends(old(history))
      ensures if conflict && attempt + 1 < ATTEMPTS then pc == Fetching(v, i, w, attempt + 1)
              else if r.Continue? then pc == AfterWrite(v, i) else Stopped(r, v, i)
    {
      ghost var was := Now();
      var fails: bool := *;
      conflict := !fails && !gone && latest.version != |history| - 1;
      if fails || gone {
        pc, r := Reporting(v, Failed(i)), Error;
      } else if conflict {
        pc, r := if attempt + 1 < ATTEMPTS then Fetching(v, i, w, attempt + 1) else Reporting(v, Failed(i)), Error;
      } else {
        Store(history[|history| - 1].(status := latest.StatusValue()));
        pc, r := AfterWrite(v, i), Continue;
      }
      Take(Put(fails), was);
    }

    /** One attempt: a fresh copy, the field, the update. */
    method Attempt(v: nat, i: nat, w: Write, attempt: nat) returns (r: Result, conflict: bool)
      requires Valid() && pc == Fetching(v, i, w, attempt)
      modifies this`history, this`gone, this`published, this`secret, this`pc, this`trace
      ensures Since(old(trace), 1)
      ensures Valid() && Extends(old(history))
      ensures if conflict && attempt + 1 < ATTEMPTS then pc == Fetching(v, i, w, attempt + 1)
              else if r.Continue? then pc == AfterWrite(v, i) else Stopped(r, v, i)
    {
      Others();
      var latest := FetchLatest(v, i, w, attempt);
      if latest == null {
        return Error, false;
      }
      match w {
        case SetAddress(a) => latest.address := a;
        case SetSecretRef(ref) => latest.secretRef := ref;
      }
      r, conflict := SendStatus(latest, v, i, w, attempt);
    }

    /** Others may come between the Get and the Update. */
    method SendStatus(latest: Local, v: nat, i: nat, w: Write, attempt: nat) returns (r: Result, conflict: bool)
      requires Valid() && pc == Committing(v, i, w, attempt, latest.version)
      requires latest.version < |history|
      requires latest.StatusValue() == WithField(history[latest.version].status, w)
      modifies this`history, this`gone, this`published, this`secret, this`pc, this`trace
      ensures Since(old(trace), 0)
      ensures Valid() && Extends(old(history))
      ensures if conflict && attempt + 1 < ATTEMPTS then pc == Fetching(v, i, w, attempt + 1)
              else if r.Continue? then pc == AfterWrite(v, i) else Stopped(r, v, i)
    {
      Others();
      r, conflict := UpdateStatus(latest, v, i, w, attempt);
    }

    /** updateMCPAddress and updateMCPAdminSecretRef: a fresh copy each time, at most five attempts. */
    method RetryOnConflict(v: nat, i: nat, w: Write) returns (r: Result)
      requires Valid() && pc == Fetching(v, i, w, 0)
      modifies this`history, this`gone, this`published, this`secret, this`pc, this`trace
      ensures Since(old(trace), ATTEMPTS)
      ensures Valid() && Extends(old(history))
      ensures if r.Continue? then pc == AfterWrite(v, i) else Stopped(r, v, i)
    {
      r := Error;
      var attempt := 0;
      var conflict := true;
      while conflict && attempt < ATTEMPTS
        invariant Valid() && Extends(old(history)) && attempt <= ATTEMPTS && Since(old(trace), attempt)
        invariant if conflict && attempt < ATTEMPTS then pc == Fetching(v, i, w, attempt)
                  else if r.Continue? then pc == AfterWrite(v, i) else Stopped(r, v, i)
        decreases ATTEMPTS - attempt
      {
        r, conflict := Attempt(v, i, w, attempt);
        attempt := attempt + 1;
      }
    }

    // -------------------------------------------------------------- the components

    /** The local copy is the version it was read at; its status is never refreshed during the pass. */
    ghost predicate AtVersion(mcp: Local)
      reads this`history, mcp, mcp.ready
    {
      mcp.version < |history| && mcp.Value() == history[mcp.version]
    }

    /** A component that only applies its objects. */
    method ApplyComponent(mcp: Local, i: nat) returns (r: Result)
      requires Valid() && AtVersion(mcp) && pc == Component(mcp.version, i) && i < 6
      modifies this`children, this`pc, this`ran, this`trace
      ensures Since(old(trace), 0)
      ensures Valid() && ran == old(ran) + [i]
      ensures match r
              case Continue =>
                && pc == (if i == 0 then Addressing(mcp.version) else Component(mcp.version, i + 1))
                && children == Applied(old(children), i, mcp.address)
              case Error => Stopped(r, mcp.version, i) && children == old(children)
              case _ => false
    {
      ghost var was := Now();
      var fails: bool := *;
      if fails {
        pc, r := Reporting(mcp.version, Failed(i)), Error;
      } else {
        children := Applied(children, i, mcp.address);
        pc, r := if i == 0 then Addressing(mcp.version) else Component(mcp.version, i + 1), Continue;
      }
      ran := ran + [i];
      Take(Apply(fails), was);
    }

    /** tryEndpointAddress: a cached read of the service, so any address published so far. */
    method TryEndpointAddress() returns (answer: Answer)
      ensures answer.Found? ==> answer.address in published
    {
      if
      case true => answer := ServiceNotFound;
      case true => answer := ServiceError;
      case published != [] =>
        var k: nat :| k < |published|;
        answer := Found(published[k]);
    }

    /** How a component leaves the pass. */
    ghost predicate Left(mcp: Local, i: nat, r: Result)
      reads this`pc
    {
      match r
      case Continue => pc == if i < 6 then Component(mcp.version, i + 1) else Reporting(mcp.version, AllReady)
      case Wait => pc == Reporting(mcp.version, Waiting(i))
      case Error => pc == Reporting(mcp.version, Failed(i))
      case Requeue => false
    }

    method ReconcileService(mcp: Local) returns (r: Result, ghost answer: Option<Answer>)
      requires Valid() && AtVersion(mcp) && pc == Component(mcp.version, 0)
      modifies this`history, this`gone, this`published, this`secret, this`pc, this`trace, this`children, this`ran
      ensures Since(old(trace), ATTEMPTS)
      ensures Valid() && Extends(old(history)) && Left(mcp, 0, r)
      ensures Answered(mcp.address, answer, r)
    {
      r := ApplyComponent(mcp, 0);
      if r.Error? {
        return r, None;
      }
      r, answer := ReconcileAddress(mcp);
    }

    /** reconcileAPIServiceSvc after the service is applied. */
    method ReconcileAddress(mcp: Local) returns (r: Result, ghost answer: Option<Answer>)
      requires Valid() && AtVersion(mcp) && pc == Addressing(mcp.version)
      modifies this`history, this`gone, this`published, this`secret, this`pc, this`trace
      ensures Since(old(trace), ATTEMPTS)
      ensures Valid() && Extends(old(history)) && Left(mcp, 0, r)
      ensures Answered(mcp.address, answer, r)
    {
      Others();
      var found := TryEndpointAddress();
      answer := Some(found);
      r := Compare(mcp, found);
      if r.Requeue? {
        r := RetryOnConflict(mcp.version, 0, SetAddress(found.address));
      }
    }

    /**
      The result of reconcileAPIServiceSvc, from the address known and the service's; no answer if applying it failed.
     */
    static ghost predicate Answered(known: string, answer: Option<Answer>, r: Result) {
      match answer
      case None => r.Error?
      case Some(ServiceNotFound) => r.Continue?
      case Some(ServiceError) => r.Error?
      case Some(Found(addr)) =>
        if addr == "" then r.Wait? else if addr == known then r.Continue? else r.Continue? || r.Error?
    }

    /** What reconcileAPIServiceSvc does with the answer; Requeue stands for the address to be stored. */
    method Compare(mcp: Local, answer: Answer) returns (r: Result)
      requires Valid() && AtVersion(mcp) && pc == Addressing(mcp.version)
      requires answer.Found? ==> answer.address in published
      modifies this`pc, this`trace
      ensures Since(old(trace), 0)
      ensures Valid()
      ensures if r.Requeue? then
                && answer.Found? && answer.address != "" && answer.address != mcp.address
                && pc == Fetching(mcp.version, 0, SetAddress(answer.address), 0)
              else Left(mcp, 0, r) && Answered(mcp.address, Some(answer), r)
    {
      ghost var was := Now();
      match answer {
        case ServiceNotFound =>
          pc, r := Component(mcp.version, 1), Continue;
        case ServiceError =>
          pc, r := Reporting(mcp.version, Failed(0)), Error;
        case Found(addr) =>
          if addr == "" {
            pc, r := Reporting(mcp.version, Waiting(0)), Wait;
          } else if mcp.address != addr {
            pc, r := Fetching(mcp.version, 0, SetAddress(addr), 0), Requeue;
          } else {
            pc, r := Component(mcp.version, 1), Continue;
          }
      }
      Take(Address(answer), was);
    }

    /** reconcileAdminConfig: the address of the local copy, the admin secret, the kubeconfig, the reference. */
    method ReconcileAdminConfig(mcp: Local) returns (r: Result)
      requires Valid() && AtVersion(mcp) && pc == Component(mcp.version, 6)
      modifies this`history, this`gone, this`published, this`secret, this`pc, this`trace, this`children, this`ran
      ensures Since(old(trace), ATTEMPTS)
      ensures Valid() && Extends(old(history)) && Left(mcp, 6, r)
      ensures r.Continue? ==> mcp.address != "" && children.kubeconfig == Some(mcp.address)
      ensures mcp.address == "" ==> r.Wait? && children == old(children)
      ensures mcp.address != "" && !old(secret).Complete? ==> (r.Wait? || r.Error?) && children == old(children)
      ensures r.Wait? ==> mcp.address == "" || !old(secret).Complete?
    {
      r := WriteKubeconfig(mcp);
      if r.Continue? {
        r := RetryOnConflict(mcp.version, 6, SetSecretRef(Names.KubeconfigSecret(name)));
      }
    }

    method WriteKubeconfig(mcp: Local) returns (r: Result)
      requires Valid() && AtVersion(mcp) && pc == Component(mcp.version, 6)
      modifies this`pc, this`trace, this`children, this`ran
      ensures Since(old(trace), 0)
      ensures Valid()
      ensures if r.Continue? then
                && pc == Fetching(mcp.version, 6, SetSecretRef(Names.KubeconfigSecret(name)), 0)
                && mcp.address != "" && secret.Complete?
                && children == old(children).(kubeconfig := Some(mcp.address))
              else Left(mcp, 6, r) && children == old(children)
      ensures r.Wait? ==> mcp.address == "" || !secret.Complete?
      ensures mcp.address == "" ==> r.Wait?
    {
      ghost var was := Now();
      var readFails: bool, applyFails: bool := *, *;
      ran := ran + [6];
      if mcp.address == "" {
        pc, r := Reporting(mcp.version, Waiting(6)), Wait;
      } else if readFails {
        pc, r := Reporting(mcp.version, Failed(6)), Error;
      } else if !secret.Complete? {
        pc, r := Reporting(mcp.version, Waiting(6)), Wait;
      } else if applyFails {
        pc, r := Reporting(mcp.version, Failed(6)), Error;
      } else {
        children := children.(kubeconfig := Some(mcp.address));
        pc, r := Fetching(mcp.version, 6, SetSecretRef(Names.KubeconfigSecret(name)), 0), Continue;
      }
      Take(Admin(readFails, applyFails), was);
    }

    // -------------------------------------------------------------- the pass

    /**
      Update of the whole object: compare-and-swap on the version that was read. It fails for reasons of its own
      (`failed`), on a gone object and on an old version, and in no other case; the last finalizer takes the object
      along.
     */
    method Update(mcp: Local) returns (r: Result, ghost failed: bool)
      requires Valid() && pc == Deciding(mcp.version) && mcp.version < |history|
      requires var m := history[mcp.version]; m.finalizer == m.deleting && mcp.Value() == m.(finalizer := !m.deleting)
      modifies this
      ensures Since(old(trace), 0)
      ensures Valid() && pc.Idle? && (r.Continue? || r.Error?)
      ensures children == old(children) && completed == old(completed)
      ensures r.Error? <==> failed || old(gone) || mcp.version != |old(history)| - 1
      ensures !r.Continue? ==> history == old(history) && gone == old(gone)
      ensures r.Continue? ==>
                if mcp.deleting && !mcp.finalizer && !mcp.others then gone && history == old(history)
                else !gone && history == old(history) + [old(mcp.Value())]
    {
      ghost var was := Now();
      var fails: bool := *;
      failed := fails;
      r := if fails || gone || mcp.version != |history| - 1 then Error else Continue;
      pc := Idle;
      if r.Continue? {
        StoreMeta(mcp.Value());
      }
      Take(Decide(fails), was);
    }

    /** Get: any version of the object, or nothing. */
    method Get() returns (mcp: Local?)
      requires Valid() && pc.Idle?
      modifies this`pc, this`trace
      ensures Since(old(trace), 0)
      ensures Valid()
      ensures if mcp == null then pc.Idle? else fresh(mcp) && AtVersion(mcp) && pc == Deciding(mcp.version)
    {
      ghost var was := Now();
      if * {
        Take(ReadNothing, was);
        return null;
      }
      var at: nat :| at < |history|;
      mcp := new Local(at, history[at]);
      pc := Deciding(at);
      Take(Read(at), was);
    }

    /** What a pass over version m of the object may end with. */
    static predicate Fits(m: Mcp, r: Result, o: Option<Outcome>) {
      && (o.Some? <==> m.finalizer && !m.deleting)
      && match o
         case Some(AllReady) => r.Continue?
         case Some(Waiting(_)) => r.Wait?
         case Some(Failed(_)) => r.Error?
         case None => r.Error? || r == if m.deleting then Continue else Requeue
    }

    /**
      One pass: a run of the protocol. `at` is the version it read, if any. If it reports an outcome, it has run exactly
      the components up to the one that stopped it; if it reports none, it has applied nothing.
     */
    method Reconcile()
      returns (r: Result, ghost at: Option<nat>, ghost reported: Option<Outcome>, ghost failed: bool)
      requires Valid() && pc.Idle?
      modifies this
      ensures old(trace) <= trace
      ensures Valid() && pc.Idle?
      ensures at.None? ==> reported.None? && history == old(history) && (r.Continue? || r.Error?)
      ensures at.Some? ==> at.value < |old(history)| && Fits(old(history)[at.value], r, reported)
      ensures match reported
              case None => children == old(children)
              case Some(o) => Proper(o) && ran == Prefix(if o.AllReady? then 7 else o.i + 1)
      ensures completed == old(completed) + if reported == Some(AllReady) then 1 else 0
      // the finalizer of the version m that was read
      ensures at.Some? ==>
                var m := old(history)[at.value];
                && (m.deleting && !m.finalizer ==> r.Continue?)
                && (m.deleting && m.finalizer && r.Continue? ==>
                      if m.others then !gone && history[|history| - 1] == m.(finalizer := false) else gone)
                && (!m.deleting && !m.finalizer && r.Requeue? ==>
                      !gone && history[|history| - 1] == m.(finalizer := true))
                && (m.deleting == m.finalizer && r.Error? ==> failed || gone || at.value != |history| - 1)
    {
      reported, failed := None, false;
      var mcp := Get();
      if mcp == null {
        if * { return Continue, None, None, false; }
        return Error, None, None, false;
      }
      at := Some(mcp.version);
      Others();
      if mcp.deleting || !mcp.finalizer {
        r, failed := ReconcileFinalizer(mcp);
        return;
      }
      r, reported := Components(mcp);
    }

    /** The finalizer first: taken from an object being deleted, put on any other. */
    method ReconcileFinalizer(mcp: Local) returns (r: Result, ghost failed: bool)
      requires Valid() && AtVersion(mcp) && pc == Deciding(mcp.version) && (mcp.deleting || !mcp.finalizer)
      modifies this, mcp
      ensures old(trace) <= trace
      ensures Valid() && pc.Idle? && Extends(old(history))
      ensures children == old(children) && completed == old(completed)
      ensures var m := old(mcp.Value());
              && Fits(m, r, None)
              && (m.deleting && !m.finalizer ==> r.Continue?)
              && (m.deleting && m.finalizer && r.Continue? ==>
                    if m.others then !gone && history[|history| - 1] == m.(finalizer := false) else gone)
              && (!m.deleting && !m.finalizer && r.Requeue? ==>
                    !gone && history[|history| - 1] == m.(finalizer := true))
              && (m.deleting == m.finalizer && r.Error? ==> failed || gone || mcp.version != |history| - 1)
    {
      if mcp.deleting {
        if !mcp.finalizer {
          LeaveDeleted(mcp);
          return Continue, false;
        }
        mcp.finalizer := false;
        r, failed := Update(mcp);
        return;
      }
      mcp.finalizer := true;
      r, failed := Update(mcp);
      return if r.Continue? then Requeue else r, failed;
    }

    method LeaveDeleted(mcp: Local)
      requires Valid() && AtVersion(mcp) && pc == Deciding(mcp.version) && mcp.deleting && !mcp.finalizer
      modifies this`pc, this`trace
      ensures Since(old(trace), 0)
      ensures Valid() && pc.Idle?
    {
      ghost var was := Now();
      pc := Idle;
      Take(Decide(false), was);
    }

    method Begin(mcp: Local)
      requires Valid() && AtVersion(mcp) && pc == Deciding(mcp.version) && !mcp.deleting && mcp.finalizer
      modifies this`pc, this`ran, this`trace
      ensures Since(old(trace), 0)
      ensures Valid() && pc == Component(mcp.version, 0)
    {
      ghost var was := Now();
      pc, ran := Component(mcp.version, 0), [];
      Take(Decide(false), was);
    }

    method ReconcileComponent(mcp: Local, i: nat) returns (r: Result)
      requires Valid() && AtVersion(mcp) && i < 7 && pc == Component(mcp.version, i)
      modifies this`history, this`gone, this`published, this`secret, this`pc, this`trace, this`children, this`ran
      ensures Since(old(trace), ATTEMPTS)
      ensures Valid() && AtVersion(mcp) && Extends(old(history)) && Left(mcp, i, r)
    {
      Others();
      match i {
        case 0 =>
          ghost var answer;
          r, answer := ReconcileService(mcp);
        case 6 => r := ReconcileAdminConfig(mcp);
        case _ => r := ApplyComponent(mcp, i);
      }
    }

    /** The components in order, up to the first that fails or waits. */
    method Loop(mcp: Local) returns (r: Result, i: nat)
      requires Valid() && AtVersion(mcp) && pc == Component(mcp.version, 0)
      modifies this`history, this`gone, this`published, this`secret, this`pc, this`trace, this`children, this`ran
      ensures old(trace) <= trace
      ensures Valid() && AtVersion(mcp) && Extends(old(history))
      ensures if i == 7 then r.Continue? && pc == Reporting(mcp.version, AllReady)
              else i < 7 && !r.Continue? && Left(mcp, i, r)
    {
      r, i := Continue, 0;
      while i < 7
        invariant Valid() && AtVersion(mcp) && Extends(old(history)) && r.Continue? && old(trace) <= trace
        invariant i <= 7 && pc == if i < 7 then Component(mcp.version, i) else Reporting(mcp.version, AllReady)
      {
        r := ReconcileComponent(mcp, i);
        if !r.Continue? {
          return;
        }
        i := i + 1;
      }
    }

    /** The component loop and the status at its end. */
    method Components(mcp: Local) returns (r: Result, ghost reported: Option<Outcome>)
      requires Valid() && AtVersion(mcp) && pc == Deciding(mcp.version) && !mcp.deleting && mcp.finalizer
      modifies this, mcp
      ensures old(trace) <= trace
      ensures Valid() && pc.Idle?
      ensures reported.Some? && Fits(old(mcp.Value()), r, reported) && Proper(reported.value)
      ensures ran == Prefix(if reported.value.AllReady? then 7 else reported.value.i + 1)
      ensures completed == old(completed) + if reported == Some(AllReady) then 1 else 0
    {
      Begin(mcp);
      var i: nat;
      r, i := Loop(mcp);
      Others();
      var o := if i == 7 then AllReady else if r.Error? then Failed(i) else Waiting(i);
      Known();
      var sent := SetStatus(mcp, o);
      reported := Some(o);
    }
  }
}
