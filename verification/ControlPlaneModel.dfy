/**
  The reconcile protocol of one ManagedControlPlane as a transition system: one pass at a time of the operator, call by
  call, interleaved with users, the load balancer and the certificate manager.

  The API server keeps every version of the object; the resource version of a read is its position in that history. A
  cached read may return any version. `Update` succeeds only on the current version, `Patch` carries no version.
 */
module ControlPlaneModel {
  import opened Optional
  import opened Status
  import Names

  /** What of the object matters here; `others` says whether other finalizers than the operator's are set. */
  datatype Mcp = Mcp(generation: nat, deleting: bool, finalizer: bool, others: bool, status: Status)

  /** The objects applied for each component; the generated ones carry the address they were built for. */
  datatype Children = Children(
    service: bool, pki: Option<string>, etcd: bool, apiserver: Option<string>,
    controllerManager: bool, scheduler: bool, kubeconfig: Option<string>)

  const NO_CHILDREN := Children(false, None, false, None, false, false, None)

  /** The admin client secret that the certificate manager fills in. */
  datatype Secret = Missing | Incomplete | Complete

  /** A status field written under conflict retry. */
  datatype Write = SetAddress(address: string) | SetSecretRef(ref: string)

  /** Where the operator is in its pass; `v` is the version its local copy was read at. */
  datatype Pc =
    | Idle
    | Deciding(v: nat)
    | Component(v: nat, i: nat)                                    // component i ahead
    | Addressing(v: nat)                                           // service applied, its address ahead
    | Fetching(v: nat, i: nat, w: Write, attempt: nat)             // retry loop: Get ahead
    | Committing(v: nat, i: nat, w: Write, attempt: nat, at: nat)  // retry loop: Update of version `at` ahead
    | Reporting(v: nat, o: Outcome)                                // status patch ahead

  /**
    `ran` are the components started in the current or last pass, `completed` counts the passes that ran all of them.
   */
  datatype State = State(
    name: string, history: seq<Mcp>, gone: bool, pc: Pc, children: Children,
    published: seq<string>, secret: Secret, ran: seq<nat>, completed: nat)

  const ATTEMPTS := 5

  /** What the load balancer read returns; a cached one may be any address published so far. */
  datatype Answer = ServiceNotFound | ServiceError | Found(address: string)

  datatype Label =
    // the operator
    | ReadNothing
    | Read(v: nat)
    | Decide(fails: bool)
    | Apply(fails: bool)
    | Address(answer: Answer)
    | Fetch(version: Option<nat>)
    | Put(fails: bool)
    | Admin(readFails: bool, applyFails: bool)
    | Report(lost: bool, now: nat)
    // everybody else
    | ChangeSpec
    | Delete
    | Touch(finalizer: bool, others: bool)
    | Publish(address: string)
    | Certify(secret: Secret)

  predicate ByOperator(l: Label) {
    !(l.ChangeSpec? || l.Delete? || l.Touch? || l.Publish? || l.Certify?)
  }

  function Current(s: State): Mcp
    requires s.history != []
  {
    s.history[|s.history| - 1]
  }

  /** A write of the current version; writing it unchanged makes no new version. */
  function Commit(s: State, m: Mcp): State
    requires s.history != []
  {
    if m == Current(s) then s else s.(history := s.history + [m])
  }

  /** A metadata write; an object being deleted disappears with its last finalizer. */
  function CommitMeta(s: State, m: Mcp): State
    requires s.history != []
  {
    if m.deleting && !m.finalizer && !m.others then s.(gone := true) else Commit(s, m)
  }

  predicate UpToDate(s: State, v: nat) {
    !s.gone && v == |s.history| - 1
  }

  function WithField(st: Status, w: Write): Status {
    match w
    case SetAddress(a) => st.(address := a)
    case SetSecretRef(r) => st.(secretRef := r)
  }

  function AfterWrite(v: nat, i: nat): Pc {
    if i == 0 then Component(v, 1) else Reporting(v, AllReady)
  }

  function Applied(c: Children, i: nat, address: string): Children {
    match i
    case 0 => c.(service := true)
    case 1 => c.(pki := Some(address))
    case 2 => c.(etcd := true)
    case 3 => c.(apiserver := Some(address))
    case 4 => c.(controllerManager := true)
    case _ => c.(scheduler := true)
  }

  predicate Enabled(s: State, l: Label) {
    s.history != [] &&
    match l
    case ReadNothing => s.pc.Idle?
    case Read(v) => s.pc.Idle? && v < |s.history|
    case Decide(_) => s.pc.Deciding? && s.pc.v < |s.history|
    case Apply(_) => s.pc.Component? && s.pc.v < |s.history| && s.pc.i < 6
    case Address(answer) => s.pc.Addressing? && s.pc.v < |s.history| &&
                            (answer.Found? ==> answer.address in s.published)
    case Fetch(version) => s.pc.Fetching? && (version.Some? ==> version.value < |s.history|)
    case Put(_) => s.pc.Committing? && s.pc.at < |s.history|
    case Admin(_, _) => s.pc.Component? && s.pc.v < |s.history| && s.pc.i == 6
    case Report(_, _) => s.pc.Reporting? && s.pc.v < |s.history| && Proper(s.pc.o)
    case ChangeSpec => !s.gone
    case Delete => !s.gone && !Current(s).deleting
    case Touch(finalizer, others) =>
      !s.gone && (Current(s).deleting ==> (finalizer ==> Current(s).finalizer) && (others ==> Current(s).others))
    case Publish(_) => true
    case Certify(_) => true
  }

  function Step(s: State, l: Label): State
    requires Enabled(s, l)
  {
    match l
    case ReadNothing => s
    case Read(v) => s.(pc := Deciding(v))
    case Decide(fails) => DecideStep(s, fails)
    case Apply(fails) =>
      var v, i := s.pc.v, s.pc.i;
      var t := s.(ran := s.ran + [i]);
      if fails then t.(pc := Reporting(v, Failed(i)))
      else t.(children := Applied(s.children, i, s.history[v].status.address),
              pc := if i == 0 then Addressing(v) else Component(v, i + 1))
    case Address(answer) =>
      var v := s.pc.v;
      s.(pc := match answer
               case ServiceNotFound => Component(v, 1)
               case ServiceError => Reporting(v, Failed(0))
               case Found(a) =>
                 if a == "" then Reporting(v, Waiting(0))
                 else if s.history[v].status.address == a then Component(v, 1)
                 else Fetching(v, 0, SetAddress(a), 0))
    case Fetch(version) =>
      s.(pc := match version
               case None => Reporting(s.pc.v, Failed(s.pc.i))
               case Some(at) => Committing(s.pc.v, s.pc.i, s.pc.w, s.pc.attempt, at))
    case Put(fails) => PutStep(s, fails)
    case Admin(readFails, applyFails) => AdminStep(s, readFails, applyFails)
    case Report(lost, now) => ReportStep(s, lost, now)
    case ChangeSpec => Commit(s, Current(s).(generation := Current(s).generation + 1))
    case Delete => CommitMeta(s, Current(s).(deleting := true, generation := Current(s).generation + 1))
    case Touch(finalizer, others) => CommitMeta(s, Current(s).(finalizer := finalizer, others := others))
    case Publish(address) => s.(published := s.published + [address])
    case Certify(secret) => s.(secret := secret)
  }

  /** The head of Reconcile: finish a deletion, add the finalizer, or go on to the components. */
  function DecideStep(s: State, fails: bool): State
    requires Enabled(s, Decide(fails))
  {
    var v := s.pc.v;
    var m := s.history[v];
    var idle := s.(pc := Idle);
    if m.deleting && !m.finalizer then idle
    else if m.deleting then
      if fails || !UpToDate(s, v) then idle else CommitMeta(idle, m.(finalizer := false))
    else if !m.finalizer then
      if fails || !UpToDate(s, v) then idle else CommitMeta(idle, m.(finalizer := true))
    else s.(pc := Component(v, 0), ran := [])
  }

  /** One attempt of RetryOnConflict around a status update. */
  function PutStep(s: State, fails: bool): State
    requires Enabled(s, Put(fails))
  {
    var Committing(v, i, w, attempt, at) := s.pc;
    if fails || s.gone then s.(pc := Reporting(v, Failed(i)))
    else if !UpToDate(s, at) then
      s.(pc := if attempt + 1 < ATTEMPTS then Fetching(v, i, w, attempt + 1) else Reporting(v, Failed(i)))
    else
      var m := s.history[at];
      Commit(s.(pc := AfterWrite(v, i)), m.(status := WithField(m.status, w)))
  }

  /** reconcileAdminConfig up to the status write. */
  function AdminStep(s: State, readFails: bool, applyFails: bool): State
    requires Enabled(s, Admin(readFails, applyFails))
  {
    var v := s.pc.v;
    var a := s.history[v].status.address;
    var t := s.(ran := s.ran + [6]);
    if a == "" then t.(pc := Reporting(v, Waiting(6)))
    else if readFails then t.(pc := Reporting(v, Failed(6)))
    else if !s.secret.Complete? then t.(pc := Reporting(v, Waiting(6)))
    else if applyFails then t.(pc := Reporting(v, Failed(6)))
    else t.(children := s.children.(kubeconfig := Some(a)),
            pc := Fetching(v, 6, SetSecretRef(Names.KubeconfigSecret(s.name)), 0))
  }

  /** setStatus: the local copy is the version read, the patch meets the current one; its error is ignored. */
  function ReportStep(s: State, lost: bool, now: nat): State
    requires Enabled(s, Report(lost, now))
  {
    var m := s.history[s.pc.v];
    var t := s.(pc := Idle, completed := s.completed + if s.pc.o.AllReady? then 1 else 0);
    if lost || s.gone then t
    else
      var c := Current(s);
      Commit(t, c.(status := Merge(c.status, m.status, SetOutcome(m.status, m.generation, s.pc.o, now))))
  }

  function Run(s: State, labels: seq<Label>): Option<State>
    decreases |labels|
  {
    if labels == [] then Some(s)
    else if Enabled(s, labels[0]) then Run(Step(s, labels[0]), labels[1..])
    else None
  }

  lemma {:induction false} RunOn(s: State, labels: seq<Label>, m: State, l: Label)
    requires Run(s, labels) == Some(m) && Enabled(m, l)
    ensures Run(s, labels + [l]) == Some(Step(m, l))
    decreases |labels|
  {
    if labels == [] {
      assert [l][1..] == [] && labels + [l] == [l];
    } else {
      RunOn(Step(s, labels[0]), labels[1..], m, l);
      assert (labels + [l])[1..] == labels[1..] + [l];
    }
  }

  /** A newly created object. */
  function Init(name: string, others: bool): State {
    State(name, [Mcp(1, false, false, others, EMPTY_STATUS)], false, Idle, NO_CHILDREN, [""], Missing, [], 0)
  }
}
