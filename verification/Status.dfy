/**
  The status of a ManagedControlPlane and how setStatus writes it: the local copy is changed, and the difference to its
  earlier self is sent as a merge patch, which carries no resource version.
 */
module Status {
  import opened Optional
  import opened MergePatch

  datatype Condition = Condition(kind: string, status: string, reason: string, message: string, observed: nat,
                                 since: nat)

  datatype Status = Status(ready: Option<bool>, message: string, conditions: seq<Condition>, address: string,
                           secretRef: string)

  const EMPTY_STATUS := Status(None, "", [], "", "")
  const CONDITION_READY := "Ready"

  /** How a pass ends: all seven components done, or stopped waiting or failed at the component with this number. */
  datatype Outcome = AllReady | Waiting(i: nat) | Failed(i: nat)

  /** What a component's messages call it. */
  function Subject(i: nat): string
    requires i < 7
  {
    match i
    case 0 => "API Server service IP address"
    case 1 => "PKI"
    case 2 => "ETCD"
    case 3 => "API Server"
    case 4 => "Controller Manager"
    case 5 => "Scheduler"
    case 6 => "admin kubeconfig"
  }

  function Awaited(i: nat): string
    requires i < 7
  {
    if i == 0 then "API Server IP address" else Subject(i)
  }

  predicate Proper(o: Outcome) {
    o.AllReady? || o.i < 7
  }

  function Message(o: Outcome): string
    requires Proper(o)
  {
    match o
    case AllReady => "All resources are Ready"
    case Waiting(i) => "Waiting for " + Awaited(i)
    case Failed(i) => "Failed to reconcile " + Subject(i)
  }

  function Reason(o: Outcome): string {
    match o
    case AllReady => "AllResourcesReady"
    case Waiting(_) => "WaitingForResources"
    case Failed(_) => "ComponentFailed"
  }

  function ReadyCondition(o: Outcome, generation: nat): Condition
    requires Proper(o)
  {
    Condition(CONDITION_READY, if o.AllReady? then "True" else "False", Reason(o), Message(o), generation, 0)
  }

  /**
    meta.SetStatusCondition: the first condition of the kind is overwritten, keeping its time unless its status changes.
   */
  function SetCondition(cs: seq<Condition>, c: Condition, now: nat): seq<Condition> {
    if cs == [] then [c.(since := now)]
    else if cs[0].kind == c.kind then [c.(since := if cs[0].status == c.status then cs[0].since else now)] + cs[1..]
    else [cs[0]] + SetCondition(cs[1..], c, now)
  }

  /** meta.FindStatusCondition. */
  function FindCondition(cs: seq<Condition>, kind: string): Option<Condition> {
    if cs == [] then None
    else if cs[0].kind == kind then Some(cs[0])
    else FindCondition(cs[1..], kind)
  }

  /** The local copy after setStatus has changed it. */
  function SetOutcome(s: Status, generation: nat, o: Outcome, now: nat): Status
    requires Proper(o)
  {
    s.(ready := Some(o.AllReady?), message := Message(o),
       conditions := SetCondition(s.conditions, ReadyCondition(o, generation), now))
  }

  // ---------------------------------------------------------------- the document that is patched

  function EncodeCondition(c: Condition): Json {
    Object(map["type" := Text(c.kind), "status" := Text(c.status), "reason" := Text(c.reason),
               "message" := Text(c.message),
               "observedGeneration" := Number(c.observed), "lastTransitionTime" := Number(c.since)])
  }

  /** Empty `conditions` and `address` are left out; `ready` and `message` never are, an unset `ready` being null. */
  function Encode(s: Status): map<string, Json> {
    (if s.conditions == [] then map[] else map["conditions" := Array(EncodeConditions(s.conditions))])
    + (if s.address == "" then map[] else map["address" := Text(s.address)])
    + map["message" := Text(s.message),
          "ready" := if s.ready.Some? then Bool(s.ready.value) else Null,
          "adminKubeconfigSecretRef" := Object(map["name" := Text(s.secretRef)])]
  }

  function EncodeConditions(cs: seq<Condition>): seq<Json> {
    seq(|cs|, i requires 0 <= i < |cs| => EncodeCondition(cs[i]))
  }

  /** Field by field: what the writer changed is the writer's, the rest is the store's. */
  function Merge(store: Status, before: Status, after: Status): Status {
    Status(if before.ready == after.ready then store.ready else after.ready,
           if before.message == after.message then store.message else after.message,
           if before.conditions == after.conditions then store.conditions else after.conditions,
           if before.address == after.address then store.address else after.address,
           store.secretRef)
  }

  lemma EncodeConditionsInjective(a: Status, b: Status)
    ensures SameAt(Encode(a), Encode(b), "conditions") <==> a.conditions == b.conditions
  {
    if SameAt(Encode(a), Encode(b), "conditions") && a.conditions != [] {
      var x, y := Encode(a)["conditions"].items, Encode(b)["conditions"].items;
      assert x == y;
      forall i | 0 <= i < |a.conditions|
        ensures a.conditions[i] == b.conditions[i]
      {
        assert x[i] == EncodeCondition(a.conditions[i]) && y[i] == EncodeCondition(b.conditions[i]);
        EncodeConditionInjective(a.conditions[i], b.conditions[i]);
      }
    }
  }

  lemma EncodeConditionInjective(c: Condition, d: Condition)
    requires EncodeCondition(c) == EncodeCondition(d)
    ensures c == d
  {
    var x, y := EncodeCondition(c).fields, EncodeCondition(d).fields;
    assert x["type"] == y["type"] && x["status"] == y["status"] && x["reason"] == y["reason"];
    assert x["message"] == y["message"] && x["observedGeneration"] == y["observedGeneration"];
    assert x["lastTransitionTime"] == y["lastTransitionTime"];
  }

  /** A changed member that is not an object is overwritten, or removed, whatever it meets. */
  lemma ChangedMember(c: map<string, Json>, a: map<string, Json>, b: map<string, Json>, k: string)
    requires !SameAt(a, b, k) && (k in b ==> !b[k].Object? && !b[k].Null?)
    ensures SameAt(MergePatch.Patched(c, a, b), b, k)
  {
    var p := Create(a, b);
    assert Changed(a, b, k);
    if k in b {
      assert p[k] == b[k];
      assert Apply(if k in c then c[k] else Null, b[k]) == b[k];
    } else {
      assert p[k] == Null;
    }
  }

  lemma ScalarMember(c: Status, a: Status, b: Status, k: string, same: bool)
    requires k in Encode(b) ==> !Encode(b)[k].Object? && !Encode(b)[k].Null?
    requires same <==> SameAt(Encode(a), Encode(b), k)
    ensures SameAt(MergePatch.Patched(Encode(c), Encode(a), Encode(b)), if same then Encode(c) else Encode(b), k)
  {
    if same {
      UnchangedMember(Encode(c), Encode(a), Encode(b), k);
    } else {
      ChangedMember(Encode(c), Encode(a), Encode(b), k);
    }
  }

  lemma PatchedMember(c: Status, a: Status, b: Status, k: string)
    requires b.ready.Some? && a.secretRef == b.secretRef
    ensures SameAt(MergePatch.Patched(Encode(c), Encode(a), Encode(b)), Encode(Merge(c, a, b)), k)
  {
    if k == "ready" {
      ReadyMember(c, a, b);
    } else if k == "message" {
      MessageMember(c, a, b);
    } else if k == "conditions" {
      ConditionsMember(c, a, b);
    } else if k == "address" {
      AddressMember(c, a, b);
    } else {
      OtherMember(c, a, b, k);
    }
  }

  lemma OtherMember(c: Status, a: Status, b: Status, k: string)
    requires k !in ["ready", "message", "conditions", "address"] && a.secretRef == b.secretRef
    ensures SameAt(MergePatch.Patched(Encode(c), Encode(a), Encode(b)), Encode(Merge(c, a, b)), k)
  {
    assert SameAt(Encode(a), Encode(b), k) by { OtherKey(a, k); OtherKey(b, k); }
    UnchangedMember(Encode(c), Encode(a), Encode(b), k);
    OtherKey(c, k);
    OtherKey(Merge(c, a, b), k);
  }

  lemma OtherKey(s: Status, k: string)
    requires k !in ["ready", "message", "conditions", "address"]
    ensures k in Encode(s) <==> k == "adminKubeconfigSecretRef"
    ensures k in Encode(s) ==> Encode(s)[k] == Object(map["name" := Text(s.secretRef)])
  {
  }

  lemma ReadyMember(c: Status, a: Status, b: Status)
    requires b.ready.Some?
    ensures SameAt(MergePatch.Patched(Encode(c), Encode(a), Encode(b)), Encode(Merge(c, a, b)), "ready")
  {
    ScalarMember(c, a, b, "ready", a.ready == b.ready);
  }

  lemma MessageMember(c: Status, a: Status, b: Status)
    ensures SameAt(MergePatch.Patched(Encode(c), Encode(a), Encode(b)), Encode(Merge(c, a, b)), "message")
  {
    ScalarMember(c, a, b, "message", a.message == b.message);
  }

  lemma AddressMember(c: Status, a: Status, b: Status)
    ensures SameAt(MergePatch.Patched(Encode(c), Encode(a), Encode(b)), Encode(Merge(c, a, b)), "address")
  {
    ScalarMember(c, a, b, "address", a.address == b.address);
  }

  lemma ConditionsMember(c: Status, a: Status, b: Status)
    requires b.ready.Some?
    ensures SameAt(MergePatch.Patched(Encode(c), Encode(a), Encode(b)), Encode(Merge(c, a, b)), "conditions")
  {
    EncodeConditionsInjective(a, b);
    ScalarMember(c, a, b, "conditions", a.conditions == b.conditions);
    SameConditions(if a.conditions == b.conditions then c else b, Merge(c, a, b));
  }

  lemma SameConditions(x: Status, y: Status)
    requires x.conditions == y.conditions
    ensures SameAt(Encode(x), Encode(y), "conditions")
  {
  }

  /** The merge patch of setStatus, met by any stored status, is the field-by-field merge. */
  lemma PatchIsMerge(c: Status, a: Status, b: Status)
    requires b.ready.Some? && a.secretRef == b.secretRef
    ensures MergePatch.Patched(Encode(c), Encode(a), Encode(b)) == Encode(Merge(c, a, b))
  {
    var r, m := MergePatch.Patched(Encode(c), Encode(a), Encode(b)), Encode(Merge(c, a, b));
    SameEverywhere(r, m) by {
      forall k
        ensures SameAt(r, m, k)
      {
        PatchedMember(c, a, b, k);
      }
    }
  }

  lemma SameEverywhere(r: map<string, Json>, m: map<string, Json>)
    requires forall k :: SameAt(r, m, k)
    ensures r == m
  {
    forall k
      ensures k in r <==> k in m
      ensures k in r ==> r[k] == m[k]
    {
      assert SameAt(r, m, k);
    }
  }

  // ---------------------------------------------------------------- what a status patch leaves

  /** Ready, Message and the Ready condition tell the same story. */
  ghost predicate Consistent(s: Status) {
    var c := FindCondition(s.conditions, CONDITION_READY);
    && s.ready.Some? && c.Some?
    && (c.value.status == "True" <==> s.ready.value)
    && c.value.message == s.message
  }

  /** The three fields setStatus writes. */
  ghost predicate SameTriple(s: Status, t: Status) {
    s.ready == t.ready && s.message == t.message && s.conditions == t.conditions
  }

  lemma {:induction false} FindAfterSet(cs: seq<Condition>, c: Condition, now: nat)
    ensures FindCondition(SetCondition(cs, c, now), c.kind).Some?
    ensures var f := FindCondition(SetCondition(cs, c, now), c.kind).value; f.(since := c.since) == c
  {
    if cs != [] && cs[0].kind != c.kind {
      FindAfterSet(cs[1..], c, now);
      assert SetCondition(cs, c, now)[1..] == SetCondition(cs[1..], c, now);
    }
  }

  /**
    The condition of the kind is then the given one, with the time it had if its status was the same and the present
    one otherwise; the conditions of other kinds stay.
   */
  lemma {:induction false} ConditionAfterSet(cs: seq<Condition>, c: Condition, now: nat, kind: string)
    ensures var before, after := FindCondition(cs, kind), FindCondition(SetCondition(cs, c, now), kind);
            after == if kind != c.kind then before
                     else if before.Some? && before.value.status == c.status then Some(c.(since := before.value.since))
                     else Some(c.(since := now))
  {
    if cs != [] && cs[0].kind != c.kind {
      ConditionAfterSet(cs[1..], c, now, kind);
      assert SetCondition(cs, c, now)[1..] == SetCondition(cs[1..], c, now);
    }
  }

  /** Setting a condition again, at any later time, changes nothing. */
  lemma {:induction false} SetTwice(cs: seq<Condition>, c: Condition, now: nat, later: nat)
    ensures SetCondition(SetCondition(cs, c, now), c, later) == SetCondition(cs, c, now)
  {
    if cs != [] && cs[0].kind != c.kind {
      SetTwice(cs[1..], c, now, later);
      assert SetCondition(cs, c, now)[1..] == SetCondition(cs[1..], c, now);
    }
  }

  lemma LocallyConsistent(a: Status, generation: nat, o: Outcome, now: nat)
    requires Proper(o)
    ensures Consistent(SetOutcome(a, generation, o, now))
    ensures var b := SetOutcome(a, generation, o, now);
            var c := FindCondition(b.conditions, "Ready").value;
            && b.ready == Some(o == AllReady) && b.message == Message(o)
            && c.status == (if o == AllReady then "True" else "False") && c.observed == generation
            && c.reason == (if o == AllReady then "AllResourcesReady"
                            else if o.Waiting? then "WaitingForResources" else "ComponentFailed")
            && b.address == a.address && b.secretRef == a.secretRef
  {
    FindAfterSet(a.conditions, ReadyCondition(o, generation), now);
  }

  /**
    The patch never touches the address or the secret reference, whoever wrote them and whatever the local copy holds.
   */
  lemma PatchKeepsOthersWrites(c: Status, a: Status, generation: nat, o: Outcome, now: nat)
    requires Proper(o)
    ensures var m := Merge(c, a, SetOutcome(a, generation, o, now));
            m.address == c.address && m.secretRef == c.secretRef
    ensures MergePatch.Patched(Encode(c), Encode(a), Encode(SetOutcome(a, generation, o, now))) ==
            Encode(Merge(c, a, SetOutcome(a, generation, o, now)))
  {
    PatchIsMerge(c, a, SetOutcome(a, generation, o, now));
  }

  /**
    When a status patch does what it is meant to. The stored triple becomes the local one exactly when the store already
    holds every value the local copy held before and keeps; in particular when local copy and store agree, and then the
    result is consistent and sending it again changes nothing.
   */
  lemma PatchReachesTarget(c: Status, a: Status, generation: nat, o: Outcome, now: nat)
    requires Proper(o)
    ensures var b := SetOutcome(a, generation, o, now);
            SameTriple(Merge(c, a, b), b) <==>
              && (a.ready == b.ready ==> c.ready == b.ready)
              && (a.message == b.message ==> c.message == b.message)
              && (a.conditions == b.conditions ==> c.conditions == b.conditions)
  {
  }

  lemma PatchOfAgreedCopy(c: Status, a: Status, generation: nat, o: Outcome, now: nat, later: nat)
    requires Proper(o) && SameTriple(c, a)
    ensures var b := SetOutcome(a, generation, o, now);
            var m := Merge(c, a, b);
            && SameTriple(m, b) && Consistent(m)
            && Merge(m, b, SetOutcome(b, generation, o, later)) == m
  {
    PatchReachesTarget(c, a, generation, o, now);
    LocallyConsistent(a, generation, o, now);
    SetTwice(a.conditions, ReadyCondition(o, generation), now, later);
  }

  lemma SubjectLengths(i: nat)
    requires i < 7
    ensures |Subject(i)| == [29, 3, 4, 10, 18, 9, 16][i] && |Awaited(i)| == [21, 3, 4, 10, 18, 9, 16][i]
  {
  }

  lemma FirstLetter(o: Outcome)
    requires Proper(o)
    ensures Message(o) != []
    ensures Message(o)[0] == match o case AllReady => 'A' case Waiting(_) => 'W' case Failed(_) => 'F'
  {
  }

  /** The message of a pass tells which component stopped it, and how. */
  lemma MessageIdentifies(o: Outcome, p: Outcome)
    requires Proper(o) && Proper(p)
    ensures Message(o) == Message(p) <==> o == p
  {
    FirstLetter(o);
    FirstLetter(p);
    if !o.AllReady? && !p.AllReady? {
      SubjectLengths(o.i);
      SubjectLengths(p.i);
    }
  }

  // ---------------------------------------------------------------- when a status patch leaves the three consistent

  /** Nothing has been reported yet. */
  ghost predicate Blank(s: Status) {
    s.ready.None? && s.message == "" && FindCondition(s.conditions, CONDITION_READY).None?
  }

  /** The three fields tell one outcome, reported at this generation. */
  ghost predicate Tells(s: Status, o: Outcome, generation: nat) {
    var c := FindCondition(s.conditions, CONDITION_READY);
    && Proper(o) && s.ready == Some(o.AllReady?) && s.message == Message(o)
    && c.Some? && c.value.(since := 0) == ReadyCondition(o, generation)
  }

  /** The transition time of a status that tells an outcome moves exactly when Ready changes. */
  lemma TransitionTime(a: Status, oa: Outcome, ga: nat, generation: nat, o: Outcome, now: nat)
    requires Tells(a, oa, ga) && Proper(o)
    ensures var before := FindCondition(a.conditions, CONDITION_READY);
            var after := FindCondition(SetOutcome(a, generation, o, now).conditions, CONDITION_READY);
            && before.Some? && after.Some?
            && after.value.since == if oa.AllReady? == o.AllReady? then before.value.since else now
  {
    ConditionAfterSet(a.conditions, ReadyCondition(o, generation), now, CONDITION_READY);
  }

  /** The reason tells whether all is ready, something is awaited, or something failed; the message tells what. */
  lemma ReasonTellsKind(o: Outcome, p: Outcome)
    ensures Reason(o) == Reason(p) <==> o.AllReady? == p.AllReady? && o.Waiting? == p.Waiting?
  {
    assert Reason(AllReady)[0] == 'A' && Reason(Waiting(0))[0] == 'W' && Reason(Failed(0))[0] == 'C';
  }

  /** SetCondition changes nothing exactly if the first condition of the kind is the given one, whenever it was set. */
  lemma {:induction false} SetUnchanged(cs: seq<Condition>, c: Condition, now: nat)
    ensures SetCondition(cs, c, now) == cs <==>
            FindCondition(cs, c.kind).Some? && FindCondition(cs, c.kind).value.(since := c.since) == c
  {
    if cs != [] {
      var set1 := SetCondition(cs, c, now);
      if cs[0].kind == c.kind {
        assert set1[0] == cs[0] ==> set1 == cs;
      } else {
        SetUnchanged(cs[1..], c, now);
        assert set1[1..] == SetCondition(cs[1..], c, now);
        assert cs == [cs[0]] + cs[1..];
      }
    }
  }

  /**
    What the patch does to a store that tells (oc, gc) from a copy that tells (oa, ga): each field moves if it differs.
   */
  lemma PatchedTriple(c: Status, a: Status, oa: Outcome, ga: nat, generation: nat, o: Outcome, now: nat)
    requires Tells(a, oa, ga) && Proper(o)
    ensures var b := SetOutcome(a, generation, o, now);
            var m := Merge(c, a, b);
            && m.ready == (if oa.AllReady? == o.AllReady? then c.ready else Some(o.AllReady?))
            && m.message == (if oa == o then c.message else Message(o))
            && m.conditions == (if oa == o && ga == generation then c.conditions else b.conditions)
  {
    var new1 := ReadyCondition(o, generation);
    SetUnchanged(a.conditions, new1, now);
    MessageIdentifies(oa, o);
  }

  /**
    The exact condition. With a store that tells (oc, gc) and a local copy that tells (oa, ga), reporting o at a
    generation leaves the three fields consistent if and only if nothing changes, or the same outcome is reported over
    itself, or the outcome is a new one and Ready is either written, too, or not true in the store.
   */
  lemma PatchConsistentExactly(c: Status, oc: Outcome, gc: nat, a: Status, oa: Outcome, ga: nat,
                               generation: nat, o: Outcome, now: nat)
    requires Tells(c, oc, gc) && Tells(a, oa, ga) && Proper(o)
    ensures Consistent(Merge(c, a, SetOutcome(a, generation, o, now))) <==>
            || (oa == o && ga == generation)
            || (oa == o && oc == o)
            || (oa != o && (oa.AllReady? || o.AllReady? || !oc.AllReady?))
  {
    var b := SetOutcome(a, generation, o, now);
    PatchedTriple(c, a, oa, ga, generation, o, now);
    FindAfterSet(a.conditions, ReadyCondition(o, generation), now);
    MessageIdentifies(oc, o);
  }

  /** From a copy without a report all three fields are written, whatever the store holds. */
  lemma BlankCopyConsistent(c: Status, a: Status, generation: nat, o: Outcome, now: nat)
    requires Blank(a) && Proper(o)
    ensures Tells(Merge(c, a, SetOutcome(a, generation, o, now)), o, generation)
  {
    FindAfterSet(a.conditions, ReadyCondition(o, generation), now);
    SetUnchanged(a.conditions, ReadyCondition(o, generation), now);
    FirstLetter(o);
  }

  /** Over a store without a report, a copy with one: only a change of Ready writes all three. */
  lemma BlankStoreExactly(c: Status, a: Status, oa: Outcome, ga: nat, generation: nat, o: Outcome, now: nat)
    requires Blank(c) && Tells(a, oa, ga) && Proper(o)
    ensures Consistent(Merge(c, a, SetOutcome(a, generation, o, now))) <==> oa.AllReady? != o.AllReady?
  {
    PatchedTriple(c, a, oa, ga, generation, o, now);
    FindAfterSet(a.conditions, ReadyCondition(o, generation), now);
  }
}
