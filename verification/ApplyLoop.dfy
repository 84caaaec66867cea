/**
  Server-side apply of a list of objects, and the loop that stops at the first object that cannot be applied. A stored
  object is its leaf fields, each with its value and the field managers that own it.
 */
module ApplyLoop {
  import opened Optional

  datatype Key = Key(kind: string, namespace: string, name: string)

  datatype Entry = Entry(value: string, owners: set<string>)

  type Store = map<Key, map<string, Entry>>

  /** What one patch sends: the object's key and the fields the manager wants. */
  datatype Intent = Intent(key: Key, fields: map<string, string>)

  const OWNER_FIELD := "metadata.ownerReferences"

  // ---------------------------------------------------------------- one patch

  /** The fields of a stored object after manager `me` has force-applied `want`. */
  function Merged(me: string, live: map<string, Entry>, want: map<string, string>): map<string, Entry> {
    map f | f in live.Keys + want.Keys && (f in want || me !in live[f].owners || live[f].owners != {me}) ::
      if f !in want then Entry(live[f].value, live[f].owners - {me})
      else if f in live && live[f].value == want[f] then Entry(want[f], live[f].owners + {me})
      else Entry(want[f], {me})
  }

  function Live(s: Store, k: Key): map<string, Entry> {
    if k in s then s[k] else map[]
  }

  function ApplyOne(me: string, s: Store, o: Intent): Store {
    s[o.key := Merged(me, Live(s, o.key), o.fields)]
  }

  function ApplyAll(me: string, s: Store, os: seq<Intent>): Store {
    if os == [] then s else ApplyOne(me, ApplyAll(me, s, os[..|os| - 1]), os[|os| - 1])
  }

  /** Without force, a field owned by somebody else with another value refuses the patch. */
  predicate Conflicts(me: string, live: map<string, Entry>, want: map<string, string>) {
    exists f :: f in want && f in live && live[f].value != want[f] && live[f].owners - {me} != {}
  }

  // ---------------------------------------------------------------- one field of one object

  /** What one patch does to a field. */
  datatype Action = Skip | Release | Set(value: string)

  function ActionOf(o: Intent, k: Key, f: string): Action {
    if o.key != k then Skip else if f in o.fields then Set(o.fields[f]) else Release
  }

  function FieldOf(s: Store, k: Key, f: string): Option<Entry> {
    if k in s && f in s[k] then Some(s[k][f]) else None
  }

  function Next(me: string, x: Option<Entry>, a: Action): Option<Entry> {
    match a
    case Skip => x
    case Set(v) => Some(if x.Some? && x.value.value == v then Entry(v, x.value.owners + {me}) else Entry(v, {me}))
    case Release =>
      if x.None? || x.value.owners == {me} then None else Some(Entry(x.value.value, x.value.owners - {me}))
  }

  lemma NextIsApply(me: string, s: Store, o: Intent, k: Key, f: string)
    ensures FieldOf(ApplyOne(me, s, o), k, f) == Next(me, FieldOf(s, k, f), ActionOf(o, k, f))
  {
  }

  /** What the other managers hold of a field. */
  function Claim(me: string, x: Option<Entry>): Option<Entry> {
    if x.Some? && x.value.owners - {me} != {} then Some(Entry(x.value.value, x.value.owners - {me})) else None
  }

  /** Nothing is set to another value than c's. */
  ghost predicate Agrees(c: Option<Entry>, os: seq<Intent>, k: Key, f: string) {
    forall i :: 0 <= i < |os| && ActionOf(os[i], k, f).Set? ==> c.Some? && ActionOf(os[i], k, f).value == c.value.value
  }

  /** The others keep their claim unless a patch sets the field to another value. */
  ghost function ClaimAfter(c: Option<Entry>, os: seq<Intent>, k: Key, f: string): Option<Entry> {
    if Agrees(c, os, k, f) then c else None
  }

  ghost predicate Sets(os: seq<Intent>, k: Key, f: string) {
    exists i :: 0 <= i < |os| && ActionOf(os[i], k, f).Set?
  }

  /** The last patch that concerns the object. */
  function LastAction(os: seq<Intent>, k: Key, f: string): Action {
    if os == [] then Skip
    else if ActionOf(os[|os| - 1], k, f) != Skip then ActionOf(os[|os| - 1], k, f)
    else LastAction(os[..|os| - 1], k, f)
  }

  function Owners(c: Option<Entry>): set<string> {
    if c.Some? then c.value.owners else {}
  }

  predicate Mine(me: string, x: Option<Entry>) {
    x.Some? && me in x.value.owners
  }

  /** A field after a list of patches, from the last patch and from what the others claim. */
  ghost function Closed(me: string, x: Option<Entry>, os: seq<Intent>, k: Key, f: string): Option<Entry> {
    var c := ClaimAfter(Claim(me, x), os, k, f);
    match LastAction(os, k, f)
    case Skip => x
    case Set(v) => Some(Entry(v, Owners(c) + {me}))
    case Release => if Sets(os, k, f) || Mine(me, x) then c else x
  }

  lemma AgreesOn(c: Option<Entry>, os: seq<Intent>, o: Intent, k: Key, f: string)
    ensures Agrees(c, os + [o], k, f) <==>
            Agrees(c, os, k, f) && (ActionOf(o, k, f).Set? ==> c.Some? && ActionOf(o, k, f).value == c.value.value)
    ensures Sets(os + [o], k, f) <==> Sets(os, k, f) || ActionOf(o, k, f).Set?
  {
    assert (os + [o])[|os|] == o;
    assert forall i :: 0 <= i < |os| ==> (os + [o])[i] == os[i];
  }

  lemma {:induction false} SkippedHasNoSet(os: seq<Intent>, k: Key, f: string)
    requires LastAction(os, k, f).Skip?
    ensures forall i :: 0 <= i < |os| ==> ActionOf(os[i], k, f).Skip?
  {
    if os != [] {
      SkippedHasNoSet(os[..|os| - 1], k, f);
    }
  }

  lemma {:induction false} LastSetAgrees(c: Option<Entry>, os: seq<Intent>, k: Key, f: string)
    requires !LastAction(os, k, f).Skip?
    ensures LastAction(os, k, f).Set? ==>
              Sets(os, k, f) && (Agrees(c, os, k, f) ==> c.Some? && c.value.value == LastAction(os, k, f).value)
  {
    var front, o := os[..|os| - 1], os[|os| - 1];
    assert front + [o] == os;
    AgreesOn(c, front, o, k, f);
    if ActionOf(o, k, f).Skip? { LastSetAgrees(c, front, k, f); }
  }

  lemma WithoutMe(me: string, owners: set<string>)
    ensures (owners - {me}) + {me} == owners + {me}
    ensures me !in owners ==> owners - {me} == owners
    ensures me in owners ==> (owners - {me} == {} <==> owners == {me})
    ensures (owners + {me}) - {me} == owners - {me}
    ensures owners == {} ==> owners + {me} == {me}
  {
  }

  lemma ClosedFromUntouched(me: string, x: Option<Entry>, os: seq<Intent>, o: Intent, k: Key, f: string)
    requires LastAction(os, k, f).Skip?
    ensures Closed(me, x, os + [o], k, f) == Next(me, x, ActionOf(o, k, f))
  {
    assert (os + [o])[..|os|] == os;
    AgreesOn(Claim(me, x), os, o, k, f);
    SkippedHasNoSet(os, k, f);
    if x.Some? { WithoutMe(me, x.value.owners); }
    WithoutMe(me, {});
  }

  lemma ClosedOn(me: string, x: Option<Entry>, os: seq<Intent>, o: Intent, k: Key, f: string)
    ensures Closed(me, x, os + [o], k, f) == Next(me, Closed(me, x, os, k, f), ActionOf(o, k, f))
  {
    var y := Closed(me, x, os, k, f);
    if LastAction(os, k, f).Skip? {
      ClosedFromUntouched(me, x, os, o, k, f);
    } else {
      assert (os + [o])[..|os|] == os;
      AgreesOn(Claim(me, x), os, o, k, f);
      LastSetAgrees(Claim(me, x), os, k, f);
      var c := ClaimAfter(Claim(me, x), os, k, f);
      WithoutMe(me, {});
      WithoutMe(me, Owners(c));
      WithoutMe(me, Owners(c) + {me});
      if x.Some? { WithoutMe(me, x.value.owners); }
    }
  }

  lemma {:induction false} FieldAfter(me: string, s: Store, os: seq<Intent>, k: Key, f: string)
    ensures FieldOf(ApplyAll(me, s, os), k, f) == Closed(me, FieldOf(s, k, f), os, k, f)
  {
    if os != [] {
      var front, o := os[..|os| - 1], os[|os| - 1];
      assert front + [o] == os;
      FieldAfter(me, s, front, k, f);
      NextIsApply(me, ApplyAll(me, s, front), o, k, f);
      ClosedOn(me, FieldOf(s, k, f), front, o, k, f);
    }
  }

  lemma {:induction false} KeysAfter(me: string, s: Store, os: seq<Intent>, k: Key)
    ensures k in ApplyAll(me, s, os) <==> k in s || exists i :: 0 <= i < |os| && os[i].key == k
  {
    if os != [] {
      KeysAfter(me, s, os[..|os| - 1], k);
    }
  }

  // ---------------------------------------------------------------- rerunning the loop

  lemma RerunField(me: string, x: Option<Entry>, os: seq<Intent>, n: nat, k: Key, f: string)
    requires n <= |os|
    ensures Closed(me, Closed(me, x, os[..n], k, f), os, k, f) == Closed(me, x, os, k, f)
  {
    var y := Closed(me, x, os[..n], k, f);
    var c := ClaimAfter(Claim(me, x), os[..n], k, f);
    WithoutMe(me, {});
    WithoutMe(me, Owners(c));
    WithoutMe(me, Owners(c) + {me});
    if x.Some? { WithoutMe(me, x.value.owners); }
    if LastAction(os[..n], k, f).Skip? {
    } else {
      LastSetAgrees(Claim(me, x), os[..n], k, f);
      assert Claim(me, y) == c;
      assert Sets(os[..n], k, f) ==> Sets(os, k, f);
      LastKept(os, n, k, f);
      assert !LastAction(os, k, f).Skip?;
    }
  }

  lemma {:induction false} LastKept(os: seq<Intent>, n: nat, k: Key, f: string)
    requires n <= |os| && !LastAction(os[..n], k, f).Skip?
    ensures !LastAction(os, k, f).Skip?
  {
    if n < |os| {
      assert os[..|os| - 1][..n] == os[..n];
      LastKept(os[..|os| - 1], n, k, f);
    } else {
      assert os[..n] == os;
    }
  }

  /**
    From the store left by a run that stopped anywhere, a clean run of the same list ends where one clean run would
    have.
   */
  lemma RerunConverges(me: string, s: Store, os: seq<Intent>, n: nat)
    requires n <= |os|
    ensures ApplyAll(me, ApplyAll(me, s, os[..n]), os) == ApplyAll(me, s, os)
  {
    var partial := ApplyAll(me, s, os[..n]);
    var again, clean := ApplyAll(me, partial, os), ApplyAll(me, s, os);
    forall k: Key
      ensures k in again <==> k in clean
    {
      KeysAfter(me, s, os[..n], k);
      KeysAfter(me, partial, os, k);
      KeysAfter(me, s, os, k);
    }
    forall k: Key, f: string
      ensures FieldOf(again, k, f) == FieldOf(clean, k, f)
    {
      FieldAfter(me, s, os[..n], k, f);
      FieldAfter(me, partial, os, k, f);
      FieldAfter(me, s, os, k, f);
      RerunField(me, FieldOf(s, k, f), os, n, k, f);
    }
    SameFields(again, clean);
  }

  lemma SameFields(s: Store, t: Store)
    requires forall k :: k in s <==> k in t
    requires forall k, f :: FieldOf(s, k, f) == FieldOf(t, k, f)
    ensures s == t
  {
    forall k | k in s
      ensures s[k] == t[k]
    {
      forall f: string
        ensures f in s[k] <==> f in t[k]
        ensures f in s[k] ==> s[k][f] == t[k][f]
      {
        assert FieldOf(s, k, f) == FieldOf(t, k, f);
      }
    }
  }

  // ---------------------------------------------------------------- what a clean run leaves

  /**
    The last list entry for an object decides: its fields are stored with its values, and the manager owns those only.
   */
  lemma {:induction false} LastIntentHolds(me: string, s: Store, os: seq<Intent>, i: nat, f: string)
    requires i < |os| && forall j :: i < j < |os| ==> os[j].key != os[i].key
    ensures var t := FieldOf(ApplyAll(me, s, os), os[i].key, f);
            && (f in os[i].fields ==> t.Some? && t.value.value == os[i].fields[f])
            && (f in os[i].fields <==> Mine(me, t))
  {
    var k := os[i].key;
    FieldAfter(me, s, os, k, f);
    LastIs(os, i, f);
    var x := FieldOf(s, k, f);
    WithoutMe(me, {});
    if x.Some? { WithoutMe(me, x.value.owners); }
  }

  lemma {:induction false} LastIs(os: seq<Intent>, i: nat, f: string)
    requires i < |os| && forall j :: i < j < |os| ==> os[j].key != os[i].key
    ensures LastAction(os, os[i].key, f) == ActionOf(os[i], os[i].key, f)
  {
    if i < |os| - 1 {
      assert os[..|os| - 1][i] == os[i];
      LastIs(os[..|os| - 1], i, f);
    }
  }

  /** Another manager keeps a field, and its value, exactly when no entry of the list sets it to something else. */
  lemma {:induction false} OthersKeepTheirFields(me: string, s: Store, os: seq<Intent>, k: Key, f: string,
                                                 other: string)
    requires other != me && FieldOf(s, k, f).Some? && other in FieldOf(s, k, f).value.owners
    ensures var x, t := FieldOf(s, k, f), FieldOf(ApplyAll(me, s, os), k, f);
            (t.Some? && other in t.value.owners && t.value.value == x.value.value) <==>
            forall i :: 0 <= i < |os| && os[i].key == k && f in os[i].fields ==> os[i].fields[f] == x.value.value
  {
    var x := FieldOf(s, k, f);
    FieldAfter(me, s, os, k, f);
    assert other in x.value.owners - {me};
    if LastAction(os, k, f).Skip? {
      SkippedHasNoSet(os, k, f);
      assert forall i :: 0 <= i < |os| ==> ActionOf(os[i], k, f).Skip?;
    } else {
      LastSetAgrees(Claim(me, x), os, k, f);
    }
    if forall i :: 0 <= i < |os| && os[i].key == k && f in os[i].fields ==> os[i].fields[f] == x.value.value {
      assert Agrees(Claim(me, x), os, k, f);
    } else {
      var i :| 0 <= i < |os| && os[i].key == k && f in os[i].fields && os[i].fields[f] != x.value.value;
      assert ActionOf(os[i], k, f) == Set(os[i].fields[f]);
      assert !Agrees(Claim(me, x), os, k, f);
    }
  }

  // ---------------------------------------------------------------- objects in the store

  /** An object's fields, with its controller as owner reference. */
  function Sent(fields: map<string, string>, controller: Option<string>): map<string, string> {
    if controller.Some? then fields[OWNER_FIELD := controller.value] else fields
  }

  function Holders(s: Store, k: Key, f: string): set<string> {
    if FieldOf(s, k, f).Some? then FieldOf(s, k, f).value.owners else {}
  }

  /**
    The store has the object: each of its fields with its value, the controller as owner reference if there is one, and
    `me` owns exactly those fields.
   */
  ghost predicate Has(s: Store, me: string, k: Key, fields: map<string, string>, controller: Option<string>) {
    && (forall f :: Mine(me, FieldOf(s, k, f)) <==> f in fields || (f == OWNER_FIELD && controller.Some?))
    && (forall f :: f in fields && f != OWNER_FIELD ==>
          FieldOf(s, k, f).Some? && FieldOf(s, k, f).value.value == fields[f])
    && (controller.Some? ==>
          FieldOf(s, k, OWNER_FIELD).Some? && FieldOf(s, k, OWNER_FIELD).value.value == controller.value)
  }

  /** An intent made of an object, not followed by another one for its key, leaves the object in the store. */
  lemma IntentArrives(me: string, s: Store, os: seq<Intent>, i: nat, k: Key, fields: map<string, string>,
                      controller: Option<string>)
    requires i < |os| && forall j :: i < j < |os| ==> os[j].key != os[i].key
    requires os[i].key == k
    requires os[i].fields == Sent(fields, controller)
    ensures Has(ApplyAll(me, s, os), me, k, fields, controller)
  {
    forall f: string
      ensures var t := FieldOf(ApplyAll(me, s, os), k, f);
              && (f in os[i].fields ==> t.Some? && t.value.value == os[i].fields[f])
              && (f in os[i].fields <==> Mine(me, t))
    {
      LastIntentHolds(me, s, os, i, f);
    }
  }

  lemma {:induction false} OthersStay(me: string, s: Store, os: seq<Intent>, k: Key)
    requires forall i :: 0 <= i < |os| ==> os[i].key != k
    ensures (k in ApplyAll(me, s, os) <==> k in s) && Live(ApplyAll(me, s, os), k) == Live(s, k)
  {
    if os != [] {
      OthersStay(me, s, os[..|os| - 1], k);
    }
  }

  /** A patch without a conflict takes nothing from another manager. */
  lemma NoConflictKeeps(me: string, live: map<string, Entry>, want: map<string, string>, f: string, other: string)
    requires !Conflicts(me, live, want) && other != me && f in live && other in live[f].owners
    ensures var t := Merged(me, live, want); f in t && t[f].value == live[f].value && other in t[f].owners
  {
    assert other in live[f].owners - {me};
    WithoutMe(me, live[f].owners);
  }

  // ---------------------------------------------------------------- the loop

  /** An object about to be applied; the loop sets its controller and its kind in place. */
  class Object {
    const goType: string
    const namespace: string
    const name: string
    const fields: map<string, string>
    var controller: Option<string>
    var kind: Option<string>

    constructor (goType: string, namespace: string, name: string, fields: map<string, string>)
      ensures this.goType == goType && this.namespace == namespace && this.name == name && this.fields == fields
      ensures controller == None && kind == None
    {
      this.goType, this.namespace, this.name, this.fields := goType, namespace, name, fields;
      controller, kind := None, None;
    }
  }

  datatype Owner = Owner(goType: string, namespace: string, id: string)

  datatype Options = Options(manager: string, force: bool, owner: Option<Owner>, setOwnerRef: bool)

  datatype Failure = NoScheme | NoOwner | OwnerRefused | UnknownKind | PatchFailed

  /** `Stopped(n, f)`: object n failed with f. */
  datatype Outcome = Done | Rejected(why: Failure) | Stopped(n: nat, why: Failure)

  /** The controller of an object once its owner reference has been set. */
  function ControllerOf(opts: Options, before: Option<string>): Option<string> {
    if opts.setOwnerRef && opts.owner.Some? then Some(opts.owner.value.id) else before
  }

  class Applier {
    const scheme: Option<map<string, string>>
    var store: Store

    constructor (scheme: Option<map<string, string>>)
      ensures this.scheme == scheme && store == map[]
    {
      this.scheme, store := scheme, map[];
    }

    predicate CanOwn(w: Owner, o: Object)
      requires scheme.Some?
      reads o
    {
      && (w.namespace != "" ==> o.namespace == w.namespace)
      && w.goType in scheme.value
      && (o.controller.None? || o.controller.value == w.id)
    }

    function KeyOf(o: Object): Key
      requires scheme.Some? && o.goType in scheme.value
    {
      Key(scheme.value[o.goType], o.namespace, o.name)
    }

    /** What the patch for o sends. */
    function Wanted(opts: Options, o: Object): Intent
      requires scheme.Some?
      reads o
    {
      var kind := if o.goType in scheme.value then scheme.value[o.goType] else "";
      Intent(Key(kind, o.namespace, o.name), Sent(o.fields, ControllerOf(opts, o.controller)))
    }

    function WantedAll(opts: Options, objs: seq<Object>): (w: seq<Intent>)
      requires scheme.Some?
      reads objs
      ensures |w| == |objs| && forall i :: 0 <= i < |objs| ==> w[i] == Wanted(opts, objs[i])
    {
      if objs == [] then [] else WantedAll(opts, objs[..|objs| - 1]) + [Wanted(opts, objs[|objs| - 1])]
    }

    /** SetControllerReference. */
    method SetControllerReference(w: Owner, o: Object) returns (ok: bool)
      requires scheme.Some?
      modifies o`controller
      ensures ok == old(CanOwn(w, o))
      ensures o.controller == if ok then Some(w.id) else old(o.controller)
    {
      ok := CanOwn(w, o);
      if ok { o.controller := Some(w.id); }
    }

    /**
      The patch itself: refused on a conflict without force, or for reasons of its own; a refused patch changes nothing.
     */
    method Patch(opts: Options, o: Object) returns (ok: bool)
      requires scheme.Some? && o.goType in scheme.value
      requires opts.setOwnerRef && opts.owner.Some? ==> o.controller == Some(opts.owner.value.id)
      modifies this`store
      ensures store == if ok then ApplyOne(opts.manager, old(store), Wanted(opts, o)) else old(store)
      ensures ok ==> opts.force ||
                     !Conflicts(opts.manager, Live(old(store), Wanted(opts, o).key), Wanted(opts, o).fields)
    {
      var fails: bool := *;
      var want := Intent(Key(scheme.value[o.goType], o.namespace, o.name),
                         if o.controller.Some? then o.fields[OWNER_FIELD := o.controller.value] else o.fields);
      ok := !fails && (opts.force || !Conflicts(opts.manager, Live(store, want.key), want.fields));
      if ok { store := ApplyOne(opts.manager, store, want); }
    }

    /** The object's only patch puts it in the store. */
    lemma WantedArrives(opts: Options, o: Object, before: Store)
      requires scheme.Some? && o.goType in scheme.value && (opts.setOwnerRef ==> opts.owner.Some?)
      ensures Has(ApplyOne(opts.manager, before, Wanted(opts, o)), opts.manager, KeyOf(o), o.fields,
                  ControllerOf(opts, o.controller))
    {
      var w := Wanted(opts, o);
      assert [w][..0] == [] && ApplyAll(opts.manager, before, [w]) == ApplyOne(opts.manager, before, w);
      IntentArrives(opts.manager, before, [w], 0, KeyOf(o), o.fields,
                    ControllerOf(opts, o.controller));
    }

    /** One object: the owner reference, the kind, the patch. */
    method ApplyObject(opts: Options, o: Object) returns (failure: Option<Failure>)
      requires scheme.Some? && (opts.setOwnerRef ==> opts.owner.Some?)
      modifies o, this`store
      ensures Wanted(opts, o) == old(Wanted(opts, o))
      ensures store == if failure.None? then ApplyOne(opts.manager, old(store), Wanted(opts, o)) else old(store)
      ensures failure == Some(OwnerRefused) <==> opts.setOwnerRef && !old(CanOwn(opts.owner.value, o))
      ensures failure == Some(UnknownKind) <==> failure != Some(OwnerRefused) && o.goType !in scheme.value
      ensures failure in {None, Some(OwnerRefused), Some(UnknownKind), Some(PatchFailed)}
      ensures o.controller == if opts.setOwnerRef && failure != Some(OwnerRefused) then Some(opts.owner.value.id)
                              else old(o.controller)
      ensures failure.None? ==>
                var key := Key(scheme.value[o.goType], o.namespace, o.name);
                && o.kind == Some(scheme.value[o.goType])
                && Has(store, opts.manager, key, o.fields,
                       if opts.setOwnerRef then Some(opts.owner.value.id) else old(o.controller))
                && forall k :: k != key ==> (k in store <==> k in old(store)) && Live(store, k) == Live(old(store), k)
      ensures failure.None? && !opts.force ==>
                forall f, other :: other != opts.manager && other in Holders(old(store), KeyOf(o), f) ==>
                  other in Holders(store, KeyOf(o), f) &&
                  FieldOf(store, KeyOf(o), f).value.value == FieldOf(old(store), KeyOf(o), f).value.value
    {
      if opts.setOwnerRef {
        var ok := SetControllerReference(opts.owner.value, o);
        if !ok {
          return Some(OwnerRefused);
        }
      }
      if o.goType !in scheme.value {
        return Some(UnknownKind);
      }
      o.kind := Some(scheme.value[o.goType]);
      var ok := Patch(opts, o);
      failure := if ok then None else Some(PatchFailed);
      if ok {
        WantedArrives(opts, o, old(store));
        KeptUnforced(opts, o, old(store));
      }
    }

    predicate Acceptable(opts: Options, o: Object)
      requires scheme.Some? && (opts.setOwnerRef ==> opts.owner.Some?)
      reads o
    {
      o.goType in scheme.value && (opts.setOwnerRef ==> CanOwn(opts.owner.value, o))
    }

    /** Without force, a patch that was accepted leaves the other managers their fields. */
    lemma KeptUnforced(opts: Options, o: Object, before: Store)
      requires scheme.Some? && o.goType in scheme.value
      requires opts.force || !Conflicts(opts.manager, Live(before, KeyOf(o)), Wanted(opts, o).fields)
      ensures var after, k := ApplyOne(opts.manager, before, Wanted(opts, o)), KeyOf(o);
              !opts.force ==>
                forall f, other :: other != opts.manager && other in Holders(before, k, f) ==>
                  other in Holders(after, k, f) && FieldOf(after, k, f).value.value == FieldOf(before, k, f).value.value
    {
      var after, k := ApplyOne(opts.manager, before, Wanted(opts, o)), KeyOf(o);
      if !opts.force {
        forall f, other | other != opts.manager && other in Holders(before, k, f)
          ensures other in Holders(after, k, f)
          ensures FieldOf(after, k, f).value.value == FieldOf(before, k, f).value.value
        {
          NoConflictKeeps(opts.manager, Live(before, k), Wanted(opts, o).fields, f, other);
        }
      }
    }

    /** The objects ask for what they asked for at first, and are as acceptable as they were. */
    ghost predicate StillWants(opts: Options, objs: seq<Object>, wanted: seq<Intent>, fine: seq<bool>)
      requires scheme.Some? && (opts.setOwnerRef ==> opts.owner.Some?) && |wanted| == |fine| == |objs|
      reads objs
    {
      forall j :: 0 <= j < |objs| ==> Wanted(opts, objs[j]) == wanted[j] && Acceptable(opts, objs[j]) == fine[j]
    }

    /** One object of a list. */
    method ApplyNth(opts: Options, objs: seq<Object>, i: nat, ghost wanted: seq<Intent>, ghost fine: seq<bool>)
      returns (failure: Option<Failure>)
      requires scheme.Some? && (opts.setOwnerRef ==> opts.owner.Some?) && |wanted| == |fine| == |objs| && i < |objs|
      requires StillWants(opts, objs, wanted, fine)
      modifies objs[i], this`store
      ensures StillWants(opts, objs, wanted, fine)
      ensures store == if failure.None? then ApplyOne(opts.manager, old(store), wanted[i]) else old(store)
      ensures failure.None? ==> fine[i]
      ensures failure.Some? ==>
                && failure.value in {OwnerRefused, UnknownKind, PatchFailed}
                && (failure.value.PatchFailed? <==> fine[i])
    {
      failure := ApplyObject(opts, objs[i]);
    }

    /**
      The first n objects are in the store, each as its last occurrence in the list has it, and nothing else is there
      that was not there before.
     */
    twostate predicate Delivered(opts: Options, objs: seq<Object>, n: nat)
      requires scheme.Some? && (opts.setOwnerRef ==> opts.owner.Some?) && n <= |objs|
      reads this, objs
    {
      && (forall i :: 0 <= i < n ==> objs[i].goType in scheme.value)
      && (forall i :: 0 <= i < n && (forall j :: i < j < n ==> KeyOf(objs[j]) != KeyOf(objs[i])) ==>
            Has(store, opts.manager, Key(scheme.value[objs[i].goType], objs[i].namespace, objs[i].name), objs[i].fields,
                if opts.setOwnerRef then Some(opts.owner.value.id) else old(objs[i].controller)))
      && (forall k :: (forall i :: 0 <= i < n ==> KeyOf(objs[i]) != k) ==>
            (k in store <==> k in old(store)) && Live(store, k) == Live(old(store), k))
    }

    /** `controllers` are those the objects had before, `wanted` what they asked for then. */
    lemma Arrive(opts: Options, objs: seq<Object>, controllers: seq<Option<string>>, wanted: seq<Intent>,
                 before: Store, after: Store)
      requires scheme.Some? && (opts.setOwnerRef ==> opts.owner.Some?)
      requires |controllers| == |wanted| <= |objs| && after == ApplyAll(opts.manager, before, wanted)
      requires forall i :: 0 <= i < |wanted| ==>
                 && objs[i].goType in scheme.value
                 && wanted[i] == Intent(KeyOf(objs[i]), Sent(objs[i].fields, ControllerOf(opts, controllers[i])))
      ensures forall i :: 0 <= i < |wanted| && (forall j :: i < j < |wanted| ==> KeyOf(objs[j]) != KeyOf(objs[i])) ==>
                  Has(after, opts.manager, KeyOf(objs[i]), objs[i].fields, ControllerOf(opts, controllers[i]))
      ensures forall k :: (forall i :: 0 <= i < |wanted| ==> KeyOf(objs[i]) != k) ==>
                (k in after <==> k in before) && Live(after, k) == Live(before, k)
    {
      forall i | 0 <= i < |wanted| && (forall j :: i < j < |wanted| ==> KeyOf(objs[j]) != KeyOf(objs[i]))
        ensures Has(after, opts.manager, KeyOf(objs[i]), objs[i].fields, ControllerOf(opts, controllers[i]))
      {
        IntentArrives(opts.manager, before, wanted, i, KeyOf(objs[i]), objs[i].fields,
                      ControllerOf(opts, controllers[i]));
      }
      forall k | forall i :: 0 <= i < |wanted| ==> KeyOf(objs[i]) != k
        ensures (k in after <==> k in before) && Live(after, k) == Live(before, k)
      {
        OthersStay(opts.manager, before, wanted, k);
      }
    }

    /** The loop: the store afterwards is the one after exactly the objects before the first failure, in order. */
    method ApplyUntilFailure(opts: Options, objs: seq<Object>, ghost wanted: seq<Intent>, ghost fine: seq<bool>)
      returns (r: Outcome)
      requires scheme.Some? && (opts.setOwnerRef ==> opts.owner.Some?) && |wanted| == |fine| == |objs|
      requires StillWants(opts, objs, wanted, fine)
      modifies objs, this`store
      ensures r.Done? || (r.Stopped? && r.n < |objs| && r.why in {OwnerRefused, UnknownKind, PatchFailed})
      ensures var n := if r.Done? then |objs| else r.n;
              store == ApplyAll(opts.manager, old(store), wanted[..n]) && forall j :: 0 <= j < n ==> fine[j]
      ensures r.Stopped? ==> (r.why.PatchFailed? <==> fine[r.n])
    {
      var i := 0;
      while i < |objs|
        invariant i <= |objs| && forall j :: 0 <= j < i ==> fine[j]
        invariant StillWants(opts, objs, wanted, fine)
        invariant store == ApplyAll(opts.manager, old(store), wanted[..i])
      {
        var failure := ApplyNth(opts, objs, i, wanted, fine);
        if failure.Some? {
          return Stopped(i, failure.value);
        }
        assert wanted[..i + 1][..i] == wanted[..i];
        i := i + 1;
      }
      r := Done;
    }

    /** The loop again, by what it leaves in the store. */
    method ApplyInOrder(opts: Options, objs: seq<Object>) returns (r: Outcome)
      requires scheme.Some? && (opts.setOwnerRef ==> opts.owner.Some?)
      modifies objs, this`store
      ensures r.Done? || (r.Stopped? && r.n < |objs| && r.why in {OwnerRefused, UnknownKind, PatchFailed})
      ensures var n := if r.Done? then |objs| else r.n;
              && store == ApplyAll(opts.manager, old(store), old(WantedAll(opts, objs))[..n])
              && Delivered(opts, objs, n)
              && forall j :: 0 <= j < n ==> old(Acceptable(opts, objs[j]))
      ensures r.Stopped? ==> (r.why.PatchFailed? <==> old(Acceptable(opts, objs[r.n])))
    {
      ghost var before, wanted := store, WantedAll(opts, objs);
      ghost var fine := seq(|objs|, i requires 0 <= i < |objs| reads objs => Acceptable(opts, objs[i]));
      ghost var controllers := seq(|objs|, i requires 0 <= i < |objs| reads objs => objs[i].controller);
      r := ApplyUntilFailure(opts, objs, wanted, fine);
      ghost var n := if r.Done? then |objs| else r.n;
      Arrive(opts, objs, controllers[..n], wanted[..n], before, store);
    }

    /** apply: a missing scheme or owner changes neither the store nor an object. */
    method Apply(opts: Options, objs: seq<Object>) returns (r: Outcome)
      modifies objs, this`store
      ensures r == Rejected(NoScheme) <==> scheme.None?
      ensures r == Rejected(NoOwner) <==> scheme.Some? && opts.setOwnerRef && opts.owner.None?
      ensures r.Rejected? ==> (r.why.NoScheme? || r.why.NoOwner?) && store == old(store)
      ensures r.Rejected? ==> forall o :: o in objs ==> o.controller == old(o.controller) && o.kind == old(o.kind)
      ensures !r.Rejected? ==>
                var n := if r.Done? then |objs| else r.n;
                && (r.Stopped? ==> n < |objs| && r.why in {OwnerRefused, UnknownKind, PatchFailed})
                && store == ApplyAll(opts.manager, old(store), old(WantedAll(opts, objs))[..n])
                && (forall j :: 0 <= j < n ==> old(Acceptable(opts, objs[j])))
                && (r.Stopped? ==> (r.why.PatchFailed? <==> old(Acceptable(opts, objs[n]))))
                && Delivered(opts, objs, n)
    {
      if scheme.None? {
        return Rejected(NoScheme);
      }
      if opts.setOwnerRef && opts.owner.None? {
        return Rejected(NoOwner);
      }
      r := ApplyInOrder(opts, objs);
    }
  }
}
