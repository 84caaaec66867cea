/**
  JSON merge patches: applying one (RFC 7396, section 2) and creating one from two documents, as the client does when it
  sends the difference between an object and its earlier copy.
 */
module MergePatch {
  datatype Json =
    | Null | Bool(b: bool) | Number(n: int) | Text(s: string)
    | Array(items: seq<Json>) | Object(fields: map<string, Json>)

  function Fields(j: Json): map<string, Json> {
    if j.Object? then j.fields else map[]
  }

  function Apply(target: Json, patch: Json): Json
    decreases patch
  {
    if !patch.Object? then patch
    else
      var t := Fields(target);
      Object(map k | k in t.Keys + patch.fields.Keys && !(k in patch.fields && patch.fields[k].Null?) ::
        if k in patch.fields then Apply(if k in t then t[k] else Null, patch.fields[k]) else t[k])
  }

  /**
    The patch from a to b: added and changed members with their new value, removed ones as null, objects member by
    member.
   */
  function Create(a: map<string, Json>, b: map<string, Json>): map<string, Json>
    decreases Object(b)
  {
    map k | k in a.Keys + b.Keys && Changed(a, b, k) ::
      if k !in b then Null
      else if k in a && a[k].Object? && b[k].Object? then Object(Create(a[k].fields, b[k].fields))
      else b[k]
  }

  predicate Changed(a: map<string, Json>, b: map<string, Json>, k: string)
    decreases Object(b), 0
  {
    if k !in a then k in b
    else if k !in b then true
    else if a[k].Object? && b[k].Object? then Create(a[k].fields, b[k].fields) != map[]
    else a[k] != b[k]
  }

  ghost predicate NoNull(j: Json) {
    !j.Null? && (j.Object? ==> forall k :: k in j.fields ==> NoNull(j.fields[k]))
  }

  ghost predicate SameAt(x: map<string, Json>, y: map<string, Json>, k: string) {
    (k in x <==> k in y) && (k in x ==> x[k] == y[k])
  }

  lemma {:induction false} CreateSelf(a: map<string, Json>)
    ensures Create(a, a) == map[]
    decreases Object(a)
  {
    forall k | k in a
      ensures !Changed(a, a, k)
    {
      if a[k].Object? { CreateSelf(a[k].fields); }
    }
  }

  /** A patch put where there is no object yet is that object. */
  lemma {:induction false} ApplyToNothing(target: Json, patch: Json)
    requires NoNull(patch) && Fields(target) == map[]
    ensures Apply(target, patch) == patch
    decreases patch
  {
    if patch.Object? {
      forall k | k in patch.fields
        ensures Apply(Null, patch.fields[k]) == patch.fields[k]
      {
        ApplyToNothing(Null, patch.fields[k]);
      }
      assert Apply(target, patch).fields == patch.fields;
    }
  }

  function Patched(c: map<string, Json>, a: map<string, Json>, b: map<string, Json>): map<string, Json> {
    Apply(Object(c), Object(Create(a, b))).fields
  }

  /** A member the writer did not change is left as it is in the document the patch meets. */
  lemma UnchangedMember(c: map<string, Json>, a: map<string, Json>, b: map<string, Json>, k: string)
    requires SameAt(a, b, k)
    ensures SameAt(Patched(c, a, b), c, k)
  {
    if k in a && a[k].Object? { CreateSelf(a[k].fields); }
    assert k !in Create(a, b);
  }

  /** A member on which the document still agrees with the writer's earlier copy ends as the writer has it. */
  lemma {:induction false} AgreedMember(c: map<string, Json>, a: map<string, Json>, b: map<string, Json>, k: string)
    requires SameAt(c, a, k) && (k in b ==> NoNull(b[k]))
    ensures SameAt(Patched(c, a, b), b, k)
    decreases Object(b), 0
  {
    var p := Create(a, b);
    if k in a && k in b && a[k].Object? && b[k].Object? {
      CreateRoundTrip(a[k].fields, b[k].fields);
      var d := Create(a[k].fields, b[k].fields);
      if d == map[] {
        EmptyPatch(a[k]);
        assert Apply(a[k], Object(map[])) == a[k];
      } else {
        assert Changed(a, b, k);
        assert p[k] == Object(d);
      }
    } else if k in b && Changed(a, b, k) {
      assert p[k] == b[k];
      ReplaceMember(if k in c then c[k] else Null, b[k]);
    } else if k in a && k !in b {
      assert Changed(a, b, k) && p[k] == Null;
    } else {
      assert k !in p;
    }
  }

  lemma EmptyPatch(t: Json)
    requires t.Object?
    ensures Apply(t, Object(map[])) == t
  {
  }

  lemma {:induction false} ReplaceMember(t: Json, patch: Json)
    requires NoNull(patch) && !(t.Object? && patch.Object?)
    ensures Apply(t, patch) == patch
  {
    if patch.Object? { ApplyToNothing(t, patch); }
  }

  /** Patching the earlier copy itself gives the later one. */
  lemma {:induction false} CreateRoundTrip(a: map<string, Json>, b: map<string, Json>)
    requires NoNull(Object(b))
    ensures Apply(Object(a), Object(Create(a, b))) == Object(b)
    decreases Object(b), 1
  {
    var r := Patched(a, a, b);
    forall k
      ensures k in r <==> k in b
      ensures k in r ==> r[k] == b[k]
    {
      AgreedMember(a, a, b, k);
      assert SameAt(r, b, k);
    }
    assert r == b;
  }
}
