/**
  The workload builders over the heap. A Go map is an object that is shared by reference; each builder owns the maps of
  its object, and copies from the maps it is given. Slices are values here.
 */
module Builders {
  import opened Optional
  import opened Templates

  /** A Go map; null is the nil map. */
  class StringMap {
    var entries: Labels

    constructor ()
      ensures entries == map[]
    {
      entries := map[];
    }
  }

  function Entries(m: StringMap?): Labels
    reads m
  {
    if m == null then map[] else m.entries
  }

  function Owned(m: StringMap?): set<object> {
    if m == null then {} else {m}
  }

  /** maps.Copy, and the loop of WithSelector: the source's keys in some order. */
  method Copy(dst: StringMap, src: StringMap?)
    requires dst != src
    modifies dst
    ensures dst.entries == old(dst.entries) + Entries(src)
  {
    var todo := Entries(src).Keys;
    while todo != {}
      invariant todo <= Entries(src).Keys
      invariant forall k :: k in dst.entries <==> k in old(dst.entries) || k in Entries(src).Keys - todo
      invariant forall k :: k in dst.entries ==>
                  dst.entries[k] == if k in Entries(src) && k !in todo then Entries(src)[k] else old(dst.entries)[k]
    {
      var k :| k in todo;
      dst.entries := dst.entries[k := src.entries[k]];
      todo := todo - {k};
    }
  }

  /** MergeStringMap: into dst if there is one, into a new map otherwise, and nil only from two nils. */
  method MergeStringMap(dst: StringMap?, src: StringMap?) returns (merged: StringMap?)
    requires dst == null || dst != src
    modifies Owned(dst)
    ensures merged == null <==> dst == null && src == null
    ensures if dst != null then merged == dst else merged != null ==> fresh(merged)
    ensures Entries(merged) == old(Entries(dst)) + old(Entries(src))
  {
    if dst == null && src == null {
      return null;
    }
    merged := dst;
    if merged == null { merged := new StringMap(); }
    Copy(merged, src);
  }

  method Clone(m: StringMap?) returns (copy: StringMap?)
    ensures copy == null <==> m == null
    ensures fresh(Owned(copy)) && Entries(copy) == Entries(m)
  {
    if m == null {
      return null;
    }
    copy := new StringMap();
    Copy(copy, m);
  }

  // ---------------------------------------------------------------- metadata

  class Meta {
    var name: string
    var namespace: string
    var labels: StringMap?
    var annotations: StringMap?

    ghost function Maps(): set<object>
      reads this
    {
      Owned(labels) + Owned(annotations)
    }

    ghost predicate Valid()
      reads this
    {
      labels != null ==> labels != annotations
    }

    constructor ()
      ensures Valid() && name == "" && namespace == "" && labels == null && annotations == null
    {
      name, namespace, labels, annotations := "", "", null, null;
    }

    method WithName(n: string)
      modifies this`name
      ensures name == if n == "" then old(name) else n
    {
      if n != "" { name := n; }
    }

    method WithNamespace(n: string)
      modifies this`namespace
      ensures namespace == if n == "" then old(namespace) else n
    {
      if n != "" { namespace := n; }
    }

    method WithLabels(l: StringMap?)
      requires Valid() && (l != null ==> l !in Maps())
      modifies this`labels, Owned(labels)
      ensures Valid() && fresh(Maps() - old(Maps())) && (l != null ==> l !in Maps())
      ensures Entries(labels) == old(Entries(labels)) + old(Entries(l))
    {
      if labels == null { labels := new StringMap(); }
      Copy(labels, l);
    }

    method WithAnnotations(a: StringMap?)
      requires Valid() && (a != null ==> a !in Maps())
      modifies this`annotations, Owned(annotations)
      ensures Valid() && fresh(Maps() - old(Maps())) && (a != null ==> a !in Maps())
      ensures Entries(annotations) == old(Entries(annotations)) + old(Entries(a))
    {
      if annotations == null { annotations := new StringMap(); }
      Copy(annotations, a);
    }

    method DeepCopy() returns (m: Meta)
      requires Valid()
      ensures fresh(m) && fresh(m.Maps()) && m.Valid()
      ensures m.name == name && m.namespace == namespace
      ensures Entries(m.labels) == Entries(labels) && Entries(m.annotations) == Entries(annotations)
    {
      m := new Meta();
      var l := Clone(labels);
      var a := Clone(annotations);
      m.name, m.namespace, m.labels, m.annotations := name, namespace, l, a;
    }
  }

  // ---------------------------------------------------------------- pod template

  class PodTemplate {
    var labels: StringMap?
    var serviceAccount: string
    var containers: seq<Container>
    var volumes: seq<Volume>

    constructor ()
      ensures labels == null && serviceAccount == "" && containers == [] && volumes == []
    {
      labels, serviceAccount, containers, volumes := null, "", [], [];
    }

    /** Unlike its metadata twin it leaves everything alone for nil. */
    method WithLabels(l: StringMap?)
      requires l == null || l != labels
      modifies this`labels, Owned(labels)
      ensures labels == null || labels == old(labels) || fresh(labels)
      ensures l == null ==> labels == old(labels)
      ensures Entries(labels) == old(Entries(labels)) + old(Entries(l))
    {
      if l == null {
        return;
      }
      if labels == null { labels := new StringMap(); }
      Copy(labels, l);
    }

    method WithContainer(c: Container)
      modifies this`containers
      ensures containers == old(containers) + [c]
    {
      containers := containers + [c];
    }

    method AddVolumes(vs: seq<Volume>)
      modifies this`volumes
      ensures volumes == old(volumes) + vs
    {
      volumes := volumes + vs;
    }

    /** PatchContainer with the closure that appends mounts; `found` says whether there was such a container. */
    method AddVolumeMounts(name: string, ms: seq<Mount>) returns (found: bool)
      modifies this`containers
      ensures containers == Mounted(old(containers), name, ms)
      ensures found <==> exists i :: 0 <= i < |old(containers)| && old(containers)[i].name == name
    {
      var i := 0;
      while i < |containers|
        invariant i <= |containers| && containers == old(containers)
        invariant forall j :: 0 <= j < i ==> containers[j].name != name
      {
        if containers[i].name == name {
          MountedAt(containers, name, ms, i);
          containers := containers[i := containers[i].(mounts := containers[i].mounts + ms)];
          return true;
        }
        i := i + 1;
      }
      MountedNowhere(containers, name, ms);
      return false;
    }

    method DeepCopy() returns (p: PodTemplate)
      ensures fresh(p) && fresh(Owned(p.labels)) && Entries(p.labels) == Entries(labels)
      ensures p.serviceAccount == serviceAccount && p.containers == containers && p.volumes == volumes
    {
      p := new PodTemplate();
      var l := Clone(labels);
      p.labels, p.serviceAccount, p.containers, p.volumes := l, serviceAccount, containers, volumes;
    }
  }

  lemma MountedAt(cs: seq<Container>, name: string, ms: seq<Mount>, i: nat)
    requires i < |cs| && cs[i].name == name && forall j :: 0 <= j < i ==> cs[j].name != name
    ensures Mounted(cs, name, ms) == cs[i := cs[i].(mounts := cs[i].mounts + ms)]
  {
    var r := Mounted(cs, name, ms);
    MountedFirst(cs, name, ms, i);
    forall k | 0 <= k < |cs|
      ensures r[k] == cs[i := cs[i].(mounts := cs[i].mounts + ms)][k]
    {
      MountedFirst(cs, name, ms, k);
    }
  }

  // ---------------------------------------------------------------- deployments and stateful sets

  /**
    DeploymentTemplate and StatefulSetTemplate: the calls so far and the value they have left. Only a StatefulSet has a
    service name and claims.
   */
  class WorkloadTemplate {
    const meta: Meta
    const pod: PodTemplate
    var replicas: Option<int>
    var selector: StringMap?
    var serviceName: string
    var claims: seq<string>
    ghost var calls: seq<Call>

    ghost function Maps(): set<object>
      reads this, meta, pod
    {
      meta.Maps() + Owned(pod.labels) + Owned(selector)
    }

    ghost function Value(): Template
      reads this, meta, pod, Maps()
    {
      Template(meta.name, meta.namespace, Entries(meta.labels), Entries(meta.annotations), replicas,
               Entries(selector), Entries(pod.labels), pod.serviceAccount, pod.containers, pod.volumes, serviceName,
               claims)
    }

    /** No two of the object's maps are one. */
    ghost predicate Apart()
      reads this, meta, pod
    {
      && meta.Valid()
      && (pod.labels != null ==> pod.labels !in meta.Maps())
      && (selector != null ==> selector !in meta.Maps() && selector != pod.labels)
    }

    /** The object is what the calls make of an empty one. */
    ghost predicate Valid()
      reads this, meta, pod, Maps()
    {
      Apart() && Value() == DoAll(calls)
    }

    constructor ()
      ensures Valid() && fresh(meta) && fresh(pod) && Maps() == {} && calls == []
    {
      meta := new Meta();
      pod := new PodTemplate();
      replicas, selector, serviceName, claims, calls := None, null, "", [], [];
    }

    ghost method Did(c: Call, before: seq<Call>)
      requires calls == before && Value() == Do(DoAll(before), c)
      modifies this`calls
      ensures calls == before + [c] && Value() == DoAll(calls)
    {
      calls := before + [c];
      assert calls[..|calls| - 1] == before;
    }

    method WithName(n: string)
      requires Valid()
      modifies meta, this`calls
      ensures Valid() && Maps() == old(Maps()) && calls == old(calls) + [Call.WithName(n)]
    {
      meta.WithName(n);
      Did(Call.WithName(n), calls);
    }

    method WithNamespace(n: string)
      requires Valid()
      modifies meta, this`calls
      ensures Valid() && Maps() == old(Maps()) && calls == old(calls) + [Call.WithNamespace(n)]
    {
      meta.WithNamespace(n);
      Did(Call.WithNamespace(n), calls);
    }

    method WithLabels(l: StringMap?)
      requires Valid() && (l != null ==> l !in Maps())
      modifies meta, Owned(meta.labels), this`calls
      ensures Valid() && fresh(Maps() - old(Maps())) && (l != null ==> l !in Maps())
      ensures calls == old(calls) + [Call.WithLabels(old(Entries(l)))]
    {
      ghost var given := Entries(l);
      meta.WithLabels(l);
      Did(Call.WithLabels(given), calls);
    }

    method WithAnnotations(a: StringMap?)
      requires Valid() && (a != null ==> a !in Maps())
      modifies meta, Owned(meta.annotations), this`calls
      ensures Valid() && fresh(Maps() - old(Maps())) && (a != null ==> a !in Maps())
      ensures calls == old(calls) + [Call.WithAnnotations(old(Entries(a)))]
    {
      ghost var given := Entries(a);
      meta.WithAnnotations(a);
      Did(Call.WithAnnotations(given), calls);
    }

    /** The selector's own map is filled in a loop, and the pod labels from the same argument. */
    method WithSelector(sel: StringMap?)
      requires Valid() && (sel != null ==> sel !in Maps())
      modifies this`selector, Owned(selector), pod`labels, Owned(pod.labels), this`calls
      ensures Valid() && fresh(Maps() - old(Maps())) && (sel != null ==> sel !in Maps())
      ensures calls == old(calls) + [Call.WithSelector(old(Entries(sel)))]
    {
      ghost var given := Entries(sel);
      Select(sel, given);
      Did(Call.WithSelector(given), calls);
    }

    method Select(sel: StringMap?, ghost given: Labels)
      requires Apart() && Entries(sel) == given && (sel != null ==> sel !in Maps())
      modifies this`selector, Owned(selector), pod`labels, Owned(pod.labels)
      ensures Apart() && fresh(Maps() - old(Maps())) && (sel != null ==> sel !in Maps())
      ensures Value() == old(Value()).(selector := old(Value()).selector + given,
                                       podLabels := old(Value()).podLabels + given)
    {
      MatchLabels(sel, given);
      LabelPods(sel, given);
    }

    method LabelPods(sel: StringMap?, ghost given: Labels)
      requires Apart() && Entries(sel) == given && (sel != null ==> sel !in Maps())
      modifies pod`labels, Owned(pod.labels)
      ensures Apart() && fresh(Maps() - old(Maps())) && (sel != null ==> sel !in Maps())
      ensures Value() == old(Value()).(podLabels := old(Value()).podLabels + given)
    {
      pod.WithLabels(sel);
    }

    method MatchLabels(sel: StringMap?, ghost given: Labels)
      requires Apart() && Entries(sel) == given && (sel != null ==> sel !in Maps())
      modifies this`selector, Owned(selector)
      ensures Apart() && fresh(Maps() - old(Maps())) && (sel != null ==> sel !in Maps())
      ensures Value() == old(Value()).(selector := old(Value()).selector + given)
    {
      if selector == null { selector := new StringMap(); }
      Copy(selector, sel);
    }

    method WithReplicas(n: int)
      requires Valid()
      modifies this`replicas, this`calls
      ensures Valid() && Maps() == old(Maps()) && calls == old(calls) + [Call.WithReplicas(n)]
    {
      replicas := Some(n);
      Did(Call.WithReplicas(n), calls);
    }

    method WithServiceAccount(a: string)
      requires Valid()
      modifies pod`serviceAccount, this`calls
      ensures Valid() && Maps() == old(Maps()) && calls == old(calls) + [Call.WithServiceAccount(a)]
    {
      pod.serviceAccount := a;
      Did(Call.WithServiceAccount(a), calls);
    }

    method WithContainer(c: Container)
      requires Valid()
      modifies pod`containers, this`calls
      ensures Valid() && Maps() == old(Maps()) && calls == old(calls) + [Call.WithContainer(c)]
    {
      pod.WithContainer(c);
      Did(Call.WithContainer(c), calls);
    }

    method AddVolumes(vs: seq<Volume>)
      requires Valid()
      modifies pod`volumes, this`calls
      ensures Valid() && Maps() == old(Maps()) && calls == old(calls) + [Call.AddVolumes(vs)]
    {
      pod.AddVolumes(vs);
      Did(Call.AddVolumes(vs), calls);
    }

    method AddVolumeMounts(name: string, ms: seq<Mount>)
      requires Valid()
      modifies pod`containers, this`calls
      ensures Valid() && Maps() == old(Maps()) && calls == old(calls) + [Call.AddVolumeMounts(name, ms)]
    {
      var found := pod.AddVolumeMounts(name, ms);
      Did(Call.AddVolumeMounts(name, ms), calls);
    }

    method WithServiceName(n: string)
      requires Valid()
      modifies this`serviceName, this`calls
      ensures Valid() && Maps() == old(Maps()) && calls == old(calls) + [Call.WithServiceName(n)]
    {
      serviceName := n;
      Did(Call.WithServiceName(n), calls);
    }

    method WithVolumeClaims(cs: seq<string>)
      requires Valid()
      modifies this`claims, this`calls
      ensures Valid() && Maps() == old(Maps()) && calls == old(calls) + [Call.WithVolumeClaims(cs)]
    {
      claims := claims + cs;
      Did(Call.WithVolumeClaims(cs), calls);
    }

    /** What every reachable template satisfies, whatever maps its callers change meanwhile. */
    lemma Matches()
      requires Valid()
      ensures Entries(selector) == Entries(pod.labels)
      ensures forall k ::
                (if k in Entries(selector) then Some(Entries(selector)[k]) else None) == LastSelected(calls, k)
    {
      SelectorMatchesPods(calls, "");
      forall k: string
        ensures (if k in Entries(selector) then Some(Entries(selector)[k]) else None) == LastSelected(calls, k)
      {
        SelectorMatchesPods(calls, k);
      }
    }

    constructor Of(meta: Meta, pod: PodTemplate, selector: StringMap?, from: WorkloadTemplate)
      ensures this.meta == meta && this.pod == pod && this.selector == selector
      ensures replicas == from.replicas && serviceName == from.serviceName && claims == from.claims &&
              calls == from.calls
    {
      this.meta, this.pod, this.selector := meta, pod, selector;
      replicas, serviceName, claims, calls := from.replicas, from.serviceName, from.claims, from.calls;
    }

    /** Build: an equal object that shares nothing with the builder. */
    method Build() returns (copy: WorkloadTemplate)
      requires Valid()
      ensures fresh(copy) && fresh(copy.meta) && fresh(copy.pod) && fresh(copy.Maps())
      ensures copy.Valid() && copy.Value() == Value()
    {
      var m := meta.DeepCopy();
      var p := pod.DeepCopy();
      var s := Clone(selector);
      copy := new WorkloadTemplate.Of(m, p, s, this);
    }
  }
}
