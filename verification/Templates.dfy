/**
  What the workload builders compute: every call's effect on a template's value, and what any chain of calls leaves.
 */
module Templates {
  import opened Optional

  type Labels = map<string, string>

  datatype Volume =
    | SecretVolume(name: string, secret: string)
    | ConfigMapVolume(name: string, configMap: string, key: string, path: string)
    | EmptyDirVolume(name: string)
    | ProjectedVolume(name: string, items: seq<Item>)

  /** A key of a Secret, shown under a path of its own in a projected volume. */
  datatype Item = Item(secret: string, key: string, path: string)

  datatype Mount = Mount(name: string, path: string, readOnly: bool)

  /** A command line argument: one that names a file, one that names a host, or any other. */
  datatype Arg = File(flag: string, path: string) | Url(flag: string, host: string, port: string) | Text(text: string)

  datatype Container = Container(name: string, args: seq<Arg>, mounts: seq<Mount>)

  /** A Deployment or StatefulSet; a missing map is an empty one. */
  datatype Template = Template(
    name: string, namespace: string, labels: Labels, annotations: Labels, replicas: Option<int>,
    selector: Labels, podLabels: Labels, serviceAccount: string, containers: seq<Container>, volumes: seq<Volume>,
    serviceName: string, claims: seq<string>)
  {
    function Then(c: Call): Template {
      Do(this, c)
    }
  }

  const EMPTY := Template("", "", map[], map[], None, map[], map[], "", [], [], "", [])

  datatype Call =
    | WithName(name: string)
    | WithNamespace(namespace: string)
    | WithLabels(labels: Labels)
    | WithAnnotations(annotations: Labels)
    | WithReplicas(replicas: int)
    | WithSelector(selector: Labels)
    | WithServiceAccount(account: string)
    | WithContainer(container: Container)
    | AddVolumes(volumes: seq<Volume>)
    | AddVolumeMounts(target: string, mounts: seq<Mount>)
    | WithServiceName(service: string)
    | WithVolumeClaims(claims: seq<string>)

  /** Mounts go to the first container of the name, or nowhere. */
  function Mounted(cs: seq<Container>, name: string, ms: seq<Mount>): seq<Container> {
    if cs == [] then []
    else if cs[0].name == name then [cs[0].(mounts := cs[0].mounts + ms)] + cs[1..]
    else [cs[0]] + Mounted(cs[1..], name, ms)
  }

  function Do(t: Template, c: Call): Template {
    match c
    case WithName(n) => if n == "" then t else t.(name := n)
    case WithNamespace(n) => if n == "" then t else t.(namespace := n)
    case WithLabels(m) => t.(labels := t.labels + m)
    case WithAnnotations(m) => t.(annotations := t.annotations + m)
    case WithReplicas(n) => t.(replicas := Some(n))
    case WithSelector(m) => t.(selector := t.selector + m, podLabels := t.podLabels + m)
    case WithServiceAccount(a) => t.(serviceAccount := a)
    case WithContainer(c) => t.(containers := t.containers + [c])
    case AddVolumes(vs) => t.(volumes := t.volumes + vs)
    case AddVolumeMounts(name, ms) => t.(containers := Mounted(t.containers, name, ms))
    case WithServiceName(n) => t.(serviceName := n)
    case WithVolumeClaims(cs) => t.(claims := t.claims + cs)
  }

  function DoAll(calls: seq<Call>): Template {
    if calls == [] then EMPTY else DoAll(calls[..|calls| - 1]).Then(calls[|calls| - 1])
  }

  // ---------------------------------------------------------------- selectors

  /** The value a key got from the last selector that had it. */
  function LastSelected(calls: seq<Call>, k: string): Option<string> {
    if calls == [] then None
    else
      var c := calls[|calls| - 1];
      if c.WithSelector? && k in c.selector then Some(c.selector[k]) else LastSelected(calls[..|calls| - 1], k)
  }

  /** The last call with the key wins, whatever came between. */
  lemma {:induction false} LastSelectedIs(calls: seq<Call>, k: string, i: nat)
    requires i < |calls| && calls[i].WithSelector? && k in calls[i].selector
    requires forall j :: i < j < |calls| && calls[j].WithSelector? ==> k !in calls[j].selector
    ensures LastSelected(calls, k) == Some(calls[i].selector[k])
  {
    if i < |calls| - 1 {
      assert calls[..|calls| - 1][i] == calls[i];
      LastSelectedIs(calls[..|calls| - 1], k, i);
    }
  }

  lemma {:induction false} NeverSelected(calls: seq<Call>, k: string)
    ensures LastSelected(calls, k).None? <==>
            forall i :: 0 <= i < |calls| && calls[i].WithSelector? ==> k !in calls[i].selector
  {
    if calls != [] {
      NeverSelected(calls[..|calls| - 1], k);
    }
  }

  /**
    After any chain of builder calls the selector matches the pods: it equals the pod labels, and both are the
    right-biased merge of all selectors given.
   */
  lemma {:induction false} SelectorMatchesPods(calls: seq<Call>, k: string)
    ensures var t := DoAll(calls);
            && t.selector == t.podLabels
            && (if k in t.selector then Some(t.selector[k]) else None) == LastSelected(calls, k)
  {
    if calls != [] {
      var front := calls[..|calls| - 1];
      SelectorMatchesPods(front, k);
      SelectionOn(DoAll(front), calls[|calls| - 1], k);
    }
  }

  lemma SelectionOn(t: Template, c: Call, k: string)
    requires t.selector == t.podLabels
    ensures var u := t.Then(c);
            && u.selector == u.podLabels
            && (if k in u.selector then Some(u.selector[k]) else None) ==
               if c.WithSelector? && k in c.selector then Some(c.selector[k])
               else if k in t.selector then Some(t.selector[k]) else None
  {
  }

  // ---------------------------------------------------------------- everything else that is set

  /** Calls of other kinds leave these fields. */
  lemma Kept(t: Template, c: Call)
    ensures !(c.WithName? && c.name != "") ==> t.Then(c).name == t.name
    ensures !(c.WithNamespace? && c.namespace != "") ==> t.Then(c).namespace == t.namespace
    ensures !c.WithServiceName? ==> t.Then(c).serviceName == t.serviceName
    ensures !c.WithReplicas? ==> t.Then(c).replicas == t.replicas
    ensures !c.WithServiceAccount? ==> t.Then(c).serviceAccount == t.serviceAccount
  {
  }

  /** For each field with one value the last call counts, whatever came between; empty names are no calls. */
  lemma {:induction false} LastNameCounts(calls: seq<Call>, i: nat)
    requires i < |calls| && calls[i].WithName? && calls[i].name != ""
    requires forall j :: i < j < |calls| ==> !(calls[j].WithName? && calls[j].name != "")
    ensures DoAll(calls).name == calls[i].name
  {
    var front, last := calls[..|calls| - 1], calls[|calls| - 1];
    if i < |front| {
      assert front[i] == calls[i];
      LastNameCounts(front, i);
      Kept(DoAll(front), last);
    }
  }

  lemma {:induction false} LastNamespaceCounts(calls: seq<Call>, i: nat)
    requires i < |calls| && calls[i].WithNamespace? && calls[i].namespace != ""
    requires forall j :: i < j < |calls| ==> !(calls[j].WithNamespace? && calls[j].namespace != "")
    ensures DoAll(calls).namespace == calls[i].namespace
  {
    var front, last := calls[..|calls| - 1], calls[|calls| - 1];
    if i < |front| {
      assert front[i] == calls[i];
      LastNamespaceCounts(front, i);
      Kept(DoAll(front), last);
    }
  }

  lemma {:induction false} LastServiceNameCounts(calls: seq<Call>, i: nat)
    requires i < |calls| && calls[i].WithServiceName?
    requires forall j :: i < j < |calls| ==> !calls[j].WithServiceName?
    ensures DoAll(calls).serviceName == calls[i].service
  {
    var front, last := calls[..|calls| - 1], calls[|calls| - 1];
    if i < |front| {
      assert front[i] == calls[i];
      LastServiceNameCounts(front, i);
      Kept(DoAll(front), last);
    }
  }

  lemma {:induction false} LastReplicasCount(calls: seq<Call>, i: nat)
    requires i < |calls| && calls[i].WithReplicas?
    requires forall j :: i < j < |calls| ==> !calls[j].WithReplicas?
    ensures DoAll(calls).replicas == Some(calls[i].replicas)
  {
    var front, last := calls[..|calls| - 1], calls[|calls| - 1];
    if i < |front| {
      assert front[i] == calls[i];
      LastReplicasCount(front, i);
      Kept(DoAll(front), last);
    }
  }

  lemma {:induction false} LastAccountCounts(calls: seq<Call>, i: nat)
    requires i < |calls| && calls[i].WithServiceAccount?
    requires forall j :: i < j < |calls| ==> !calls[j].WithServiceAccount?
    ensures DoAll(calls).serviceAccount == calls[i].account
  {
    var front, last := calls[..|calls| - 1], calls[|calls| - 1];
    if i < |front| {
      assert front[i] == calls[i];
      LastAccountCounts(front, i);
      Kept(DoAll(front), last);
    }
  }

  lemma KeptLabels(t: Template, c: Call, k: string)
    requires k in t.labels && !(c.WithLabels? && k in c.labels)
    ensures k in t.Then(c).labels && t.Then(c).labels[k] == t.labels[k]
  {
  }

  lemma KeptAnnotations(t: Template, c: Call, k: string)
    requires k in t.annotations && !(c.WithAnnotations? && k in c.annotations)
    ensures k in t.Then(c).annotations && t.Then(c).annotations[k] == t.annotations[k]
  {
  }

  /** For labels and annotations the last call with the key counts. */
  lemma {:induction false} LastLabelCounts(calls: seq<Call>, i: nat, k: string)
    requires i < |calls| && calls[i].WithLabels? && k in calls[i].labels
    requires forall j :: i < j < |calls| ==> !(calls[j].WithLabels? && k in calls[j].labels)
    ensures k in DoAll(calls).labels && DoAll(calls).labels[k] == calls[i].labels[k]
  {
    var front, last := calls[..|calls| - 1], calls[|calls| - 1];
    if i < |front| {
      assert front[i] == calls[i];
      LastLabelCounts(front, i, k);
      KeptLabels(DoAll(front), last, k);
    }
  }

  lemma {:induction false} LastAnnotationCounts(calls: seq<Call>, i: nat, k: string)
    requires i < |calls| && calls[i].WithAnnotations? && k in calls[i].annotations
    requires forall j :: i < j < |calls| ==> !(calls[j].WithAnnotations? && k in calls[j].annotations)
    ensures k in DoAll(calls).annotations && DoAll(calls).annotations[k] == calls[i].annotations[k]
  {
    var front, last := calls[..|calls| - 1], calls[|calls| - 1];
    if i < |front| {
      assert front[i] == calls[i];
      LastAnnotationCounts(front, i, k);
      KeptAnnotations(DoAll(front), last, k);
    }
  }

  lemma OneMoreCall(t: Template, c: Call, v: Volume, claim: string)
    ensures v in t.Then(c).volumes <==> v in t.volumes || (c.AddVolumes? && v in c.volumes)
    ensures claim in t.Then(c).claims <==> claim in t.claims || (c.WithVolumeClaims? && claim in c.claims)
  {
  }

  /** Volumes add up: the template has exactly those that some call gave. */
  lemma {:induction false} VolumesAddUp(calls: seq<Call>, v: Volume)
    ensures v in DoAll(calls).volumes <==> exists c :: c in calls && c.AddVolumes? && v in c.volumes
  {
    if calls != [] {
      var front, last := calls[..|calls| - 1], calls[|calls| - 1];
      assert calls == front + [last];
      VolumesAddUp(front, v);
      OneMoreCall(DoAll(front), last, v, "");
    }
  }

  /** And so do the volume claims. */
  lemma {:induction false} ClaimsAddUp(calls: seq<Call>, claim: string)
    ensures claim in DoAll(calls).claims <==> exists c :: c in calls && c.WithVolumeClaims? && claim in c.claims
  {
    if calls != [] {
      var front, last := calls[..|calls| - 1], calls[|calls| - 1];
      assert calls == front + [last];
      ClaimsAddUp(front, claim);
      OneMoreCall(DoAll(front), last, EmptyDirVolume(""), claim);
    }
  }

  // ---------------------------------------------------------------- mounts

  /** The first container of the name gets the mounts at its end; every other container, and the order, stay. */
  lemma {:induction false} MountedFirst(cs: seq<Container>, name: string, ms: seq<Mount>, i: nat)
    requires i < |cs|
    ensures |Mounted(cs, name, ms)| == |cs|
    ensures Mounted(cs, name, ms)[i] ==
            if cs[i].name == name && (forall j :: 0 <= j < i ==> cs[j].name != name)
            then cs[i].(mounts := cs[i].mounts + ms) else cs[i]
  {
    if cs[0].name == name {
    } else if i > 0 {
      MountedFirst(cs[1..], name, ms, i - 1);
      assert forall j :: 0 < j < i ==> cs[1..][j - 1] == cs[j];
      assert (forall j :: 0 <= j < i ==> cs[j].name != name) <==>
             (forall j :: 0 <= j < i - 1 ==> cs[1..][j].name != name);
    } else if |cs| > 1 {
      MountedFirst(cs[1..], name, ms, 0);
    }
  }

  /** A mount for a container that was never added is dropped. */
  lemma {:induction false} MountedNowhere(cs: seq<Container>, name: string, ms: seq<Mount>)
    requires forall i :: 0 <= i < |cs| ==> cs[i].name != name
    ensures Mounted(cs, name, ms) == cs
  {
    if cs != [] {
      assert forall i :: 0 <= i < |cs| - 1 ==> cs[1..][i] == cs[i + 1];
      MountedNowhere(cs[1..], name, ms);
    }
  }

  /** The chain every one-container workload uses. */
  function WithPod(t: Template, ct: Container, vs: seq<Volume>, ms: seq<Mount>): Template {
    t.Then(WithContainer(ct)).Then(AddVolumes(vs)).Then(AddVolumeMounts(ct.name, ms))
  }

  lemma FirstContainer(t: Template, ct: Container, vs: seq<Volume>, ms: seq<Mount>)
    requires t.containers == [] && t.volumes == [] && ct.mounts == []
    ensures WithPod(t, ct, vs, ms) == t.(containers := [ct.(mounts := ms)], volumes := vs)
  {
    assert t.containers + [ct] == [ct] && t.volumes + vs == vs && ct.mounts + ms == ms;
    assert [ct][1..] == [];
    MountedFirst([ct], ct.name, ms, 0);
  }

  lemma SecondContainer(t: Template, a: Container, ct: Container, ms: seq<Mount>)
    requires t.containers == [a] && a.name != ct.name && ct.mounts == []
    ensures t.Then(WithContainer(ct)).Then(AddVolumeMounts(ct.name, ms)) == t.(containers := [a, ct.(mounts := ms)])
  {
    assert t.containers + [ct] == [a, ct] && ct.mounts + ms == ms;
    MountedFirst([a, ct], ct.name, ms, 0);
    MountedFirst([a, ct], ct.name, ms, 1);
  }

  lemma StatefulContainer(t: Template, service: string, ct: Container, vs: seq<Volume>, claims: seq<string>)
    requires t.containers == [] && t.volumes == [] && t.claims == []
    ensures t.Then(WithServiceName(service)).Then(WithContainer(ct)).Then(AddVolumes(vs))
              .Then(WithVolumeClaims(claims)) ==
            t.(serviceName := service, containers := [ct], volumes := vs, claims := claims)
  {
  }
}
