/**
  One reconcile pass of the provider, interleaved with any number of IndexField calls: what it leaves in the registry.
 */
module ProviderPass {
  import opened ProviderModel
  import opened ProviderProofs

  /** The registry as users see it: from cluster name to the hash of the kubeconfig the cluster was built from. */
  ghost function Hashes(clusters: map<Key, Entry>): map<Key, Hash> {
    map k | k in clusters :: clusters[k].hash
  }

  /** A label that begins a pass; it is only possible while the reconcile thread is idle. */
  predicate Begins(l: Label) {
    l.Gone? || l.Skip? || l.Ready?
  }

  /** The steps after which a pass gives up the cluster it was asked for. */
  predicate Drops(l: Label) {
    l.GiveUp? || l.ApplyIndexersFails? || l.SyncFails? || l.EngageFails?
  }

  ghost predicate Dropped(labels: seq<Label>) {
    exists l :: l in labels && Drops(l)
  }

  lemma DroppedFirst(labels: seq<Label>)
    requires labels != []
    ensures Dropped(labels) <==> Drops(labels[0]) || Dropped(labels[1..])
  {
  }

  /** Where a pass for a ready MCP (key, hash) stands, `before` being the registry it started from. */
  ghost predicate InPass(pc: Pc, now: map<Key, Entry>, before: map<Key, Entry>, key: Key, hash: Hash, dropped: bool) {
    var without := before - {key};
    match pc
    case Deleting(k, Recreate(_, h)) => k == key && h == hash && now == before && !dropped
    case Cancelling(_, Recreate(k, h)) => k == key && h == hash && now == without && !dropped
    case Fresh(k, h) => k == key && h == hash && now == without && !dropped
    case Built(k, h, _) => k == key && h == hash && now == without && !dropped
    case Indexed(k, h, _) => k == key && h == hash && now == without && !dropped
    case Started(k, h, _) => k == key && h == hash && now == without && !dropped
    case Stored(k, h, id) => k == key && h == hash && now == without[key := Entry(id, hash)] && !dropped
    case Engaging(k, h, id) => k == key && h == hash && now == without[key := Entry(id, hash)] && !dropped
    case Deleting(k, Finish) => k == key && now - {key} == without && dropped
    case Cancelling(_, Finish) => now == without && dropped
    case Idle => Settled(now, before, key, hash, dropped)
  }

  /** The registry at the end of a pass: unchanged outside key; at key the hash read in the pass, or nothing. */
  ghost predicate Settled(now: map<Key, Entry>, before: map<Key, Entry>, key: Key, hash: Hash, dropped: bool) {
    && now - {key} == before - {key}
    && (if dropped then key !in now else key in now && now[key].hash == hash)
  }

  lemma InPassStep(s: State, l: Label, before: map<Key, Entry>, key: Key, hash: Hash, dropped: bool)
    requires AtPc(s.pc, s.clusters, s.storedAt, s.built) && Enabled(s, l) && !Begins(l)
    requires InPass(s.pc, s.clusters, before, key, hash, dropped)
    ensures var t := Step(s, l); InPass(t.pc, t.clusters, before, key, hash, dropped || Drops(l))
  {
    if l.Delete? && s.pc.key !in s.clusters {
      assert s.clusters - {s.pc.key} == s.clusters;
    }
  }

  lemma {:induction false} InPassRun(s: State, labels: seq<Label>, before: map<Key, Entry>, key: Key, hash: Hash,
                                     dropped: bool)
    requires Invariant(s) && Run(s, labels).Some? && InPass(s.pc, s.clusters, before, key, hash, dropped)
    requires forall l :: l in labels ==> !Begins(l)
    ensures var t := Run(s, labels).value; InPass(t.pc, t.clusters, before, key, hash, dropped || Dropped(labels))
    decreases |labels|
  {
    if labels != [] {
      var l := labels[0];
      assert !Begins(l);
      InvariantStep(s, l);
      InPassStep(s, l, before, key, hash, dropped);
      InPassRun(Step(s, l), labels[1..], before, key, hash, dropped || Drops(l));
      DroppedFirst(labels);
    }
  }

  /**
    A pass for a ready MCP whose kubeconfig hashes to `hash`, to its end: the registry is unchanged at every other key,
    and at this key it holds the hash read in the pass, unless a step dropped the cluster, and then it holds nothing.
    The IndexField steps in between make no difference.
   */
  lemma PassRefinesMap(s: State, key: Key, hash: Hash, labels: seq<Label>)
    requires Invariant(s) && s.pc.Idle? && Run(s, [Ready(key, hash)] + labels).Some?
    requires forall l :: l in labels ==> !Begins(l)
    ensures var t := Run(s, [Ready(key, hash)] + labels).value;
            t.pc.Idle? ==>
              Hashes(t.clusters) == if Dropped(labels) then Hashes(s.clusters) - {key}
                                    else Hashes(s.clusters)[key := hash]
  {
    var first := Step(s, Ready(key, hash));
    var all := [Ready(key, hash)] + labels;
    assert all[1..] == labels;
    InvariantStep(s, all[0]);
    if key !in s.clusters { assert s.clusters - {key} == s.clusters; }
    InPassRun(first, labels, s.clusters, key, hash, false);
    var t, dropped := Run(first, labels).value, Dropped(labels);
    if t.pc.Idle? {
      SettledHashes(t.clusters, s.clusters, key, hash, dropped);
    }
  }

  lemma SettledHashes(now: map<Key, Entry>, before: map<Key, Entry>, key: Key, hash: Hash, dropped: bool)
    requires Settled(now, before, key, hash, dropped)
    ensures Hashes(now) == if dropped then Hashes(before) - {key} else Hashes(before)[key := hash]
  {
    forall k | k != key
      ensures k in now <==> k in before
      ensures k in now ==> now[k] == before[k]
    {
      assert k in now <==> k in now - {key};
      assert k in before <==> k in before - {key};
      if k in now { assert now[k] == (now - {key})[k]; }
    }
  }

  /**
    When a changed kubeconfig is being acted on, the cluster it replaces was cancelled before the new one is created.
   */
  lemma CancelledBeforeRecreated(s: State, key: Key, hash: Hash, labels: seq<Label>)
    requires Invariant(s) && s.pc.Idle? && Run(s, [Ready(key, hash)] + labels).Some?
    requires key in s.clusters && s.clusters[key].hash != hash
    requires forall l :: l in labels ==> !Begins(l)
    ensures var t := Run(s, [Ready(key, hash)] + labels).value;
            Enabled(t, Build) ==> t.cancelled[s.clusters[key].id] == 1 && !Live(t, s.clusters[key].id)
  {
    var first := Step(s, Ready(key, hash));
    var all := [Ready(key, hash)] + labels;
    assert all[1..] == labels;
    InvariantStep(s, all[0]);
    InPassRun(first, labels, s.clusters, key, hash, false);
    InvariantRun(first, labels);
    StartedStays(first, labels, s.clusters[key].id);
    var t, c := Run(first, labels).value, s.clusters[key].id;
    assert ContextOk(s, c) && ContextOk(t, c);
    if t.pc.Fresh? {
      IdsDeleted(s.clusters, s.storedAt, s.built, key);
    }
  }

  lemma {:induction false} StartedStays(s: State, labels: seq<Label>, c: nat)
    requires Run(s, labels).Some?
    ensures c in s.started ==> c in Run(s, labels).value.started
    decreases |labels|
  {
    if labels != [] { StartedStays(Step(s, labels[0]), labels[1..], c); }
  }

  /** A pass that finds the MCP gone leaves every other key alone and this one absent. */
  ghost predicate InRemoval(s: State, before: map<Key, Entry>, key: Key) {
    match s.pc
    case Deleting(k, next) => k == key && next.Finish? && s.clusters == before
    case Cancelling(_, next) => next.Finish? && s.clusters == before - {key}
    case Idle => s.clusters == before - {key}
    case _ => false
  }

  lemma RemovalStep(s: State, l: Label, before: map<Key, Entry>, key: Key)
    requires Enabled(s, l) && !Begins(l) && InRemoval(s, before, key)
    ensures InRemoval(Step(s, l), before, key)
  {
  }

  lemma {:induction false} RemovalRun(s: State, labels: seq<Label>, before: map<Key, Entry>, key: Key)
    requires Run(s, labels).Some? && InRemoval(s, before, key)
    requires forall l :: l in labels ==> !Begins(l)
    ensures InRemoval(Run(s, labels).value, before, key)
    decreases |labels|
  {
    if labels != [] {
      assert !Begins(labels[0]);
      RemovalStep(s, labels[0], before, key);
      RemovalRun(Step(s, labels[0]), labels[1..], before, key);
    }
  }

  lemma RemovalRefinesMap(s: State, key: Key, labels: seq<Label>)
    requires s.pc.Idle? && Run(s, [Gone(key)] + labels).Some?
    requires forall l :: l in labels ==> !Begins(l)
    ensures var t := Run(s, [Gone(key)] + labels).value;
            t.pc.Idle? ==> Hashes(t.clusters) == Hashes(s.clusters) - {key}
  {
    assert ([Gone(key)] + labels)[1..] == labels;
    RemovalRun(Step(s, Gone(key)), labels, s.clusters, key);
  }
}
