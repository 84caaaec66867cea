/**
  The multicluster provider as a transition system.

  One serialized reconcile thread creates, stores, engages and removes clusters; any number of threads run IndexField.
  A step is one critical section, or one call made outside the lock, of the program; every interleaving of the
  threads is a sequence of labels. Map iteration order, errors returned by other components and the moment other threads
  run are all choices of labels.
 */
module ProviderModel {
  import opened Optional

  type Key = string
  type Hash = string
  type Index = string

  /** activeCluster: `id` stands for the cluster object together with its context. */
  datatype Entry = Entry(id: nat, hash: Hash)

  /** What removeCluster is followed by: the end of the pass, or the creation of a replacement. */
  datatype Next = Finish | Recreate(key: Key, hash: Hash)

  /** Where the reconcile thread is. */
  datatype Pc =
    | Idle
    | Deleting(key: Key, next: Next)              // removeCluster called, lock not yet taken
    | Cancelling(id: nat, next: Next)             // deleted from the registry, cancel() not yet called
    | Fresh(key: Key, hash: Hash)                 // no entry for key; kubeconfig parse, version probe, NewCluster ahead
    | Built(key: Key, hash: Hash, id: nat)        // NewCluster returned
    | Indexed(key: Key, hash: Hash, id: nat)      // applyIndexers returned
    | Started(key: Key, hash: Hash, id: nat)      // context created, Start spawned, cache sync ahead
    | Stored(key: Key, hash: Hash, id: nat)       // in the registry, addon step ahead
    | Engaging(key: Key, hash: Hash, id: nat)     // addon step done, Engage ahead

  /**
    `clusters` and `indexers` are the provider's fields and `calls` the snapshots of the running IndexField calls, by
    the number of the registration they made. The rest is history: applications made and given up, the number of
    indexers when a cluster went through applyIndexers and when it was stored, contexts started and cancelled,
    clusters engaged, clusters whose addon step failed.
   */
  datatype State = State(
    clusters: map<Key, Entry>,
    indexers: seq<Index>,
    pc: Pc,
    calls: map<nat, set<nat>>,
    built: nat,
    applied: multiset<(nat, nat)>,
    abandoned: set<(nat, nat)>,
    upto: map<nat, nat>,
    storedAt: map<nat, nat>,
    started: set<nat>,
    cancelled: multiset<nat>,
    engaged: set<nat>,
    addonFailed: set<nat>)

  const INIT := State(map[], [], Idle, map[], 0, multiset{}, {}, map[], map[], {}, multiset{}, {}, {})

  datatype Label =
    // the reconcile thread
    | Gone(key: Key)                     // MCP not found, or being deleted
    | Skip                               // read error, not ready, secret error: the pass ends
    | Ready(key: Key, hash: Hash)        // a ready MCP whose kubeconfig hashes to hash
    | Delete
    | Cancel
    | GiveUp                             // kubeconfig parse, version probe or NewCluster failed
    | Build
    | ApplyIndexers
    | ApplyIndexersFails(done: nat)      // the application number done fails
    | Start
    | SyncFails
    | Store
    | AddonOk
    | AddonFails
    | Engage
    | EngageFails
    // IndexField threads
    | Register(index: Index)
    | ApplyOne(reg: nat, id: nat)
    | FailOne(reg: nat, id: nat)
    | Return(reg: nat)

  predicate ByIndexField(l: Label) {
    l.Register? || l.ApplyOne? || l.FailOne? || l.Return?
  }

  function Ids(clusters: map<Key, Entry>): (ids: set<nat>)
    ensures forall k :: k in clusters ==> clusters[k].id in ids
    ensures forall c :: c in ids ==> exists k :: k in clusters && clusters[k].id == c
  {
    set k | k in clusters :: clusters[k].id
  }

  /** The applications of registrations 0..n to one cluster. */
  function Applications(id: nat, n: nat): (pairs: set<(nat, nat)>)
    ensures forall c: nat, r: nat :: (c, r) in pairs <==> c == id && r < n
  {
    set r: nat | r < n :: (id, r)
  }

  function Pending(calls: map<nat, set<nat>>, reg: nat): set<nat> {
    if reg in calls then calls[reg] else {}
  }

  function GiveUpOn(ids: set<nat>, reg: nat): (pairs: set<(nat, nat)>)
    ensures forall c: nat, r: nat :: (c, r) in pairs <==> c in ids && r == reg
  {
    set c | c in ids :: (c, reg)
  }

  function Resume(n: Next): Pc {
    match n
    case Finish => Idle
    case Recreate(key, hash) => Fresh(key, hash)
  }

  predicate Enabled(s: State, l: Label) {
    match l
    case Gone(_) => s.pc.Idle?
    case Skip => s.pc.Idle?
    case Ready(_, _) => s.pc.Idle?
    case Delete => s.pc.Deleting?
    case Cancel => s.pc.Cancelling?
    case GiveUp => s.pc.Fresh?
    case Build => s.pc.Fresh?
    case ApplyIndexers => s.pc.Built?
    case ApplyIndexersFails(done) => s.pc.Built? && done < |s.indexers|
    case Start => s.pc.Indexed?
    case SyncFails => s.pc.Started?
    case Store => s.pc.Started?
    case AddonOk => s.pc.Stored?
    case AddonFails => s.pc.Stored?
    case Engage => s.pc.Engaging?
    case EngageFails => s.pc.Engaging?
    case Register(_) => true
    case ApplyOne(reg, id) => id in Pending(s.calls, reg)
    case FailOne(reg, id) => id in Pending(s.calls, reg)
    case Return(reg) => reg in s.calls && s.calls[reg] == {}
  }

  function Step(s: State, l: Label): State
    requires Enabled(s, l)
  {
    match l
    case Gone(key) => s.(pc := Deleting(key, Finish))
    case Skip => s
    case Ready(key, hash) =>
      if key !in s.clusters then s.(pc := Fresh(key, hash))
      else if s.clusters[key].hash == hash then s
      else s.(pc := Deleting(key, Recreate(key, hash)))
    case Delete =>
      if s.pc.key !in s.clusters then s.(pc := Resume(s.pc.next))
      else s.(clusters := s.clusters - {s.pc.key}, pc := Cancelling(s.clusters[s.pc.key].id, s.pc.next))
    case Cancel => s.(cancelled := s.cancelled + multiset{s.pc.id}, pc := Resume(s.pc.next))
    case GiveUp => s.(pc := Idle)
    case Build => s.(pc := Built(s.pc.key, s.pc.hash, s.built), built := s.built + 1)
    case ApplyIndexers =>
      s.(applied := s.applied + multiset(Applications(s.pc.id, |s.indexers|)),
         upto := s.upto[s.pc.id := |s.indexers|],
         pc := Indexed(s.pc.key, s.pc.hash, s.pc.id))
    case ApplyIndexersFails(done) =>
      s.(applied := s.applied + multiset(Applications(s.pc.id, done)), pc := Idle)
    case Start => s.(started := s.started + {s.pc.id}, pc := Started(s.pc.key, s.pc.hash, s.pc.id))
    case SyncFails => s.(cancelled := s.cancelled + multiset{s.pc.id}, pc := Idle)
    case Store =>
      s.(clusters := s.clusters[s.pc.key := Entry(s.pc.id, s.pc.hash)],
         storedAt := s.storedAt[s.pc.id := |s.indexers|],
         pc := Stored(s.pc.key, s.pc.hash, s.pc.id))
    case AddonOk => s.(pc := Engaging(s.pc.key, s.pc.hash, s.pc.id))
    case AddonFails => s.(addonFailed := s.addonFailed + {s.pc.id}, pc := Idle)
    case Engage => s.(engaged := s.engaged + {s.pc.id}, pc := Idle)
    case EngageFails => s.(pc := Deleting(s.pc.key, Finish))
    case Register(index) =>
      s.(indexers := s.indexers + [index], calls := s.calls[|s.indexers| := Ids(s.clusters)])
    case ApplyOne(reg, id) =>
      s.(applied := s.applied + multiset{(id, reg)}, calls := s.calls[reg := s.calls[reg] - {id}])
    case FailOne(reg, id) =>
      s.(abandoned := s.abandoned + GiveUpOn(s.calls[reg], reg), calls := s.calls - {reg})
    case Return(reg) => s.(calls := s.calls - {reg})
  }

  /** The state a sequence of labels leads to, if every one of them is possible in turn. */
  function Run(s: State, labels: seq<Label>): Option<State>
    decreases |labels|
  {
    if labels == [] then Some(s)
    else if Enabled(s, labels[0]) then Run(Step(s, labels[0]), labels[1..])
    else None
  }

  lemma {:induction false} RunConcat(s: State, a: seq<Label>, b: seq<Label>)
    ensures Run(s, a + b) == match Run(s, a) case None => None case Some(m) => Run(m, b)
    decreases |a|
  {
    if a == [] {
      assert a + b == b;
    } else if Enabled(s, a[0]) {
      RunConcat(Step(s, a[0]), a[1..], b);
      assert (a + b)[1..] == a[1..] + b;
    }
  }

  /** One more label. */
  lemma RunOn(s: State, labels: seq<Label>, m: State, l: Label)
    requires Run(s, labels) == Some(m) && Enabled(m, l)
    ensures Run(s, labels + [l]) == Some(Step(m, l))
  {
    RunConcat(s, labels, [l]);
    assert [l][1..] == [];
  }
}
