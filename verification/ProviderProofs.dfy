/** What every run of the provider keeps, whatever the interleaving. */
module ProviderProofs {
  import opened Optional
  import opened ProviderModel

  // ---------------------------------------------------------------- the registry

  /** Distinct keys hold distinct clusters, all of them stored once. */
  ghost predicate Entries(clusters: map<Key, Entry>, storedAt: map<nat, nat>, built: nat) {
    && (forall k :: k in clusters ==> clusters[k].id in storedAt)
    && (forall k, k' :: k in clusters && k' in clusters && clusters[k].id == clusters[k'].id ==> k == k')
    && (forall c :: c in storedAt ==> c < built)
  }

  ghost predicate AtPc(pc: Pc, clusters: map<Key, Entry>, storedAt: map<nat, nat>, built: nat) {
    match pc
    case Idle => true
    case Deleting(key, next) => next.Recreate? ==> next.key == key
    case Cancelling(id, next) => id in storedAt && id !in Ids(clusters) && (next.Recreate? ==> next.key !in clusters)
    case Fresh(key, _) => key !in clusters
    case Built(key, _, id) => key !in clusters && id < built && id !in storedAt
    case Indexed(key, _, id) => key !in clusters && id < built && id !in storedAt
    case Started(key, _, id) => key !in clusters && id < built && id !in storedAt
    case Stored(key, hash, id) => key in clusters && clusters[key] == Entry(id, hash)
    case Engaging(key, hash, id) => key in clusters && clusters[key] == Entry(id, hash)
  }

  ghost predicate Registry(s: State) {
    Entries(s.clusters, s.storedAt, s.built) && AtPc(s.pc, s.clusters, s.storedAt, s.built)
  }

  lemma IdsStored(clusters: map<Key, Entry>, key: Key, e: Entry)
    requires key !in clusters
    ensures Ids(clusters[key := e]) == Ids(clusters) + {e.id}
  {
    var after := clusters[key := e];
    forall c | c in Ids(clusters) + {e.id}
      ensures c in Ids(after)
    {
      if c in Ids(clusters) {
        var k :| k in clusters && clusters[k].id == c;
        assert after[k].id == c;
      } else {
        assert after[key].id == c;
      }
    }
  }

  lemma IdsDeleted(clusters: map<Key, Entry>, storedAt: map<nat, nat>, built: nat, key: Key)
    requires Entries(clusters, storedAt, built) && key in clusters
    ensures Ids(clusters - {key}) == Ids(clusters) - {clusters[key].id}
  {
    var after := clusters - {key};
    forall c | c in Ids(clusters) - {clusters[key].id}
      ensures c in Ids(after)
    {
      var k :| k in clusters && clusters[k].id == c;
      assert after[k].id == c;
    }
  }

  /** Only Delete and Store touch the registry. */
  lemma IdsStep(s: State, l: Label)
    requires Registry(s) && Enabled(s, l)
    ensures Ids(Step(s, l).clusters) ==
            if l.Store? then Ids(s.clusters) + {s.pc.id}
            else if l.Delete? && s.pc.key in s.clusters then Ids(s.clusters) - {s.clusters[s.pc.key].id}
            else Ids(s.clusters)
  {
    if l.Store? {
      IdsStored(s.clusters, s.pc.key, Entry(s.pc.id, s.pc.hash));
    } else if l.Delete? {
      if s.pc.key in s.clusters { IdsDeleted(s.clusters, s.storedAt, s.built, s.pc.key); }
    } else {
      RegistryUntouched(s, l);
    }
  }

  lemma RegistryUntouched(s: State, l: Label)
    requires Enabled(s, l) && !l.Store? && !l.Delete?
    ensures Step(s, l).clusters == s.clusters
  {
    if ByIndexField(l) {
      assert Step(s, l).clusters == s.clusters;
    } else {
      assert Step(s, l).clusters == s.clusters;
    }
  }

  lemma EntriesStep(s: State, l: Label)
    requires Registry(s) && Enabled(s, l)
    ensures var t := Step(s, l); Entries(t.clusters, t.storedAt, t.built)
  {
    if l.Store? || l.Delete? { EntriesWritten(s, l); }
  }

  lemma EntriesWritten(s: State, l: Label)
    requires Registry(s) && Enabled(s, l) && (l.Store? || l.Delete?)
    ensures var t := Step(s, l); Entries(t.clusters, t.storedAt, t.built)
  {
  }

  lemma RegistryStep(s: State, l: Label)
    requires Registry(s) && Enabled(s, l)
    ensures Registry(Step(s, l))
  {
    EntriesStep(s, l);
    IdsStep(s, l);
  }

  // ---------------------------------------------------------------- contexts

  /** The cluster whose context is live though it is not, or no longer, in the registry. */
  ghost predicate Outside(pc: Pc, c: nat) {
    (pc.Started? || pc.Cancelling?) && pc.id == c
  }

  ghost predicate Live(s: State, c: nat) {
    c in s.started && s.cancelled[c] == 0
  }

  ghost predicate ContextOk(s: State, c: nat) {
    && (Live(s, c) <==> c in Ids(s.clusters) || Outside(s.pc, c))
    && s.cancelled[c] <= 1
    && (s.cancelled[c] > 0 ==> c in s.started)
  }

  /** A cluster being prepared has no context yet. */
  ghost predicate NotStarted(pc: Pc, started: set<nat>, built: nat) {
    && (forall c :: c in started ==> c < built)
    && (pc.Built? || pc.Indexed? ==> pc.id !in started)
  }

  ghost predicate Contexts(s: State) {
    NotStarted(s.pc, s.started, s.built) && forall c :: ContextOk(s, c)
  }

  lemma ContextStepIndexField(s: State, l: Label, c: nat)
    requires Enabled(s, l) && ContextOk(s, c) && ByIndexField(l)
    ensures ContextOk(Step(s, l), c)
  {
  }

  lemma ContextStepRegistry(s: State, l: Label, c: nat)
    requires Registry(s) && Enabled(s, l) && ContextOk(s, c) && (l.Store? || l.Delete?)
    ensures ContextOk(Step(s, l), c)
  {
    IdsStep(s, l);
  }

  lemma ContextStepMoves(s: State, l: Label, c: nat)
    requires Registry(s) && Enabled(s, l) && ContextOk(s, c) && NotStarted(s.pc, s.started, s.built)
    requires l.Start? || l.SyncFails? || l.Cancel?
    ensures ContextOk(Step(s, l), c)
  {
  }

  lemma ContextStepQuiet(s: State, l: Label, c: nat)
    requires Enabled(s, l) && ContextOk(s, c)
    requires !ByIndexField(l) && !l.Store? && !l.Delete? && !l.Start? && !l.SyncFails? && !l.Cancel?
    ensures ContextOk(Step(s, l), c)
  {
    if l.Ready? || l.Gone? || l.EngageFails? { ContextStepTurns(s, l, c); }
  }

  lemma ContextStepTurns(s: State, l: Label, c: nat)
    requires Enabled(s, l) && ContextOk(s, c) && (l.Ready? || l.Gone? || l.EngageFails?)
    ensures ContextOk(Step(s, l), c)
  {
  }

  lemma ContextStep(s: State, l: Label, c: nat)
    requires Registry(s) && Enabled(s, l) && ContextOk(s, c) && NotStarted(s.pc, s.started, s.built)
    ensures ContextOk(Step(s, l), c)
  {
    if ByIndexField(l) { ContextStepIndexField(s, l, c); }
    else if l.Store? || l.Delete? { ContextStepRegistry(s, l, c); }
    else if l.Start? || l.SyncFails? || l.Cancel? { ContextStepMoves(s, l, c); }
    else { ContextStepQuiet(s, l, c); }
  }

  lemma ContextsStep(s: State, l: Label)
    requires Registry(s) && Contexts(s) && Enabled(s, l)
    ensures Contexts(Step(s, l))
  {
    forall c: nat
      ensures ContextOk(Step(s, l), c)
    {
      assert ContextOk(s, c);
      ContextStep(s, l, c);
    }
  }

  // ---------------------------------------------------------------- engagement

  /** The reconcile thread is still busy with the entry of this key. */
  ghost predicate Busy(pc: Pc, k: Key) {
    (pc.Stored? || pc.Engaging? || pc.Deleting?) && pc.key == k
  }

  ghost predicate Engagement(s: State) {
    && s.engaged !! s.addonFailed
    && (forall c :: c in s.engaged || c in s.addonFailed ==> c in s.storedAt)
    && (forall k :: k in s.clusters && !Busy(s.pc, k) ==>
          s.clusters[k].id in s.engaged || s.clusters[k].id in s.addonFailed)
    && (s.pc.Stored? || s.pc.Engaging? ==> s.pc.id !in s.engaged && s.pc.id !in s.addonFailed)
  }

  lemma EngagementStepIndexField(s: State, l: Label)
    requires Registry(s) && Engagement(s) && Enabled(s, l) && ByIndexField(l)
    ensures Engagement(Step(s, l))
  {
  }

  lemma EngagementStepRegistry(s: State, l: Label)
    requires Registry(s) && Engagement(s) && Enabled(s, l) && (l.Store? || l.Delete?)
    ensures Engagement(Step(s, l))
  {
  }

  lemma EngagementStepQuiet(s: State, l: Label)
    requires Registry(s) && Engagement(s) && Enabled(s, l) && !ByIndexField(l) && !l.Store? && !l.Delete?
    ensures Engagement(Step(s, l))
  {
  }

  lemma EngagementStep(s: State, l: Label)
    requires Registry(s) && Engagement(s) && Enabled(s, l)
    ensures Engagement(Step(s, l))
  {
    if ByIndexField(l) { EngagementStepIndexField(s, l); }
    else if l.Store? || l.Delete? { EngagementStepRegistry(s, l); }
    else { EngagementStepQuiet(s, l); }
  }

  // ---------------------------------------------------------------- field indexes

  /** Registered after the cluster went through applyIndexers and before it was stored. */
  ghost predicate Missed(s: State, c: nat, r: nat) {
    c in s.upto && c in s.storedAt && s.upto[c] <= r < s.storedAt[c]
  }

  ghost predicate PendingPair(s: State, c: nat, r: nat) {
    c in Pending(s.calls, r)
  }

  ghost predicate Marks(s: State) {
    && (forall c :: c in s.storedAt ==> c in s.upto && s.upto[c] <= s.storedAt[c] <= |s.indexers|)
    && (forall c :: c in s.upto ==> c < s.built && s.upto[c] <= |s.indexers|)
    && (forall r :: r in s.calls ==> r < |s.indexers|)
    && (s.pc.Built? ==> s.pc.id !in s.upto)
    && (s.pc.Indexed? || s.pc.Started? ==> s.pc.id in s.upto)
  }

  /** Where a registration stands with respect to one cluster. */
  ghost predicate PairOk(s: State, c: nat, r: nat) {
    && s.applied[(c, r)] <= 1
    && (s.applied[(c, r)] == 1 ==> c < s.built && r < |s.indexers|)
    && (PendingPair(s, c, r) ==>
          s.applied[(c, r)] == 0 && (c, r) !in s.abandoned && c in s.storedAt && s.storedAt[c] <= r)
    && ((c, r) in s.abandoned ==> s.applied[(c, r)] == 0 && c in s.storedAt && s.storedAt[c] <= r < |s.indexers|)
    && (c in s.upto && r < s.upto[c] ==> s.applied[(c, r)] == 1)
    && (c in s.upto && c !in s.storedAt && s.upto[c] <= r ==> s.applied[(c, r)] == 0)
    && (Missed(s, c, r) ==> s.applied[(c, r)] == 0)
    && (s.pc.Built? && s.pc.id == c ==> s.applied[(c, r)] == 0)
    && (c in Ids(s.clusters) && c in s.storedAt && s.storedAt[c] <= r < |s.indexers| ==>
          s.applied[(c, r)] == 1 || PendingPair(s, c, r) || (c, r) in s.abandoned)
  }

  ghost predicate Indexing(s: State) {
    Marks(s) && forall c, r :: PairOk(s, c, r)
  }

  lemma MarksStepIndexField(s: State, l: Label)
    requires Registry(s) && Marks(s) && Enabled(s, l) && ByIndexField(l)
    ensures Marks(Step(s, l))
  {
  }

  lemma MarksStepWrites(s: State, l: Label)
    requires Registry(s) && Marks(s) && Enabled(s, l) && (l.ApplyIndexers? || l.Store?)
    ensures Marks(Step(s, l))
  {
  }

  lemma MarksStepReconcile(s: State, l: Label)
    requires Registry(s) && Marks(s) && Enabled(s, l) && !ByIndexField(l) && !l.ApplyIndexers? && !l.Store?
    ensures Marks(Step(s, l))
  {
    if l.Build? || l.Start? || l.ApplyIndexersFails? { MarksStepCreates(s, l); }
  }

  lemma MarksStepCreates(s: State, l: Label)
    requires Registry(s) && Marks(s) && Enabled(s, l) && (l.Build? || l.Start? || l.ApplyIndexersFails?)
    ensures Marks(Step(s, l))
  {
  }

  lemma MarksStep(s: State, l: Label)
    requires Registry(s) && Marks(s) && Enabled(s, l)
    ensures Marks(Step(s, l))
  {
    if ByIndexField(l) { MarksStepIndexField(s, l); }
    else if l.ApplyIndexers? || l.Store? { MarksStepWrites(s, l); }
    else { MarksStepReconcile(s, l); }
  }

  lemma PairStepIndexField(s: State, l: Label, c: nat, r: nat)
    requires ByIndexField(l) && Registry(s) && Marks(s) && Enabled(s, l) && PairOk(s, c, r)
    ensures PairOk(Step(s, l), c, r)
  {
  }

  lemma PairStepApply(s: State, l: Label, c: nat, r: nat)
    requires l.ApplyIndexers? || l.ApplyIndexersFails?
    requires Registry(s) && Marks(s) && Enabled(s, l) && PairOk(s, c, r)
    ensures PairOk(Step(s, l), c, r)
  {
  }

  lemma PairStepRegistry(s: State, l: Label, c: nat, r: nat)
    requires l.Store? || l.Delete?
    requires Registry(s) && Marks(s) && Enabled(s, l) && PairOk(s, c, r)
    ensures PairOk(Step(s, l), c, r)
  {
    IdsStep(s, l);
  }

  lemma PairStepQuiet(s: State, l: Label, c: nat, r: nat)
    requires !ByIndexField(l) && !l.ApplyIndexers? && !l.ApplyIndexersFails? && !l.Store? && !l.Delete?
    requires Registry(s) && Marks(s) && Enabled(s, l) && PairOk(s, c, r)
    ensures PairOk(Step(s, l), c, r)
  {
    if l.Build? { PairStepBuild(s, l, c, r); } else { PairStepElse(s, l, c, r); }
  }

  lemma PairStepBuild(s: State, l: Label, c: nat, r: nat)
    requires l.Build? && Enabled(s, l) && PairOk(s, c, r)
    ensures PairOk(Step(s, l), c, r)
  {
  }

  lemma PairStepElse(s: State, l: Label, c: nat, r: nat)
    requires !ByIndexField(l) && !l.ApplyIndexers? && !l.ApplyIndexersFails? && !l.Store? && !l.Delete? && !l.Build?
    requires Enabled(s, l) && PairOk(s, c, r)
    ensures PairOk(Step(s, l), c, r)
  {
    var t := Step(s, l);
    assert t.clusters == s.clusters && t.applied == s.applied && t.abandoned == s.abandoned && t.calls == s.calls;
    assert t.upto == s.upto && t.storedAt == s.storedAt && t.built == s.built && t.indexers == s.indexers;
    assert !t.pc.Built?;
  }

  lemma PairStepReconcile(s: State, l: Label, c: nat, r: nat)
    requires !ByIndexField(l) && Registry(s) && Marks(s) && Enabled(s, l) && PairOk(s, c, r)
    ensures PairOk(Step(s, l), c, r)
  {
    if l.ApplyIndexers? || l.ApplyIndexersFails? {
      PairStepApply(s, l, c, r);
    } else if l.Store? || l.Delete? {
      PairStepRegistry(s, l, c, r);
    } else {
      PairStepQuiet(s, l, c, r);
    }
  }

  lemma IndexingStep(s: State, l: Label)
    requires Registry(s) && Indexing(s) && Enabled(s, l)
    ensures Indexing(Step(s, l))
  {
    MarksStep(s, l);
    forall c: nat, r: nat
      ensures PairOk(Step(s, l), c, r)
    {
      assert PairOk(s, c, r);
      if ByIndexField(l) { PairStepIndexField(s, l, c, r); } else { PairStepReconcile(s, l, c, r); }
    }
  }

  // ---------------------------------------------------------------- over all runs

  ghost predicate Invariant(s: State) {
    Registry(s) && Contexts(s) && Engagement(s) && Indexing(s)
  }

  lemma InvariantStep(s: State, l: Label)
    requires Invariant(s) && Enabled(s, l)
    ensures Invariant(Step(s, l))
  {
    RegistryStep(s, l);
    ContextsStep(s, l);
    EngagementStep(s, l);
    IndexingStep(s, l);
  }

  lemma {:induction false} InvariantRun(s: State, labels: seq<Label>)
    requires Invariant(s) && Run(s, labels).Some?
    ensures Invariant(Run(s, labels).value)
    decreases |labels|
  {
    if labels != [] {
      InvariantStep(s, labels[0]);
      InvariantRun(Step(s, labels[0]), labels[1..]);
    }
  }

  lemma InitInvariant()
    ensures Invariant(INIT)
  {
  }

  ghost predicate Reachable(s: State) {
    exists labels :: Run(INIT, labels) == Some(s)
  }

  lemma ReachableInvariant(s: State)
    requires Reachable(s)
    ensures Invariant(s)
  {
    var labels :| Run(INIT, labels) == Some(s);
    InitInvariant();
    InvariantRun(INIT, labels);
  }

  /**
    IndexField, over every interleaving. No index is applied twice to a cluster; and for a cluster in the registry each
    registration is in exactly one of four states: applied, still ahead of a running call, given up by a failed call,
    or made between that cluster's applyIndexers and its store.
   */
  lemma IndexAccounting(s: State, c: nat, r: nat)
    requires Reachable(s)
    ensures s.applied[(c, r)] <= 1
    ensures c in Ids(s.clusters) && r < |s.indexers| ==>
              var applied, pending, abandoned := s.applied[(c, r)] == 1, PendingPair(s, c, r), (c, r) in s.abandoned;
              && (applied || pending || abandoned || Missed(s, c, r))
              && !(applied && pending) && !(applied && abandoned) && !(pending && abandoned)
              && (Missed(s, c, r) ==> !applied && !pending && !abandoned)
  {
    ReachableInvariant(s);
    assert PairOk(s, c, r);
  }

  /**
    A context is live exactly for the registry, the creation in flight and a removal between delete and cancel; it is
    cancelled once at most.
   */
  lemma ContextLifetime(s: State, c: nat)
    requires Reachable(s)
    ensures Live(s, c) <==> c in Ids(s.clusters) || Outside(s.pc, c)
    ensures s.cancelled[c] <= 1 && (s.cancelled[c] > 0 ==> c in s.started)
  {
    ReachableInvariant(s);
    assert ContextOk(s, c);
  }

  /** Storing never overwrites an entry, and what it stores is live. */
  lemma StoreIsFresh(s: State)
    requires Reachable(s) && Enabled(s, Store)
    ensures s.pc.key !in s.clusters && s.pc.id !in Ids(s.clusters) && Live(s, s.pc.id)
  {
    ReachableInvariant(s);
    assert ContextOk(s, s.pc.id);
  }

  /** An entry the reconcile thread is done with is engaged, except exactly after a failed addon step. */
  lemma EngagedUnlessAddonFailed(s: State, k: Key)
    requires Reachable(s) && k in s.clusters && !Busy(s.pc, k)
    ensures s.clusters[k].id in s.engaged <==> s.clusters[k].id !in s.addonFailed
  {
    ReachableInvariant(s);
  }

  // ---------------------------------------------------------------- the window between applyIndexers and the store

  lemma {:induction false} MissedForever(s: State, labels: seq<Label>, c: nat, r: nat)
    requires Invariant(s) && Missed(s, c, r) && Run(s, labels).Some?
    ensures var t := Run(s, labels).value;
            Missed(t, c, r) && t.applied[(c, r)] == 0 && !PendingPair(t, c, r) && (c, r) !in t.abandoned
    decreases |labels|
  {
    assert PairOk(s, c, r);
    if labels != [] {
      InvariantStep(s, labels[0]);
      MissedForever(Step(s, labels[0]), labels[1..], c, r);
    }
  }

  /** The window is real: a clean creation and a successful IndexField call that leave the index unapplied for good. */
  lemma IndexLostInWindow() returns (labels: seq<Label>, s: State)
    ensures Run(INIT, labels) == Some(s)
    ensures labels == [Ready("a", "h"), Build, ApplyIndexers, Start, Register("i"), Store, AddonOk, Engage, Return(0)]
    ensures s.pc == Idle && s.calls == map[] && "a" in s.clusters && s.clusters["a"].id in s.engaged
    ensures s.indexers == ["i"] && Missed(s, s.clusters["a"].id, 0) && s.applied[(s.clusters["a"].id, 0)] == 0
  {
    labels, s := RaceUntilAddons();
    RunOn(INIT, labels, s, Engage);
    labels, s := labels + [Engage], Step(s, Engage);
    RunOn(INIT, labels, s, Return(0));
    labels, s := labels + [Return(0)], Step(s, Return(0));
  }

  lemma RaceUntilAddons() returns (labels: seq<Label>, s: State)
    ensures Run(INIT, labels) == Some(s)
    ensures labels == [Ready("a", "h"), Build, ApplyIndexers, Start, Register("i"), Store, AddonOk]
    ensures s.pc == Engaging("a", "h", 0) && s.clusters == map["a" := Entry(0, "h")] && s.calls == map[0 := {}]
    ensures s.indexers == ["i"] && Missed(s, 0, 0) && s.applied[(0, 0)] == 0
  {
    labels, s := RaceUntilRegister();
    RunOn(INIT, labels, s, Store);
    labels, s := labels + [Store], Step(s, Store);
    RunOn(INIT, labels, s, AddonOk);
    labels, s := labels + [AddonOk], Step(s, AddonOk);
  }

  lemma RaceUntilRegister() returns (labels: seq<Label>, s: State)
    ensures Run(INIT, labels) == Some(s)
    ensures labels == [Ready("a", "h"), Build, ApplyIndexers, Start, Register("i")]
    ensures s.pc == Started("a", "h", 0) && s.clusters == map[] && s.indexers == ["i"] && s.calls == map[0 := {}]
    ensures s.applied[(0, 0)] == 0 && 0 in s.upto && s.upto[0] == 0
  {
    labels, s := RaceUntilIndexed();
    RunOn(INIT, labels, s, Start);
    labels, s := labels + [Start], Step(s, Start);
    RunOn(INIT, labels, s, Register("i"));
    assert Ids(s.clusters) == {};
    labels, s := labels + [Register("i")], Step(s, Register("i"));
  }

  lemma RaceUntilIndexed() returns (labels: seq<Label>, s: State)
    ensures Run(INIT, labels) == Some(s)
    ensures labels == [Ready("a", "h"), Build, ApplyIndexers]
    ensures s.pc == Indexed("a", "h", 0) && s.clusters == map[] && s.indexers == [] && s.calls == map[]
    ensures s.applied[(0, 0)] == 0 && 0 in s.upto && s.upto[0] == 0 && s.engaged == {}
  {
    var ready := Ready("a", "h");
    labels, s := [ready], Step(INIT, ready);
    RunOn(INIT, [], INIT, ready);
    assert [] + [ready] == labels;
    RunOn(INIT, labels, s, Build);
    labels, s := labels + [Build], Step(s, Build);
    RunOn(INIT, labels, s, ApplyIndexers);
    labels, s := labels + [ApplyIndexers], Step(s, ApplyIndexers);
    assert (0, 0) !in Applications(0, 0);
  }

  // ---------------------------------------------------------------- an entry left unengaged

  ghost predicate Unengaged(s: State, k: Key, h: Hash, c: nat) {
    k in s.clusters && s.clusters[k] == Entry(c, h) && c !in s.engaged && !Busy(s.pc, k)
  }

  /** The passes that let go of an entry: its MCP is gone, or its kubeconfig hashes differently. */
  predicate Releases(l: Label, k: Key, h: Hash) {
    l == Gone(k) || (l.Ready? && l.key == k && l.hash != h)
  }

  lemma UnengagedStepIndexField(s: State, l: Label, k: Key, h: Hash, c: nat)
    requires Enabled(s, l) && Unengaged(s, k, h, c) && ByIndexField(l)
    ensures Unengaged(Step(s, l), k, h, c)
  {
  }

  lemma UnengagedStepReconcile(s: State, l: Label, k: Key, h: Hash, c: nat)
    requires Registry(s) && Enabled(s, l) && Unengaged(s, k, h, c) && !Releases(l, k, h) && !ByIndexField(l)
    ensures Unengaged(Step(s, l), k, h, c)
  {
    if l.Gone? || l.Ready? {
      UnengagedPassBegins(s, l, k, h, c);
    } else if l.Delete? || l.Store? {
      UnengagedRegistryStep(s, l, k, h, c);
    }
  }

  lemma UnengagedPassBegins(s: State, l: Label, k: Key, h: Hash, c: nat)
    requires Enabled(s, l) && Unengaged(s, k, h, c) && !Releases(l, k, h) && (l.Gone? || l.Ready?)
    ensures Unengaged(Step(s, l), k, h, c)
  {
  }

  lemma UnengagedRegistryStep(s: State, l: Label, k: Key, h: Hash, c: nat)
    requires Registry(s) && Enabled(s, l) && Unengaged(s, k, h, c) && (l.Delete? || l.Store?)
    ensures Unengaged(Step(s, l), k, h, c)
  {
  }

  lemma UnengagedStep(s: State, l: Label, k: Key, h: Hash, c: nat)
    requires Registry(s) && Enabled(s, l) && Unengaged(s, k, h, c) && !Releases(l, k, h)
    ensures Unengaged(Step(s, l), k, h, c)
  {
    if ByIndexField(l) { UnengagedStepIndexField(s, l, k, h, c); } else { UnengagedStepReconcile(s, l, k, h, c); }
  }

  /** A failed addon step leaves the entry behind, and no later run engages it or drops it before a releasing pass. */
  lemma {:induction false} UnengagedUntilReleased(s: State, labels: seq<Label>, k: Key, h: Hash, c: nat)
    requires Invariant(s) && Unengaged(s, k, h, c) && Run(s, labels).Some?
    requires forall l :: l in labels ==> !Releases(l, k, h)
    ensures Unengaged(Run(s, labels).value, k, h, c)
    decreases |labels|
  {
    if labels != [] {
      InvariantStep(s, labels[0]);
      UnengagedStep(s, labels[0], k, h, c);
      UnengagedUntilReleased(Step(s, labels[0]), labels[1..], k, h, c);
    }
  }

  lemma AddonFailureLeavesUnengaged(s: State)
    requires Invariant(s) && Enabled(s, AddonFails)
    ensures Unengaged(Step(s, AddonFails), s.pc.key, s.pc.hash, s.pc.id)
  {
  }

  /** A run that leaves an entry so: a clean creation up to the addon step. */
  lemma AddonFailureRun() returns (labels: seq<Label>, s: State)
    ensures labels == [Ready("a", "h"), Build, ApplyIndexers, Start, Store, AddonFails]
    ensures Run(INIT, labels) == Some(s) && s.pc.Idle? && Unengaged(s, "a", "h", 0)
  {
    labels, s := RaceUntilIndexed();
    RunOn(INIT, labels, s, Start);
    labels, s := labels + [Start], Step(s, Start);
    RunOn(INIT, labels, s, Store);
    labels, s := labels + [Store], Step(s, Store);
    RunOn(INIT, labels, s, AddonFails);
    labels, s := labels + [AddonFails], Step(s, AddonFails);
  }
}
