/**
  The provider's code. Its two fields are updated as the program updates them, one critical section at a time; between
  any two of them other threads run (`OtherCalls` for the reconcile thread, `OtherThreads` for an IndexField call).
  `state` and `trace` record the run of the transition system taken so far, by everybody; only the steps of other
  threads look at `state`. What other components return (the MCP read, the kubeconfig, the version probe, cache sync,
  and so on) are parameters.
 */
module Provider {
  import opened Optional
  import opened ProviderModel
  import opened ProviderProofs
  import opened ProviderPass

  /** The MCP read, with what the readiness test and the kubeconfig read would return on the object found. */
  datatype Read = Failed | NotFound | Found(deleting: bool, ready: bool, kubeconfig: Option<Hash>)

  /**
    The answers of the calls made while a cluster is created; `badIndex` is the number of the index that is refused.
   */
  datatype World = World(parses: bool, answers: bool, builds: bool, badIndex: Option<nat>, syncs: bool, addon: bool,
                         engages: bool)

  datatype Result = Done | Requeue | Error

  /** The cluster registered under a key, once, if there is one. */
  ghost function HeldBy(clusters: map<Key, Entry>, key: Key): multiset<nat> {
    if key in clusters then multiset{clusters[key].id} else multiset{}
  }

  predicate IndexRefused(w: World, indexers: nat) {
    w.badIndex.Some? && w.badIndex.value < indexers
  }

  class Provider {
    var clusters: map<Key, Entry>
    var indexers: seq<Index>
    var state: State
    ghost var trace: seq<Label>
    // the clusters made by NewCluster, and the calls made to other components
    var built: nat
    var applied: multiset<(nat, nat)>
    var started: set<nat>
    var cancelled: multiset<nat>
    var engaged: set<nat>

    ghost predicate Valid()
      reads this
    {
      && Taken()
      && state.clusters == clusters && state.indexers == indexers && state.built == built
      && state.applied == applied && state.started == started
      && state.cancelled == cancelled && state.engaged == engaged
    }

    ghost predicate Taken()
      reads this`state, this`trace
    {
      Run(INIT, trace) == Some(state)
    }

    /** The steps taken since an earlier state; none of them begins another pass. */
    twostate predicate Continued(steps: seq<Label>)
      reads this`trace
    {
      trace == old(trace) + steps && forall l :: l in steps ==> !Begins(l)
    }

    constructor ()
      ensures Valid() && state == INIT
    {
      clusters, indexers, state, trace := map[], [], INIT, [];
      built, applied, started, cancelled, engaged := 0, multiset{}, {}, multiset{}, {};
    }

    /** Get: the cluster registered under this name, which is live. */
    method Get(key: Key) returns (found: Option<nat>)
      requires Valid()
      ensures found == if key in clusters then Some(clusters[key].id) else None
      ensures found.Some? ==> Live(state, found.value)
    {
      found := if key in clusters then Some(clusters[key].id) else None;
      if found.Some? {
        ContextLifetime(state, found.value);
      }
    }

    /** ListClusters. */
    method ListClusters() returns (names: set<Key>)
      requires Valid()
      ensures names == Hashes(clusters).Keys
    {
      names := clusters.Keys;
    }

    method Take(l: Label)
      requires Taken() && Enabled(state, l)
      modifies this`state, this`trace
      ensures Taken() && state == Step(old(state), l) && trace == old(trace) + [l]
    {
      RunOn(INIT, trace, state, l);
      state, trace := Step(state, l), trace + [l];
    }

    // -------------------------------------------------------------- other threads

    /** Any steps of IndexField calls, new ones included, while the reconcile thread is between two steps of its own. */
    method OtherCalls() returns (ghost more: seq<Label>)
      requires Valid()
      modifies this`indexers, this`applied, this`state, this`trace
      ensures Valid() && state.pc == old(state).pc && old(indexers) <= indexers
      ensures Continued(more) && !Dropped(more)
    {
      more := [];
      var n: nat := *;
      while n > 0
        invariant Valid() && state.pc == old(state).pc && old(indexers) <= indexers
        invariant trace == old(trace) + more && forall l :: l in more ==> ByIndexField(l)
      {
        var l: Label := *;
        if ByIndexField(l) && Enabled(state, l) {
          OtherCall(l);
          more := more + [l];
        }
        n := n - 1;
      }
    }

    method OtherCall(l: Label)
      requires Valid() && ByIndexField(l) && Enabled(state, l)
      modifies this`indexers, this`applied, this`state, this`trace
      ensures Valid() && state.pc == old(state).pc && old(indexers) <= indexers && trace == old(trace) + [l]
    {
      Take(l);
      indexers, applied := state.indexers, state.applied;
    }

    /** Any steps of the reconcile thread and of IndexField calls other than the one that made registration `reg`. */
    method OtherThreads(reg: nat)
      requires Valid() && reg in state.calls
      modifies this
      ensures Valid() && Since(reg, old(trace), old(indexers), old(applied), old(state).calls[reg])
    {
      var n: nat := *;
      while n > 0
        invariant Valid() && Since(reg, old(trace), old(indexers), old(applied), old(state).calls[reg])
      {
        var l: Label := *;
        if Enabled(state, l) && !OfCall(l, reg) { OtherThread(l, reg); }
        n := n - 1;
      }
    }

    /**
      What other threads leave alone: nothing is unregistered, no application undone, and the call's clone is its own.
     */
    ghost predicate Since(reg: nat, t: seq<Label>, ixs: seq<Index>, done: multiset<(nat, nat)>, pending: set<nat>)
      reads this
    {
      t <= trace && ixs <= indexers && done <= applied && reg in state.calls && state.calls[reg] == pending
    }

    method OtherThread(l: Label, reg: nat)
      requires Valid() && Enabled(state, l) && !OfCall(l, reg) && reg in state.calls
      modifies this
      ensures Valid() && Since(reg, old(trace), old(indexers), old(applied), old(state).calls[reg])
    {
      RegistrationsGrow(state, l);
      OthersKeepCall(state, l, reg);
      Take(l);
      clusters, indexers, built, applied := state.clusters, state.indexers, state.built, state.applied;
      started, cancelled, engaged := state.started, state.cancelled, state.engaged;
    }

    // -------------------------------------------------------------- the reconcile thread

    /** removeCluster: delete under the lock, cancel after it. */
    method RemoveCluster(key: Key, ghost next: Next) returns (ghost steps: seq<Label>)
      requires Valid() && state.pc == Deleting(key, next)
      modifies this`clusters, this`cancelled, this`indexers, this`applied, this`state, this`trace
      ensures Valid() && state.pc == Resume(next) && Continued(steps) && !Dropped(steps)
      ensures clusters == old(clusters) - {key} && old(indexers) <= indexers
      ensures cancelled == old(cancelled) + HeldBy(old(clusters), key)
    {
      steps := OtherCalls();
      var ac := DeleteEntry(key, next);
      steps := steps + [Delete];
      if ac.Some? {
        ghost var more := CancelContext(ac.value.id, next);
        steps := steps + more;
      }
    }

    /** The critical section: the entry is taken out, if there is one. */
    method DeleteEntry(key: Key, ghost next: Next) returns (ac: Option<Entry>)
      requires Valid() && state.pc == Deleting(key, next)
      modifies this`clusters, this`state, this`trace
      ensures Valid() && clusters == old(clusters) - {key} && trace == old(trace) + [Delete]
      ensures ac == if key in old(clusters) then Some(old(clusters)[key]) else None
      ensures state.pc == if ac.Some? then Cancelling(ac.value.id, next) else Resume(next)
    {
      ac := if key in clusters then Some(clusters[key]) else None;
      clusters := clusters - {key};
      Take(Delete);
    }

    method CancelContext(id: nat, ghost next: Next) returns (ghost steps: seq<Label>)
      requires Valid() && state.pc == Cancelling(id, next)
      modifies this`cancelled, this`indexers, this`applied, this`state, this`trace
      ensures Valid() && state.pc == Resume(next) && Continued(steps) && !Dropped(steps)
      ensures cancelled == old(cancelled) + multiset{id} && old(indexers) <= indexers
    {
      steps := OtherCalls();
      cancelled := cancelled + multiset{id};
      Take(Cancel);
      steps := steps + [Cancel];
    }

    /** The loop of applyIndexers: every registered index, in order, until one is refused. */
    method ApplyEach(id: nat, badIndex: Option<nat>) returns (done: nat)
      modifies this`applied
      ensures done == if badIndex.Some? && badIndex.value < |indexers| then badIndex.value else |indexers|
      ensures applied == old(applied) + multiset(Applications(id, done))
    {
      done := 0;
      assert Applications(id, 0) == {};
      while done < |indexers| && badIndex != Some(done)
        invariant done <= |indexers| && (badIndex.Some? ==> done <= badIndex.value)
        invariant applied == old(applied) + multiset(Applications(id, done))
      {
        assert Applications(id, done + 1) == Applications(id, done) + {(id, done)};
        applied := applied + multiset{(id, done)};
        done := done + 1;
      }
    }

    /** applyIndexers, under the read lock. */
    method ApplyIndexers(id: nat, badIndex: Option<nat>) returns (ok: bool)
      requires Valid() && state.pc.Built? && state.pc.id == id
      modifies this`applied, this`state, this`trace
      ensures Valid()
      ensures ok <==> badIndex.None? || badIndex.value >= |indexers|
      ensures state.pc == if ok then Indexed(old(state).pc.key, old(state).pc.hash, id) else Idle
      ensures Continued([if ok then Label.ApplyIndexers else ApplyIndexersFails(badIndex.value)])
    {
      var done := ApplyEach(id, badIndex);
      ok := done == |indexers|;
      Take(if ok then Label.ApplyIndexers else ApplyIndexersFails(done));
    }

    /** createAndEngageCluster up to NewCluster. */
    method NewCluster(key: Key, hash: Hash, builds: bool) returns (cl: nat, ghost steps: seq<Label>)
      requires Valid() && state.pc == Fresh(key, hash)
      modifies this`built, this`indexers, this`applied, this`state, this`trace
      ensures Valid() && old(indexers) <= indexers && Continued(steps) && cl == old(built)
      ensures state.pc == (if builds then Built(key, hash, cl) else Idle) && (Dropped(steps) <==> !builds)
    {
      steps := OtherCalls();
      cl := built;
      if builds {
        built := built + 1;
        Take(Build);
        steps := steps + [Build];
      } else {
        Take(GiveUp);
        steps := steps + [GiveUp];
        assert GiveUp in steps;
      }
    }

    /** createAndEngageCluster up to the field indexers; `seen` is how many there were when they were applied. */
    method Prepare(key: Key, hash: Hash, w: World) returns (ok: bool, cl: nat, ghost seen: nat, ghost steps: seq<Label>)
      requires Valid() && state.pc == Fresh(key, hash)
      modifies this`built, this`indexers, this`applied, this`state, this`trace
      ensures Valid() && old(indexers) <= indexers && Continued(steps) && cl == old(built)
      ensures |old(indexers)| <= seen <= |indexers|
      ensures ok <==> w.builds && !IndexRefused(w, seen)
      ensures state.pc == (if ok then Indexed(key, hash, cl) else Idle) && (Dropped(steps) <==> !ok)
    {
      cl, steps := NewCluster(key, hash, w.builds);
      seen := |indexers|;
      if !w.builds {
        return false, cl, seen, steps;
      }
      ghost var more := OtherCalls();
      seen := |indexers|;
      ok := ApplyIndexers(cl, w.badIndex);
      ghost var last := if ok then Label.ApplyIndexers else ApplyIndexersFails(w.badIndex.value);
      DroppedConcat(steps + more, [last]);
      DroppedConcat(steps, more);
      assert last in [last];
      steps := steps + more + [last];
    }

    /** createAndEngageCluster: create the context, spawn Start, wait for the cache. */
    method Launch(key: Key, hash: Hash, cl: nat, syncs: bool) returns (ghost steps: seq<Label>)
      requires Valid() && state.pc == Indexed(key, hash, cl)
      modifies this`started, this`cancelled, this`indexers, this`applied, this`state, this`trace
      ensures Valid() && old(indexers) <= indexers && Continued(steps)
      ensures state.pc == (if syncs then Started(key, hash, cl) else Idle) && (Dropped(steps) <==> !syncs)
      ensures started == old(started) + {cl}
      ensures cancelled == if syncs then old(cancelled) else old(cancelled) + multiset{cl}
    {
      steps := StartCluster(key, hash, cl);
      if !syncs {
        ghost var more := Unsynced(key, hash, cl);
        steps := steps + more;
        assert SyncFails in steps;
      }
    }

    method StartCluster(key: Key, hash: Hash, cl: nat) returns (ghost steps: seq<Label>)
      requires Valid() && state.pc == Indexed(key, hash, cl)
      modifies this`started, this`indexers, this`applied, this`state, this`trace
      ensures Valid() && old(indexers) <= indexers && Continued(steps) && !Dropped(steps)
      ensures state.pc == Started(key, hash, cl) && started == old(started) + {cl}
    {
      steps := OtherCalls();
      started := started + {cl};
      Take(Start);
      steps := steps + [Start];
    }

    method Unsynced(key: Key, hash: Hash, cl: nat) returns (ghost steps: seq<Label>)
      requires Valid() && state.pc == Started(key, hash, cl)
      modifies this`cancelled, this`indexers, this`applied, this`state, this`trace
      ensures Valid() && old(indexers) <= indexers && Continued(steps) && SyncFails in steps && state.pc == Idle
      ensures cancelled == old(cancelled) + multiset{cl}
    {
      steps := OtherCalls();
      cancelled := cancelled + multiset{cl};
      Take(SyncFails);
      steps := steps + [SyncFails];
    }

    /** createAndEngageCluster: store under the lock. */
    method StoreCluster(key: Key, hash: Hash, cl: nat) returns (ghost steps: seq<Label>)
      requires Valid() && state.pc == Started(key, hash, cl)
      modifies this`clusters, this`indexers, this`applied, this`state, this`trace
      ensures Valid() && clusters == old(clusters)[key := Entry(cl, hash)] && old(indexers) <= indexers
      ensures state.pc == Stored(key, hash, cl) && Continued(steps) && !Dropped(steps)
    {
      steps := OtherCalls();
      clusters := clusters[key := Entry(cl, hash)];
      Take(Store);
      steps := steps + [Store];
    }

    /** createAndEngageCluster: the addon step. */
    method ReconcileAddons(key: Key, hash: Hash, cl: nat, addon: bool) returns (ghost steps: seq<Label>)
      requires Valid() && state.pc == Stored(key, hash, cl)
      modifies this`indexers, this`applied, this`state, this`trace
      ensures Valid() && old(indexers) <= indexers && Continued(steps) && !Dropped(steps)
      ensures state.pc == if addon then Engaging(key, hash, cl) else Idle
    {
      steps := OtherCalls();
      Take(if addon then AddonOk else AddonFails);
      steps := steps + [if addon then AddonOk else AddonFails];
    }

    /** createAndEngageCluster: Engage, and the removal when it fails. */
    method EngageOrRemove(key: Key, hash: Hash, cl: nat, engages: bool) returns (ghost steps: seq<Label>)
      requires Valid() && state.pc == Engaging(key, hash, cl) && key in clusters && clusters[key].id == cl
      modifies this`clusters, this`cancelled, this`engaged, this`indexers, this`applied, this`state, this`trace
      ensures Valid() && state.pc.Idle? && old(indexers) <= indexers && Continued(steps)
      ensures clusters == if engages then old(clusters) else old(clusters) - {key}
      ensures engaged == if engages then old(engaged) + {cl} else old(engaged)
      ensures cancelled == if engages then old(cancelled) else old(cancelled) + multiset{cl}
      ensures Dropped(steps) <==> !engages
    {
      steps := EngageCluster(key, hash, cl, engages);
      if !engages {
        ghost var more := RemoveCluster(key, Finish);
        DroppedConcat(steps, more);
        steps := steps + more;
      }
    }

    method EngageCluster(key: Key, hash: Hash, cl: nat, engages: bool) returns (ghost steps: seq<Label>)
      requires Valid() && state.pc == Engaging(key, hash, cl)
      modifies this`engaged, this`indexers, this`applied, this`state, this`trace
      ensures Valid() && old(indexers) <= indexers && Continued(steps) && (Dropped(steps) <==> !engages)
      ensures state.pc == if engages then Idle else Deleting(key, Finish)
      ensures engaged == if engages then old(engaged) + {cl} else old(engaged)
    {
      steps := OtherCalls();
      if engages { engaged := engaged + {cl}; }
      ghost var l := if engages then Engage else EngageFails;
      Take(if engages then Engage else EngageFails);
      steps := steps + [l];
      assert l in steps;
    }

    method StoreAndAddons(key: Key, hash: Hash, cl: nat, addon: bool) returns (ghost steps: seq<Label>)
      requires Valid() && state.pc == Started(key, hash, cl)
      modifies this`clusters, this`indexers, this`applied, this`state, this`trace
      ensures Valid() && clusters == old(clusters)[key := Entry(cl, hash)] && old(indexers) <= indexers
      ensures state.pc == (if addon then Engaging(key, hash, cl) else Idle) && Continued(steps) && !Dropped(steps)
    {
      steps := StoreCluster(key, hash, cl);
      ghost var more := ReconcileAddons(key, hash, cl, addon);
      DroppedConcat(steps, more);
      steps := steps + more;
    }

    /** createAndEngageCluster from the store on. */
    method Publish(key: Key, hash: Hash, cl: nat, w: World) returns (ok: bool, ghost steps: seq<Label>)
      requires Valid() && state.pc == Started(key, hash, cl) && key !in clusters
      modifies this`clusters, this`cancelled, this`engaged, this`indexers, this`applied, this`state, this`trace
      ensures Valid() && state.pc.Idle? && old(indexers) <= indexers && Continued(steps)
      ensures clusters == if w.addon && !w.engages then old(clusters) else old(clusters)[key := Entry(cl, hash)]
      ensures engaged == if ok then old(engaged) + {cl} else old(engaged)
      ensures cancelled == if w.addon && !w.engages then old(cancelled) + multiset{cl} else old(cancelled)
      ensures Dropped(steps) <==> w.addon && !w.engages
      ensures ok <==> w.addon && w.engages
    {
      steps := StoreAndAddons(key, hash, cl, w.addon);
      ok := w.addon && w.engages;
      if w.addon {
        ghost var more := EngageOrRemove(key, hash, cl, w.engages);
        DroppedConcat(steps, more);
        steps := steps + more;
        assert old(clusters)[key := Entry(cl, hash)] - {key} == old(clusters);
      }
    }

    method CreateAndEngage(key: Key, hash: Hash, w: World) returns (ok: bool, ghost seen: nat, ghost steps: seq<Label>)
      requires Valid() && state.pc == Fresh(key, hash) && key !in clusters
      modifies this
      ensures Valid() && state.pc.Idle? && old(indexers) <= indexers && Continued(steps)
      ensures |old(indexers)| <= seen <= |indexers|
      ensures Dropped(steps) <==> !w.builds || IndexRefused(w, seen) || !w.syncs || (w.addon && !w.engages)
      ensures clusters == if Dropped(steps) then old(clusters) else old(clusters)[key := Entry(old(built), hash)]
      ensures ok <==> !Dropped(steps) && w.addon
      ensures engaged == if ok then old(engaged) + {old(built)} else old(engaged)
      ensures started == if w.builds && !IndexRefused(w, seen) then old(started) + {old(built)} else old(started)
      ensures cancelled == if w.builds && !IndexRefused(w, seen) && Dropped(steps)
                           then old(cancelled) + multiset{old(built)} else old(cancelled)
    {
      var cl;
      ghost var more;
      ok, cl, seen, steps := Prepare(key, hash, w);
      if !ok { return; }
      more := Launch(key, hash, cl, w.syncs);
      DroppedConcat(steps, more);
      steps := steps + more;
      if !w.syncs { return false, seen, steps; }
      ok, more := Publish(key, hash, cl, w);
      DroppedConcat(steps, more);
      steps := steps + more;
    }

    /** Reconcile: one pass, to its end, amid IndexField calls; `seen` of their registrations met the new cluster. */
    method Reconcile(key: Key, read: Read, w: World) returns (result: Result, ghost seen: nat, ghost steps: seq<Label>)
      requires Valid() && state.pc.Idle?
      modifies this
      ensures Valid() && state.pc.Idle? && old(indexers) <= indexers && |old(indexers)| <= seen <= |indexers|
      ensures trace == old(trace) + steps && steps != []
      ensures clusters - {key} == old(clusters) - {key}
      // which pass it is
      ensures steps[0] == Gone(key) <==> read.NotFound? || (read.Found? && read.deleting)
      ensures forall h :: steps[0] == Ready(key, h) <==>
                            read.Found? && !read.deleting && read.ready && read.kubeconfig == Some(h)
      // gone, or being deleted: removed and cancelled
      ensures read.NotFound? || (read.Found? && read.deleting) ==>
                && result == Done && key !in clusters && engaged == old(engaged) && started == old(started)
                && cancelled == old(cancelled) +
                   if key in old(clusters) then multiset{old(clusters)[key].id} else multiset{}
      // not to be acted on: nothing changes
      ensures read.Failed? ==> result == Error && Untouched()
      ensures read.Found? && !read.deleting && !read.ready ==> result == Requeue && Untouched()
      ensures read.Found? && !read.deleting && read.ready && read.kubeconfig.None? ==> result == Error && Untouched()
      // ready: kept, or made anew
      ensures read.Found? && !read.deleting && read.ready && read.kubeconfig.Some? ==>
                if key in old(clusters) && old(clusters)[key].hash == read.kubeconfig.value
                then result == Done && Untouched()
                else MadeAnew(key, read.kubeconfig.value, w, seen, result)
    {
      seen := |indexers|;
      if read.Failed? {
        Take(Skip);
        return Error, seen, [Skip];
      }
      if read.NotFound? || read.deleting {
        steps := RemoveGone(key);
        return Done, seen, steps;
      }
      if !read.ready || read.kubeconfig.None? {
        Take(Skip);
        return if read.ready then Error else Requeue, seen, [Skip];
      }
      result, seen, steps := ReconcileReady(key, read.kubeconfig.value, w);
    }

    /** Nothing is removed, created, engaged or cancelled. */
    twostate predicate Untouched()
      reads this
    {
      && clusters == old(clusters) && built == old(built) && started == old(started)
      && cancelled == old(cancelled) && engaged == old(engaged)
    }

    /**
      What a pass leaves that found no cluster for key, or one of another hash. The old one has been cancelled. The new
      one is in the registry exactly if its creation got as far as the store and its engagement, if tried, succeeded;
      whatever was started and is not there has been cancelled.
     */
    twostate predicate MadeAnew(key: Key, hash: Hash, w: World, seen: nat, result: Result)
      reads this
    {
      var reached := w.parses && w.answers;
      var launched := reached && w.builds && !IndexRefused(w, seen);
      && (key in clusters <==> launched && w.syncs && (w.addon ==> w.engages))
      && (key in clusters ==> clusters[key] == Entry(old(built), hash))
      && (result == Done <==> launched && w.syncs && w.addon && w.engages)
      && (result == Requeue <==> w.parses && !w.answers)
      && engaged == old(engaged) + (if result == Done then {old(built)} else {})
      && started == old(started) + (if launched then {old(built)} else {})
      && cancelled == old(cancelled) + HeldBy(old(clusters), key)
                      + (if launched && key !in clusters then multiset{old(built)} else multiset{})
    }

    /** Reconcile, for an MCP that is gone or being deleted. */
    method RemoveGone(key: Key) returns (ghost steps: seq<Label>)
      requires Valid() && state.pc.Idle?
      modifies this`clusters, this`cancelled, this`indexers, this`applied, this`state, this`trace
      ensures Valid() && state.pc.Idle? && old(indexers) <= indexers
      ensures trace == old(trace) + steps && steps != [] && steps[0] == Gone(key)
      ensures clusters == old(clusters) - {key} && cancelled == old(cancelled) + HeldBy(old(clusters), key)
    {
      Take(Gone(key));
      steps := RemoveCluster(key, Finish);
      steps := [Gone(key)] + steps;
    }

    /** Reconcile, for a ready MCP whose kubeconfig could be read. */
    method ReconcileReady(key: Key, hash: Hash, w: World)
      returns (result: Result, ghost seen: nat, ghost steps: seq<Label>)
      requires Valid() && state.pc.Idle?
      modifies this
      ensures Valid() && state.pc.Idle? && old(indexers) <= indexers && |old(indexers)| <= seen <= |indexers|
      ensures trace == old(trace) + steps && steps != [] && steps[0] == Ready(key, hash)
      ensures clusters - {key} == old(clusters) - {key}
      ensures if key in old(clusters) && old(clusters)[key].hash == hash then result == Done && Untouched()
              else MadeAnew(key, hash, w, seen, result)
    {
      var known := key in clusters && clusters[key].hash == hash;
      steps := BeginReady(key, hash);
      seen := |indexers|;
      if known {
        return Done, seen, steps;
      }
      ghost var more;
      result, seen, more := Create(key, hash, w);
      steps := steps + more;
    }

    /** Reconcile from the kubeconfig parse on. */
    method Create(key: Key, hash: Hash, w: World) returns (result: Result, ghost seen: nat, ghost steps: seq<Label>)
      requires Valid() && state.pc == Fresh(key, hash) && key !in clusters
      modifies this
      ensures Valid() && state.pc.Idle? && old(indexers) <= indexers && |old(indexers)| <= seen <= |indexers|
      ensures trace == old(trace) + steps && clusters - {key} == old(clusters)
      ensures MadeAnew(key, hash, w, seen, result)
    {
      if !w.parses || !w.answers {
        steps := Abandon(key, hash);
        return if w.parses then Requeue else Error, |indexers|, steps;
      }
      var ok;
      ok, seen, steps := CreateAndEngage(key, hash, w);
      result := if ok then Done else Error;
    }

    /** Reconcile, when the kubeconfig does not parse or the API server does not answer. */
    method Abandon(key: Key, hash: Hash) returns (ghost steps: seq<Label>)
      requires Valid() && state.pc == Fresh(key, hash)
      modifies this`indexers, this`applied, this`state, this`trace
      ensures Valid() && state.pc.Idle? && old(indexers) <= indexers && trace == old(trace) + steps
    {
      steps := OtherCalls();
      Take(GiveUp);
      steps := steps + [GiveUp];
    }

    /** Reconcile: look the key up under the read lock, and remove a cluster whose kubeconfig changed. */
    method BeginReady(key: Key, hash: Hash) returns (ghost steps: seq<Label>)
      requires Valid() && state.pc.Idle?
      modifies this`clusters, this`cancelled, this`indexers, this`applied, this`state, this`trace
      ensures Valid() && old(indexers) <= indexers
      ensures trace == old(trace) + steps && steps != [] && steps[0] == Ready(key, hash)
      ensures var known := key in old(clusters) && old(clusters)[key].hash == hash;
              && clusters == (if known then old(clusters) else old(clusters) - {key})
              && state.pc == (if known then Idle else Fresh(key, hash))
              && cancelled == if known then old(cancelled) else old(cancelled) + HeldBy(old(clusters), key)
    {
      var found := key in clusters;
      var changed := found && clusters[key].hash != hash;
      Take(Ready(key, hash));
      steps := [Ready(key, hash)];
      if changed {
        ghost var more := RemoveCluster(key, Recreate(key, hash));
        steps := steps + more;
      } else if !found {
        assert clusters - {key} == clusters;
      }
    }

    // -------------------------------------------------------------- IndexField

    /** IndexField: save the index and clone the registry under the lock. */
    method RegisterIndex(index: Index) returns (snapshot: map<Key, Entry>)
      requires Valid()
      modifies this`indexers, this`state, this`trace
      ensures Valid() && clusters == snapshot && indexers == old(indexers) + [index]
      ensures trace == old(trace) + [Register(index)]
      ensures |old(indexers)| in state.calls && state.calls[|old(indexers)|] == Ids(snapshot)
      ensures DistinctIds(snapshot)
    {
      ReachableInvariant(state);
      indexers := indexers + [index];
      snapshot := clusters;
      Take(Register(index));
    }

    /** IndexField: one application of the loop over the clone. */
    method IndexOn(reg: nat, ac: Entry, ok: bool)
      requires Valid() && reg in state.calls && ac.id in state.calls[reg]
      modifies this`applied, this`state, this`trace
      ensures Valid() && old(trace) <= trace
      ensures ok ==> applied == old(applied) + multiset{(ac.id, reg)} && applied[(ac.id, reg)] == 1
      ensures ok ==> reg in state.calls && state.calls[reg] == old(state).calls[reg] - {ac.id}
      ensures !ok ==> applied == old(applied) && reg !in state.calls
      ensures !ok ==> forall c :: c in old(state).calls[reg] ==> (c, reg) in state.abandoned && applied[(c, reg)] == 0
    {
      PendingNotApplied(state, reg);
      if ok { applied := applied + multiset{(ac.id, reg)}; }
      Take(if ok then ApplyOne(reg, ac.id) else FailOne(reg, ac.id));
    }

    /**
      IndexField, amid everybody else; `refuse` are the clusters that return an error. The clusters in `done` have the
      index, once; the others of the clone do not, and the call has given them up.
     */
    method IndexField(index: Index, refuse: set<nat>) returns (ok: bool, ghost done: set<nat>)
      requires Valid()
      modifies this
      ensures Valid() && old(indexers) + [index] <= indexers && old(trace) + [Register(index)] <= trace
      ensures ok <==> Ids(old(clusters)) !! refuse
      ensures done <= Ids(old(clusters)) && done !! refuse && (ok ==> done == Ids(old(clusters)))
      ensures forall c :: c in Ids(old(clusters)) ==> applied[(c, |old(indexers)|)] == if c in done then 1 else 0
      ensures forall c :: c in Ids(old(clusters)) - done ==> (c, |old(indexers)|) in state.abandoned
    {
      var reg := |indexers|;
      var snapshot := RegisterIndex(index);
      ok, done := IndexEach(reg, snapshot, refuse);
    }

    /** IndexField: the loop over the clone, in map order, until a cluster refuses. */
    method IndexEach(reg: nat, snapshot: map<Key, Entry>, refuse: set<nat>) returns (ok: bool, ghost done: set<nat>)
      requires Valid() && DistinctIds(snapshot) && reg in state.calls && state.calls[reg] == Ids(snapshot)
      modifies this
      ensures Valid() && old(indexers) <= indexers && old(trace) <= trace
      ensures ok <==> Ids(snapshot) !! refuse
      ensures done <= Ids(snapshot) && done !! refuse && (ok ==> done == Ids(snapshot))
      ensures forall c :: c in Ids(snapshot) ==> applied[(c, reg)] == if c in done then 1 else 0
      ensures forall c :: c in Ids(snapshot) - done ==> (c, reg) in state.abandoned
    {
      var names := snapshot.Keys;
      while names != {}
        invariant Valid() && old(indexers) <= indexers && old(trace) <= trace
        invariant names <= snapshot.Keys && reg in state.calls && state.calls[reg] == IdsUnder(snapshot, names)
        invariant forall c :: c in Ids(snapshot) - IdsUnder(snapshot, names) ==> applied[(c, reg)] == 1 && c !in refuse
        decreases names
      {
        var name :| name in names;
        var ac := snapshot[name];
        IndexNext(reg, ac, ac.id !in refuse);
        if ac.id in refuse {
          return false, Ids(snapshot) - IdsUnder(snapshot, names);
        }
        IdsUnderLess(snapshot, names, name);
        names := names - {name};
      }
      ok, done := true, Ids(snapshot);
      Leave(reg);
    }

    method Leave(reg: nat)
      requires Valid() && reg in state.calls && state.calls[reg] == {}
      modifies this`state, this`trace
      ensures Valid() && old(trace) <= trace
    {
      Take(Return(reg));
    }

    /** IndexField: others run, and then the next application. */
    method IndexNext(reg: nat, ac: Entry, ok: bool)
      requires Valid() && reg in state.calls && ac.id in state.calls[reg]
      modifies this
      ensures Valid() && old(indexers) <= indexers && old(trace) <= trace && old(applied) <= applied
      ensures forall c :: applied[(c, reg)] <= 1
      ensures ok ==>
                && applied[(ac.id, reg)] == 1 && reg in state.calls
                && state.calls[reg] == old(state).calls[reg] - {ac.id}
      ensures !ok ==> forall c :: c in old(state).calls[reg] ==> (c, reg) in state.abandoned && applied[(c, reg)] == 0
    {
      OtherThreads(reg);
      IndexOn(reg, ac, ok);
      AtMostOnce(reg);
    }

    lemma AtMostOnce(reg: nat)
      requires Valid()
      ensures forall c :: applied[(c, reg)] <= 1
    {
      forall c: nat
        ensures applied[(c, reg)] <= 1
      {
        IndexAccounting(state, c, reg);
      }
    }
  }

  /** The steps that are an IndexField call's own, after its registration. */
  predicate OfCall(l: Label, reg: nat) {
    (l.ApplyOne? || l.FailOne? || l.Return?) && l.reg == reg
  }

  lemma RegistrationsGrow(s: State, l: Label)
    requires Enabled(s, l)
    ensures s.indexers <= Step(s, l).indexers && s.applied <= Step(s, l).applied
  {
  }

  lemma OthersKeepCall(s: State, l: Label, reg: nat)
    requires Reachable(s) && Enabled(s, l) && !OfCall(l, reg) && reg in s.calls
    ensures reg in Step(s, l).calls && Step(s, l).calls[reg] == s.calls[reg]
  {
    ReachableInvariant(s);
  }

  lemma PendingNotApplied(s: State, reg: nat)
    requires Reachable(s) && reg in s.calls
    ensures forall c :: c in s.calls[reg] ==> s.applied[(c, reg)] == 0
  {
    ReachableInvariant(s);
    forall c | c in s.calls[reg]
      ensures s.applied[(c, reg)] == 0
    {
      assert PairOk(s, c, reg);
    }
  }

  ghost function IdsUnder(clusters: map<Key, Entry>, names: set<Key>): set<nat> {
    set k | k in names && k in clusters :: clusters[k].id
  }

  lemma IdsUnderLess(clusters: map<Key, Entry>, names: set<Key>, name: Key)
    requires DistinctIds(clusters) && names <= clusters.Keys && name in names
    ensures IdsUnder(clusters, names - {name}) == IdsUnder(clusters, names) - {clusters[name].id}
  {
  }

  ghost predicate DistinctIds(clusters: map<Key, Entry>) {
    forall k, k' :: k in clusters && k' in clusters && clusters[k].id == clusters[k'].id ==> k == k'
  }

  lemma DroppedConcat(a: seq<Label>, b: seq<Label>)
    ensures Dropped(a + b) <==> Dropped(a) || Dropped(b)
  {
  }
}
