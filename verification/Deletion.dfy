/** The end of an object: what one undisturbed pass does once the object is being deleted, and when it is gone. */
module Deletion {
  import opened Optional
  import opened Status
  import opened ControlPlaneModel
  import opened Convergence

  /** The object exists, is being deleted and still has the operator's finalizer. */
  ghost predicate Held(s: State) {
    s.history != [] && s.published != [] && !s.gone && Current(s).deleting && Current(s).finalizer
  }

  /**
    From any such state one undisturbed pass takes the finalizer away: the object is gone if it had no other, and
    otherwise gets one more version, in which only the finalizer differs. Nothing else changes, children included.
   */
  lemma PassReleases(s: State, now: nat)
    requires Held(s) && s.pc.Idle?
    ensures FreshPass(s, now) ==
            if Current(s).others then s.(history := s.history + [Current(s).(finalizer := false)]) else s.(gone := true)
  {
    var first := Step(s, Read(|s.history| - 1));
    FinishOn(first, now);
    assert Step(first, Decide(false)).pc.Idle?;
  }

  /** A deleting object without the finalizer is left alone. */
  lemma ReleasedIsLeftAlone(s: State, now: nat)
    requires s.history != [] && s.published != [] && s.pc.Idle? && Current(s).deleting && !Current(s).finalizer
    ensures FreshPass(s, now) == s
  {
    var first := Step(s, Read(|s.history| - 1));
    FinishOn(first, now);
    assert Step(first, Decide(false)) == s;
  }

  /** So a further pass changes nothing: one that still finds the object, and one that no longer does. */
  lemma ReleasedOnce(s: State, now: nat, later: nat)
    requires Held(s) && s.pc.Idle?
    ensures var t := FreshPass(s, now);
            && t.history != [] && t.published != [] && t.pc.Idle?
            && (if t.gone then Enabled(t, ReadNothing) && Step(t, ReadNothing) == t else FreshPass(t, later) == t)
  {
    PassReleases(s, now);
    var t := FreshPass(s, now);
    if !t.gone { ReleasedIsLeftAlone(t, later); }
  }

  /**
    A whole deletion: the user deletes an object the operator has its finalizer on, one pass runs, and the owners of the
    other finalizers, if there are any, clear theirs. The object is gone then, and not before the pass.
   */
  lemma DeletionCompletes(s: State, now: nat)
    requires s.history != [] && s.published != [] && s.pc.Idle? && !s.gone
    requires !Current(s).deleting && Current(s).finalizer
    ensures Enabled(s, Delete)
    ensures var d := Step(s, Delete);
            && d.history != [] && d.published != [] && d.pc.Idle? && !d.gone
            && var t := FreshPass(d, now);
            && t.children == s.children
            && (t.gone <==> !Current(s).others)
            && (!t.gone ==> Enabled(t, Touch(false, false)) && Step(t, Touch(false, false)).gone)
  {
    var d := Step(s, Delete);
    assert Held(d) && Current(d).others == Current(s).others;
    PassReleases(d, now);
  }
}
