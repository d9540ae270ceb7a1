/** Main results about every run of the in-memory protocol. */
module MemSafety {
  import opened Base
  import opened MemProtocol
  import opened MemInvariant
  import opened MemSteps

  lemma {:induction false} RunKeepsInv(c: Config, t: seq<State>, k: nat)
    requires Run(c, t) && k < |t|
    ensures Inv(c, t[k])
    decreases k
  {
    if k > 0 {
      RunKeepsInv(c, t, k - 1);
      assert Next(c, t[k - 1], t[k - 1 + 1]);
      var p, act :| Step(c, t[k - 1], p, act) == Some(t[k]);
      StepKeepsInv(c, t[k - 1], p, act);
    }
  }

  lemma ReachableInv(c: Config, s: State)
    requires Reachable(c, s)
    ensures Inv(c, s)
  {
    var t :| Run(c, t) && t[|t| - 1] == s;
    RunKeepsInv(c, t, |t| - 1);
  }

  lemma StepReachable(c: Config, s: State, p: Pid, act: Action)
    requires Reachable(c, s) && Step(c, s, p, act).Some?
    ensures Reachable(c, Step(c, s, p, act).value)
  {
    var s' := Step(c, s, p, act).value;
    var t :| Run(c, t) && t[|t| - 1] == s;
    var t' := t + [s'];
    assert Next(c, s, s');
    forall k | 0 <= k < |t'| - 1 ensures Next(c, t'[k], t'[k + 1]) {
      if k < |t| - 1 { assert Next(c, t[k], t[k + 1]); }
    }
    assert Run(c, t') && t'[|t'| - 1] == s';
  }

  // Whenever a blob's mutex is free, its count is the number of stores whose entry
  // points at it plus the Erases that owe it a decrement.
  lemma RefcountConserved(c: Config, s: State, b: BlobId)
    requires Reachable(c, s) && b in s.g.blobs && s.g.blobs[b].lock.None?
    ensures s.g.blobs[b].refs == |Holders(s.g, b)| + |Droppers(s.procs, b)|
  {
    ReachableInv(c, s);
    assert Counted(s, b);
  }

  // The unsigned counter is never decremented at zero.
  lemma NoUnderflow(c: Config, s: State, p: Pid)
    requires Reachable(c, s) && p in s.procs && s.procs[p].Eraser? && s.procs[p].epc.Drop?
    ensures s.procs[p].epc.blob in s.g.blobs && s.g.blobs[s.procs[p].epc.blob].refs > 0
  {
    ReachableInv(c, s);
    assert EraseInv(s, p);
    EraseLocks(s, p);
    DropCounts(c, s, p);
  }

  // All live entries of the digest share the blob the global map names.
  lemma EntriesShareTheGlobalBlob(c: Config, s: State, id: StoreId)
    requires Reachable(c, s) && id in s.g.es
    ensures s.g.es[id] in s.g.entries && s.g.bs == Some(s.g.entries[s.g.es[id]].blob)
  {
    ReachableInv(c, s);
    assert LiveEntry(s, id);
  }

  // A call about to delete from the global map deletes its own blob, whose count
  // has just reached zero and which no entry uses.
  lemma DeleteRemovesTheDyingBlob(c: Config, s: State, p: Pid)
    requires Reachable(c, s) && p in s.procs && s.procs[p].Eraser? && s.procs[p].epc.Delete?
    ensures var b := s.procs[p].epc.blob;
            s.g.bs == Some(b) && b in s.g.blobs && s.g.blobs[b].refs == 0 && b !in s.g.dead && s.g.es == map[]
  {
    ReachableInv(c, s);
    assert EraseInv(s, p);
    var b := s.procs[p].epc.blob;
    assert Held(p, s.procs[p]) == Some(b);
    assert Counted(s, b) && !Counting(s, b);
    forall id ensures id !in s.g.es {
      assert id !in Holders(s.g, b);
      assert id in s.g.es ==> LiveEntry(s, id);
    }
  }

  // An Add that put its own blob into the global map can always insert its entry,
  // so it never leaves a blob behind that nobody counts.
  lemma FreshBlobIsNeverStranded(c: Config, s: State, p: Pid)
    requires Reachable(c, s) && p in s.procs && s.procs[p].Adder? && s.procs[p].apc == Insert(p)
    ensures s.procs[p].id !in s.g.es
  {
    ReachableInv(c, s);
    FreshInsertSucceeds(c, s, p);
  }

  // ---- Retries ----

  // Add starts over only for a blob that has left the global map, and never twice
  // for the same one.
  lemma RetryMeansDeleted(c: Config, s: State, p: Pid)
    requires Reachable(c, s) && p in s.procs && s.procs[p].Adder? && s.procs[p].apc.Check?
    ensures var b := s.procs[p].apc.seen;
            b in s.g.blobs && (s.g.blobs[b].refs == 0 ==> s.g.bs != Some(b) && b in s.g.dead && b !in s.procs[p].tried)
  {
    ReachableInv(c, s);
    assert AddInv(c, s, p);
    if s.g.blobs[s.procs[p].apc.seen].refs == 0 { ZeroMeansDead(c, s, p); }
  }

  lemma SubsetCardinality<T>(a: set<T>, b: set<T>)
    requires a <= b
    ensures |a| <= |b|
  {
    if a != {} {
      var x :| x in a;
      SubsetCardinality(a - {x}, b - {x});
    }
  }

  // So no Add retries more often than blobs of the digest were deleted in the run.
  lemma RetriesBoundedByDeletions(c: Config, s: State, p: Pid)
    requires Reachable(c, s) && p in s.procs && s.procs[p].Adder?
    ensures s.procs[p].retries <= |s.g.dead|
  {
    ReachableInv(c, s);
    assert AddInv(c, s, p);
    SubsetCardinality(s.procs[p].tried, s.g.dead);
  }

  // Each deletion is counted once.
  lemma DeletionsAreCounted(c: Config, s: State, p: Pid, act: Action)
    requires Reachable(c, s) && Step(c, s, p, act).Some?
    ensures var s' := Step(c, s, p, act).value;
            if act.Advance? && s.procs[p].Eraser? && s.procs[p].epc.Delete? then |s'.g.dead| == |s.g.dead| + 1
            else s'.g.dead == s.g.dead
  {
    if act.Advance? && s.procs[p].Eraser? && s.procs[p].epc.Delete? {
      DeleteRemovesTheDyingBlob(c, s, p);
    }
  }

  // ---- Progress ----

  predicate Waiting(a: Proc) {
    (a.Adder? && a.apc.WantLock?) || (a.Eraser? && a.epc.WantDrop?)
  }

  ghost predicate CanStep(c: Config, s: State, p: Pid) {
    Step(c, s, p, Advance).Some?
  }

  lemma UnblockedCanStep(c: Config, s: State, p: Pid)
    requires Inv(c, s) && p in s.procs && !Finished(s.procs[p])
    requires Waiting(s.procs[p]) ==> Wanted(s.procs[p]) in s.g.blobs && s.g.blobs[Wanted(s.procs[p])].lock.None?
    ensures CanStep(c, s, p)
  {
    match s.procs[p]
    case Adder(_, _, _, _, pc, _, _) =>
      assert AddInv(c, s, p);
      if pc.LockNew? && s.g.blobs[p].lock.Some? { NewBlobIsFree(c, s, p); }
    case Eraser(id, _) =>
      assert EraseInv(s, p);
      if id in s.g.es { assert LiveEntry(s, id); }
    case _ =>
  }

  // The mutex of an unpublished blob is free when its owner asks for it.
  lemma NewBlobIsFree(c: Config, s: State, p: Pid)
    requires Inv(c, s) && p in s.procs && s.procs[p].Adder? && s.procs[p].apc.LockNew?
    ensures p in s.g.blobs && s.g.blobs[p].lock.None?
  {
    assert AddInv(c, s, p);
    if s.g.blobs[p].lock.Some? {
      var q := s.g.blobs[p].lock.value;
      assert Held(q, s.procs[q]) == Some(p);
      HeldIsMet(c, s, q);
    }
  }

  lemma HeldIsMet(c: Config, s: State, q: Pid)
    requires Inv(c, s) && q in s.procs && Held(q, s.procs[q]).Some?
    ensures Held(q, s.procs[q]) == Some(q) || Met(s.g, Held(q, s.procs[q]).value)
  {
    if s.procs[q].Adder? { assert AddInv(c, s, q); } else { assert EraseInv(s, q); }
  }

  function Wanted(a: Proc): BlobId
    requires Waiting(a)
  {
    if a.Adder? then a.apc.seen else a.epc.blob
  }

  lemma WantedExists(c: Config, s: State, p: Pid)
    requires Inv(c, s) && p in s.procs && Waiting(s.procs[p])
    ensures Wanted(s.procs[p]) in s.g.blobs
  {
    if s.procs[p].Adder? { assert AddInv(c, s, p); } else { assert EraseInv(s, p); }
  }

  lemma HolderCanStep(c: Config, s: State, b: BlobId)
    requires Inv(c, s) && b in s.g.blobs && s.g.blobs[b].lock.Some?
    ensures var q := s.g.blobs[b].lock.value; q in s.procs && !Waiting(s.procs[q]) && CanStep(c, s, q)
  {
    var q := s.g.blobs[b].lock.value;
    assert Held(q, s.procs[q]) == Some(b);
    UnblockedCanStep(c, s, q);
  }

  lemma SomeoneCanStep(c: Config, s: State, p: Pid)
    requires Inv(c, s) && p in s.procs && !Finished(s.procs[p])
    ensures CanStep(c, s, p) || (Waiting(s.procs[p]) && exists q :: q in s.procs && !Waiting(s.procs[q]) && CanStep(c, s, q))
  {
    if Waiting(s.procs[p]) {
      WantedExists(c, s, p);
      var b := Wanted(s.procs[p]);
      if s.g.blobs[b].lock.Some? { HolderCanStep(c, s, b); } else { UnblockedCanStep(c, s, p); }
    } else {
      UnblockedCanStep(c, s, p);
    }
  }

  // A waiting call holds no mutex; the call it waits for is not waiting itself and
  // can go on. So there is no deadlock.
  lemma NoDeadlock(c: Config, s: State, p: Pid)
    requires Reachable(c, s) && p in s.procs && !Finished(s.procs[p])
    ensures Waiting(s.procs[p]) ==> Held(p, s.procs[p]).None?
    ensures CanStep(c, s, p) || (Waiting(s.procs[p]) && exists q :: q in s.procs && !Waiting(s.procs[q]) && CanStep(c, s, q))
  {
    ReachableInv(c, s);
    SomeoneCanStep(c, s, p);
  }

  // When every call has returned, the global map has the digest exactly when some
  // store does: no blob leaks.
  lemma NoLeak(c: Config, s: State)
    requires Reachable(c, s) && forall p :: p in s.procs ==> Finished(s.procs[p])
    ensures s.g.bs.Some? <==> s.g.es != map[]
    ensures s.g.bs.Some? ==> s.g.bs.value in s.g.blobs && s.g.blobs[s.g.bs.value].refs == |s.g.es|
  {
    ReachableInv(c, s);
    forall id | id in s.g.es ensures s.g.bs.Some? && s.g.es[id] in s.g.entries && s.g.entries[s.g.es[id]].blob == s.g.bs.value {
      assert LiveEntry(s, id);
    }
    if s.g.bs.Some? {
      var b := s.g.bs.value;
      assert Counted(s, b);
      if s.g.blobs[b].lock.Some? {
        var q := s.g.blobs[b].lock.value;
        assert Held(q, s.procs[q]) == Some(b);
      }
      assert Droppers(s.procs, b) == {};
      assert Holders(s.g, b) == s.g.es.Keys;
    }
  }
}
