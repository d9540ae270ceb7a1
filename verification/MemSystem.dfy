/** All digests of a set of in-memory stores together. The two maps are keyed by
    digest, so a step of the whole is a step of one digest's component. */
module MemSystem {
  import opened Base
  import opened MemProtocol
  import opened MemInvariant
  import opened MemSafety

  type System = map<Digest, State>

  function At(sys: System, d: Digest): State {
    if d in sys then sys[d] else INITIAL
  }

  ghost predicate SystemNext(hash: Hash, sys: System, sys': System) {
    exists d, p, act :: Step(Config(hash, d), At(sys, d), p, act).Some?
                        && sys' == sys[d := Step(Config(hash, d), At(sys, d), p, act).value]
  }

  ghost predicate SystemRun(hash: Hash, t: seq<System>) {
    |t| > 0 && t[0] == map[] && forall k :: 0 <= k < |t| - 1 ==> SystemNext(hash, t[k], t[k + 1])
  }

  lemma InitialReachable(c: Config)
    ensures Reachable(c, INITIAL)
  {
    assert Run(c, [INITIAL]) && [INITIAL][|[INITIAL]| - 1] == INITIAL;
  }

  lemma {:induction false} ComponentsReachable(hash: Hash, t: seq<System>, k: nat, d: Digest)
    requires SystemRun(hash, t) && k < |t|
    ensures Reachable(Config(hash, d), At(t[k], d))
    decreases k
  {
    var c := Config(hash, d);
    if k == 0 {
      InitialReachable(c);
    } else {
      ComponentsReachable(hash, t, k - 1, d);
      assert SystemNext(hash, t[k - 1], t[k - 1 + 1]);
      var e, p, act :| Step(Config(hash, e), At(t[k - 1], e), p, act).Some?
                       && t[k] == t[k - 1][e := Step(Config(hash, e), At(t[k - 1], e), p, act).value];
      if e == d { StepReachable(c, At(t[k - 1], d), p, act); }
    }
  }

  // At any point of any run, each digest has at most one blob in use, and its
  // count is exact whenever its mutex is free.
  lemma WholeStoreConserves(hash: Hash, t: seq<System>, k: nat, d: Digest, id: StoreId)
    requires SystemRun(hash, t) && k < |t| && id in At(t[k], d).g.es
    ensures var s := At(t[k], d);
            && s.g.es[id] in s.g.entries && s.g.bs == Some(s.g.entries[s.g.es[id]].blob) && s.g.bs.value in s.g.blobs
            && hash(s.g.blobs[s.g.bs.value].data) == d
            && (s.g.blobs[s.g.bs.value].lock.None? ==>
                  s.g.blobs[s.g.bs.value].refs == |Holders(s.g, s.g.bs.value)| + |Droppers(s.procs, s.g.bs.value)|)
  {
    var c := Config(hash, d);
    ComponentsReachable(hash, t, k, d);
    ReachableInv(c, At(t[k], d));
    EntriesShareTheGlobalBlob(c, At(t[k], d), id);
    var b := At(t[k], d).g.bs.value;
    if At(t[k], d).g.blobs[b].lock.None? { RefcountConserved(c, At(t[k], d), b); }
  }

  // Once every call has returned, the global map holds exactly the digests some
  // store still has.
  lemma WholeStoreNoLeak(hash: Hash, t: seq<System>, k: nat)
    requires SystemRun(hash, t) && k < |t|
    requires forall d :: forall p :: p in At(t[k], d).procs ==> Finished(At(t[k], d).procs[p])
    ensures forall d :: At(t[k], d).g.bs.Some? <==> At(t[k], d).g.es != map[]
  {
    forall d ensures At(t[k], d).g.bs.Some? <==> At(t[k], d).g.es != map[] {
      ComponentsReachable(hash, t, k, d);
      NoLeak(Config(hash, d), At(t[k], d));
    }
  }
}
