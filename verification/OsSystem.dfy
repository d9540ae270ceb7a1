/** All digests of a root directory together. The paths a call works on are those of its
    own digest, and they are apart from the paths of every other digest; so a step of
    the whole store is a step of one digest's component, and what holds in every run of
    a component holds of the store. Store ids are plain path elements: OsPaths has the
    exact condition, and ids that break it. */
module OsSystem {
  import opened Base
  import opened OsProtocol
  import opened OsInvariant
  import opened OsSafety
  import opened OsRefcount
  import opened OsSchedule
  import Digests
  import OsPaths

  type System = map<Digest, State>

  function At(sys: System, d: Digest): State {
    if d in sys then sys[d] else INITIAL
  }

  // A step of the component of one digest, by a call on a store with a plain id.
  ghost predicate SystemStep(hash: Hash, exact: bool, sys: System, sys': System, d: Digest, p: Pid, ch: Choice) {
    && Digests.Valid(d) && (ch.Start? ==> OsPaths.Plain(ch.call.id))
    && Step(Config(hash, d, exact), At(sys, d), p, ch).Some?
    && sys' == sys[d := Step(Config(hash, d, exact), At(sys, d), p, ch).value]
  }

  ghost predicate SystemNext(hash: Hash, exact: bool, sys: System, sys': System) {
    exists d, p, ch :: SystemStep(hash, exact, sys, sys', d, p, ch)
  }

  ghost predicate SystemRun(hash: Hash, exact: bool, t: seq<System>) {
    |t| > 0 && t[0] == map[] && forall k :: 0 <= k < |t| - 1 ==> SystemNext(hash, exact, t[k], t[k + 1])
  }

  lemma {:induction false} ComponentsReachable(hash: Hash, exact: bool, t: seq<System>, k: nat, d: Digest)
    requires SystemRun(hash, exact, t) && k < |t|
    ensures Reachable(Config(hash, d, exact), At(t[k], d))
    decreases k
  {
    var c := Config(hash, d, exact);
    if k == 0 {
      InitialReachable(c);
    } else {
      ComponentsReachable(hash, exact, t, k - 1, d);
      assert SystemNext(hash, exact, t[k - 1], t[k - 1 + 1]);
      var e, p, ch :| SystemStep(hash, exact, t[k - 1], t[k], e, p, ch);
      if e == d { StepReachable(c, At(t[k - 1], d), p, ch); }
    }
  }

  // ---- Components do not meet ----

  // The ids a component has to do with.
  ghost predicate Uses(s: State, id: StoreId) {
    id in s.repos || exists p :: p in s.procs && s.procs[p].id == id
  }

  ghost predicate PlainState(s: State) {
    forall id {:trigger Uses(s, id)} :: Uses(s, id) ==> OsPaths.Plain(id)
  }

  // A step of a call brings in no other id.
  ghost predicate SameIds(s: State, s': State, p: Pid)
    requires p in s.procs
  {
    && (forall id :: id in s'.repos ==> id in s.repos || id == s.procs[p].id)
    && p in s'.procs && s'.procs == s.procs[p := s'.procs[p]] && s'.procs[p].id == s.procs[p].id
  }

  lemma FillKeepsIds(s: State, p: Pid, ch: Choice)
    requires p in s.procs && s.procs[p].Adder? && FillStep(s, p, s.procs[p], ch).Some?
    ensures SameIds(s, FillStep(s, p, s.procs[p], ch).value, p)
  {
  }

  lemma PublishKeepsIds(s: State, p: Pid, ch: Choice)
    requires p in s.procs && s.procs[p].Adder? && PublishStep(s, p, s.procs[p], ch).Some?
    ensures SameIds(s, PublishStep(s, p, s.procs[p], ch).value, p)
  {
  }

  lemma ClearKeepsIds(s: State, p: Pid, ch: Choice)
    requires p in s.procs && s.procs[p].Adder? && ClearStep(s, p, s.procs[p], ch).Some?
    ensures SameIds(s, ClearStep(s, p, s.procs[p], ch).value, p)
  {
  }

  lemma AddKeepsIds(c: Config, s: State, p: Pid, ch: Choice)
    requires p in s.procs && s.procs[p].Adder? && AddStep(c, s, p, s.procs[p], ch).Some?
    ensures SameIds(s, AddStep(c, s, p, s.procs[p], ch).value, p)
  {
    if FillsStage(s.procs[p].apc) {
      FillKeepsIds(s, p, ch);
    } else if Publishes(s.procs[p].apc) {
      PublishKeepsIds(s, p, ch);
    } else if s.procs[p].apc.Clear? {
      ClearKeepsIds(s, p, ch);
    }
  }

  lemma EraseKeepsIds(c: Config, s: State, p: Pid, ch: Choice)
    requires p in s.procs && s.procs[p].Eraser? && EraseStep(c, s, p, s.procs[p], ch).Some?
    ensures SameIds(s, EraseStep(c, s, p, s.procs[p], ch).value, p)
  {
  }

  lemma CallKeepsIds(c: Config, s: State, p: Pid, ch: Choice)
    requires !ch.Start? && Step(c, s, p, ch).Some?
    ensures SameIds(s, Step(c, s, p, ch).value, p)
  {
    if !ch.Crash? && !ch.Fail? {
      if s.procs[p].Adder? { AddKeepsIds(c, s, p, ch); }
      if s.procs[p].Eraser? { EraseKeepsIds(c, s, p, ch); }
    }
  }

  lemma StepStaysPlain(c: Config, s: State, p: Pid, ch: Choice)
    requires PlainState(s) && (ch.Start? ==> OsPaths.Plain(ch.call.id)) && Step(c, s, p, ch).Some?
    ensures PlainState(Step(c, s, p, ch).value)
  {
    var s' := Step(c, s, p, ch).value;
    if !ch.Start? { CallKeepsIds(c, s, p, ch); }
    forall id | Uses(s', id) ensures OsPaths.Plain(id) {
      assert Uses(s, id) || (ch.Start? && id == ch.call.id);
    }
  }

  lemma {:induction false} ComponentsArePlain(hash: Hash, exact: bool, t: seq<System>, k: nat)
    requires SystemRun(hash, exact, t) && k < |t|
    ensures forall d :: d in t[k] ==> Digests.Valid(d) && PlainState(t[k][d])
    decreases k
  {
    if k > 0 {
      ComponentsArePlain(hash, exact, t, k - 1);
      assert SystemNext(hash, exact, t[k - 1], t[k - 1 + 1]);
      var e, p, ch :| SystemStep(hash, exact, t[k - 1], t[k], e, p, ch);
      StepStaysPlain(Config(hash, e, exact), At(t[k - 1], e), p, ch);
    }
  }

  // What a component works on.
  ghost predicate Owns(sys: System, d: Digest, x: OsPaths.Place) {
    d in sys && x.d == d && (x.EntryAt? ==> Uses(sys[d], x.id))
  }

  // At any point of any run, two different places in use, of one component or of two,
  // have different paths, and neither contains the other.
  lemma ComponentsAreApart(root: string, hash: Hash, exact: bool, t: seq<System>, k: nat, x: OsPaths.Place, y: OsPaths.Place)
    requires SystemRun(hash, exact, t) && k < |t| && Owns(t[k], x.d, x) && Owns(t[k], y.d, y) && x != y
    ensures Digests.Valid(x.d) && Digests.Valid(y.d) && OsPaths.PathOf(root, x) != OsPaths.PathOf(root, y)
    ensures !(OsPaths.ElemsOf(root, x) <= OsPaths.ElemsOf(root, y))
  {
    ComponentsArePlain(hash, exact, t, k);
    OsPaths.PlacesAreApart(root, x, y);
  }

  // ---- Main results ----

  // At any point of any run of the whole store: what any store serves for any
  // digest hashes to that digest, and with exact link counts each digest has one
  // inode however many stores hold it.
  lemma WholeStoreSafe(hash: Hash, exact: bool, t: seq<System>, k: nat, d: Digest, id: StoreId)
    requires SystemRun(hash, exact, t) && k < |t| && HasBlob(At(t[k], d), id)
    ensures var s := At(t[k], d); var i := s.repos[id].blob.value;
            i in s.files && hash(s.files[i]) == d && (exact ==> s.share == Some(i))
  {
    ComponentsReachable(hash, exact, t, k, d);
    ContentIntegrity(Config(hash, d, exact), At(t[k], d));
    if exact { ExactDedup(Config(hash, d, exact), At(t[k], d)); }
  }

  // No crash, no I/O error, and no Add or Label of an entry while it is being erased.
  ghost predicate OrderlySystem(hash: Hash, t: seq<System>) {
    && |t| > 0 && t[0] == map[]
    && forall k :: 0 <= k < |t| - 1 ==> OrderlySystemNext(hash, t[k], t[k + 1])
  }

  ghost predicate OrderlySystemNext(hash: Hash, sys: System, sys': System) {
    exists d, p, ch :: SystemStep(hash, true, sys, sys', d, p, ch)
                       && OrderlyStep(Config(hash, d, true), At(sys, d), At(sys', d), p, ch)
  }

  lemma {:induction false} ComponentsOrderly(hash: Hash, t: seq<System>, k: nat, d: Digest)
    requires OrderlySystem(hash, t) && k < |t|
    ensures OrderlyReachable(Config(hash, d, true), At(t[k], d))
    decreases k
  {
    var c := Config(hash, d, true);
    if k == 0 {
      assert OrderlyRun(c, [INITIAL]) && [INITIAL][|[INITIAL]| - 1] == INITIAL;
    } else {
      ComponentsOrderly(hash, t, k - 1, d);
      assert OrderlySystemNext(hash, t[k - 1], t[k - 1 + 1]);
      var e, p, ch :| SystemStep(hash, true, t[k - 1], t[k], e, p, ch)
                      && OrderlyStep(Config(hash, e, true), At(t[k - 1], e), At(t[k], e), p, ch);
      if e == d { OrderlyStepReachable(c, At(t[k - 1], d), At(t[k], d), p, ch); }
    }
  }

  lemma OrderlyStepReachable(c: Config, s: State, s': State, p: Pid, ch: Choice)
    requires OrderlyReachable(c, s) && OrderlyStep(c, s, s', p, ch)
    ensures OrderlyReachable(c, s')
  {
    var t :| OrderlyRun(c, t) && t[|t| - 1] == s;
    var t' := t + [s'];
    forall k | 0 <= k < |t'| - 1 ensures OrderlyNext(c, t'[k], t'[k + 1]) {
      if k < |t| - 1 {
        assert OrderlyNext(c, t[k], t[k + 1]);
      } else {
        assert OrderlyStep(c, t'[k], t'[k + 1], p, ch);
      }
    }
    assert OrderlyRun(c, t') && t'[|t'| - 1] == s';
  }

  // When the calls of an orderly run have all returned, share/ holds exactly the
  // digests some store still has.
  lemma WholeStoreNoLeak(hash: Hash, t: seq<System>, k: nat)
    requires OrderlySystem(hash, t) && k < |t|
    requires forall d :: forall p :: p in At(t[k], d).procs ==> Finished(At(t[k], d).procs[p])
    ensures forall d :: At(t[k], d).share.Some? <==> exists id :: HasBlob(At(t[k], d), id)
  {
    forall d ensures At(t[k], d).share.Some? <==> exists id :: HasBlob(At(t[k], d), id) {
      ComponentsOrderly(hash, t, k, d);
      OrderlyNoLeak(Config(hash, d, true), At(t[k], d));
    }
  }
}
