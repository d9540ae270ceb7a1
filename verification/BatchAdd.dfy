/** The parallel add of cmd/flob/cmd/op.go: workers under a semaphore, each adding one
    file to the store and filling its own position of the results. Each Add is one
    step here, which is what MemLinearizable justifies for the in-memory store. */
module BatchAdd {
  import opened Base
  import opened StoreSpec

  datatype AddResult = AddResult(digest: Digest, err: Result)

  const ZERO := AddResult("", Ok)

  datatype Phase = Waiting | Running | Added | Released

  // A file that cannot be read is None.
  datatype Config = Config(hash: Hash, id: StoreId, files: seq<Option<Bytes>>, parallel: nat)

  datatype State = State(next: nat, phase: seq<Phase>, rs: seq<AddResult>, store: Contents)

  datatype Event = Spawn | AddOne(i: nat) | Release(i: nat) | Other(call: Call)

  function Initial(c: Config, store: Contents): State {
    State(0, seq(|c.files|, _ => Waiting), seq(|c.files|, _ => ZERO), store)
  }

  function InFlight(s: State): set<nat> {
    set i: nat | i < |s.phase| && (s.phase[i].Running? || s.phase[i].Added?)
  }

  // Nobody else adds to or erases from this store meanwhile.
  predicate Harmless(c: Config, call: Call) {
    call.id != c.id || !(call.Add? || call.Erase?)
  }

  function Step(c: Config, s: State, e: Event): Option<State> {
    match e
    case Spawn =>
      if s.next < |s.phase| && |InFlight(s)| < c.parallel then
        Some(s.(next := s.next + 1, phase := s.phase[s.next := Running]))
      else None
    case AddOne(i) =>
      if i < |s.phase| && i < |s.rs| && i < |c.files| && s.phase[i].Running? then
        if c.files[i].None? then Some(s.(phase := s.phase[i := Added], rs := s.rs[i := AddResult("", OtherError)]))
        else
          var r := AddReply(c.hash, s.store, c.id, NO_META, c.files[i].value);
          Some(s.(phase := s.phase[i := Added], rs := s.rs[i := AddResult(r.meta.digest, r.err)],
                  store := AfterAdd(c.hash, s.store, c.id, NO_META, c.files[i].value)))
      else None
    case Release(i) =>
      if i < |s.phase| && s.phase[i].Added? then Some(s.(phase := s.phase[i := Released])) else None
    case Other(call) =>
      if Harmless(c, call) then Some(s.(store := After(c.hash, s.store, call))) else None
  }

  ghost predicate Next(c: Config, s: State, s': State) {
    exists e :: Step(c, s, e) == Some(s')
  }

  ghost predicate Run(c: Config, t: seq<State>) {
    |t| > 0 && t[0] == Initial(c, t[0].store) && forall k :: 0 <= k < |t| - 1 ==> Next(c, t[k], t[k + 1])
  }

  // wg.Wait has returned.
  predicate Finished(s: State) {
    s.next == |s.phase| && forall i :: 0 <= i < |s.phase| ==> s.phase[i].Released?
  }

  // ---- What every schedule keeps ----

  predicate Committed(s: State, i: int) {
    0 <= i < |s.phase| && (s.phase[i].Added? || s.phase[i].Released?)
  }

  // Index i is committed and its content has digest d.
  predicate Has(c: Config, s: State, i: int, d: Digest) {
    Committed(s, i) && i < |c.files| && c.files[i].Some? && c.hash(c.files[i].value) == d
  }

  // The result at i is the one for file i.
  predicate Positional(c: Config, s: State, i: nat)
    requires i < |c.files| && i < |s.rs|
  {
    if c.files[i].None? then s.rs[i] == AddResult("", OtherError)
    else s.rs[i].digest == c.hash(c.files[i].value) && (s.rs[i].err == Ok || s.rs[i].err == AlreadyExists)
  }

  ghost predicate Shape(c: Config, s: State) {
    && |s.phase| == |s.rs| == |c.files| && s.next <= |s.phase|
    && |InFlight(s)| <= c.parallel
    && (forall i: nat :: i < |s.phase| ==> (s.phase[i].Waiting? <==> s.next <= i))
    && (forall i :: Committed(s, i) ==> Positional(c, s, i))
  }

  ghost predicate Winners(c: Config, start: Contents, s: State) {
    && |s.rs| == |s.phase|
    // The store has what it had, and what was committed.
    && (forall d :: (c.id, d) in s.store <==> (c.id, d) in start || exists i :: Has(c, s, i, d))
    // A digest it had has no winner, a new one just one.
    && (forall i, d :: Has(c, s, i, d) && (c.id, d) in start ==> s.rs[i].err == AlreadyExists)
    && (forall i, d :: Has(c, s, i, d) && (c.id, d) !in start ==> exists j :: Has(c, s, j, d) && s.rs[j].err == Ok)
    && (forall i, j, d :: Has(c, s, i, d) && Has(c, s, j, d) && s.rs[i].err == Ok && s.rs[j].err == Ok ==> i == j)
  }

  lemma FlightGrows(s: State, s': State, i: nat)
    requires i < |s.phase| && s'.phase == s.phase[i := Running] && s.phase[i].Waiting?
    ensures |InFlight(s')| == |InFlight(s)| + 1
  {
    assert InFlight(s') == InFlight(s) + {i};
  }

  lemma FlightShrinks(s: State, s': State, i: nat)
    requires i < |s.phase| && s'.phase == s.phase[i := Released] && s.phase[i].Added?
    ensures |InFlight(s')| == |InFlight(s)| - 1
  {
    assert i in InFlight(s) && InFlight(s') == InFlight(s) - {i};
  }

  lemma StepKeepsShape(c: Config, s: State, e: Event)
    requires Shape(c, s) && Step(c, s, e).Some?
    ensures Shape(c, Step(c, s, e).value)
  {
    var s' := Step(c, s, e).value;
    assert forall j :: Committed(s', j) ==> Committed(s, j) || (e.AddOne? && e.i == j);
    match e
    case Spawn => FlightGrows(s, s', s.next);
    case AddOne(i) =>
      assert InFlight(s') == InFlight(s);
      assert Positional(c, s', i);
    case Release(i) => FlightShrinks(s, s', i);
    case Other(_) => assert InFlight(s') == InFlight(s);
  }

  lemma SameHas(c: Config, s: State, s': State)
    requires forall i :: Committed(s', i) <==> Committed(s, i)
    ensures forall i, d :: Has(c, s', i, d) <==> Has(c, s, i, d)
  {
  }

  lemma QuietKeepsWinners(c: Config, start: Contents, s: State, s': State)
    requires Shape(c, s) && Winners(c, start, s) && s'.rs == s.rs && |s'.phase| == |s.phase|
    requires forall i :: Committed(s', i) <==> Committed(s, i)
    requires forall d :: (c.id, d) in s'.store <==> (c.id, d) in s.store
    ensures Winners(c, start, s')
  {
    SameHas(c, s, s');
  }

  lemma AddKeepsWinners(c: Config, start: Contents, s: State, i: nat)
    requires Shape(c, s) && Winners(c, start, s) && Step(c, s, AddOne(i)).Some? && c.files[i].Some?
    ensures Winners(c, start, Step(c, s, AddOne(i)).value)
  {
    var s' := Step(c, s, AddOne(i)).value;
    var d0 := c.hash(c.files[i].value);
    assert !Committed(s, i) && Has(c, s', i, d0);
    forall j, d ensures Has(c, s', j, d) <==> Has(c, s, j, d) || (j == i && d == d0) {
    }
    forall j, d | Has(c, s', j, d) && (c.id, d) !in start ensures exists w :: Has(c, s', w, d) && s'.rs[w].err == Ok {
      if exists w :: Has(c, s, w, d) && s.rs[w].err == Ok {
        var w :| Has(c, s, w, d) && s.rs[w].err == Ok;
        assert Has(c, s', w, d) && s'.rs[w].err == Ok;
      } else {
        assert Has(c, s', i, d) && s'.rs[i].err == Ok;
      }
    }
  }

  lemma UnreadableKeepsWinners(c: Config, start: Contents, s: State, i: nat)
    requires Shape(c, s) && Winners(c, start, s) && Step(c, s, AddOne(i)).Some? && c.files[i].None?
    ensures Winners(c, start, Step(c, s, AddOne(i)).value)
  {
    var s' := Step(c, s, AddOne(i)).value;
    forall j, d ensures Has(c, s', j, d) <==> Has(c, s, j, d) {
    }
  }

  lemma StepKeepsWinners(c: Config, start: Contents, s: State, e: Event)
    requires Shape(c, s) && Winners(c, start, s) && Step(c, s, e).Some?
    ensures Winners(c, start, Step(c, s, e).value)
  {
    match e
    case AddOne(i) =>
      if c.files[i].Some? { AddKeepsWinners(c, start, s, i); } else { UnreadableKeepsWinners(c, start, s, i); }
    case _ => QuietKeepsWinners(c, start, s, Step(c, s, e).value);
  }

  lemma {:induction false} RunKeepsInv(c: Config, t: seq<State>, k: nat)
    requires Run(c, t) && k < |t|
    ensures Shape(c, t[k]) && Winners(c, t[0].store, t[k])
    decreases k
  {
    if k == 0 {
      assert InFlight(t[0]) == {};
    } else {
      RunKeepsInv(c, t, k - 1);
      assert Next(c, t[k - 1], t[k - 1 + 1]);
      var e :| Step(c, t[k - 1], e) == Some(t[k]);
      StepKeepsShape(c, t[k - 1], e);
      StepKeepsWinners(c, t[0].store, t[k - 1], e);
    }
  }

  // ---- Main results, for every schedule ----

  lemma AtMostParallelInFlight(c: Config, t: seq<State>, k: nat)
    requires Run(c, t) && k < |t|
    ensures |InFlight(t[k])| <= c.parallel
  {
    RunKeepsInv(c, t, k);
  }

  // Each result is in the position of its file.
  lemma ResultsArePositional(c: Config, t: seq<State>, i: nat)
    requires Run(c, t) && Finished(t[|t| - 1]) && i < |c.files|
    ensures i < |t[|t| - 1].rs| && Positional(c, t[|t| - 1], i)
  {
    RunKeepsInv(c, t, |t| - 1);
    assert Committed(t[|t| - 1], i);
  }

  ghost predicate IsFile(c: Config, i: int, d: Digest) {
    0 <= i < |c.files| && c.files[i].Some? && c.hash(c.files[i].value) == d
  }

  // A digest new to the store succeeds exactly once among the files that have it,
  // one already there not at all.
  lemma OneSuccessPerNewDigest(c: Config, t: seq<State>, i: nat, d: Digest)
    requires Run(c, t) && Finished(t[|t| - 1]) && IsFile(c, i, d)
    ensures |t[|t| - 1].rs| == |c.files| && (c.id, d) in t[|t| - 1].store
    ensures var rs := t[|t| - 1].rs;
            if (c.id, d) in t[0].store then rs[i].err == AlreadyExists
            else
              && (rs[i].err == Ok || rs[i].err == AlreadyExists)
              && (exists j :: IsFile(c, j, d) && rs[j].err == Ok)
              && (forall j, k :: IsFile(c, j, d) && IsFile(c, k, d) && rs[j].err == Ok && rs[k].err == Ok ==> j == k)
  {
    var s := t[|t| - 1];
    RunKeepsInv(c, t, |t| - 1);
    forall j ensures Has(c, s, j, d) <==> IsFile(c, j, d) {
    }
    assert Committed(s, i) && Has(c, s, i, d);
    if (c.id, d) !in t[0].store {
      var j :| Has(c, s, j, d) && s.rs[j].err == Ok;
      assert IsFile(c, j, d);
    }
  }

  // What a schedule leaves in the store under a file's digest has that digest.
  lemma {:induction false} StoreStaysSound(c: Config, t: seq<State>, k: nat)
    requires Run(c, t) && k < |t| && Sound(c.hash, t[0].store)
    ensures Sound(c.hash, t[k].store)
    decreases k
  {
    if k > 0 {
      StoreStaysSound(c, t, k - 1);
      assert Next(c, t[k - 1], t[k - 1 + 1]);
      var e :| Step(c, t[k - 1], e) == Some(t[k]);
    }
  }

  // So every file that could be read is in the store, byte for byte.
  lemma FilesAreStored(c: Config, t: seq<State>, i: nat)
    requires Injective(c.hash) && Run(c, t) && Finished(t[|t| - 1]) && Sound(c.hash, t[0].store)
    requires i < |c.files| && c.files[i].Some?
    ensures var k := (c.id, c.hash(c.files[i].value)); var s := t[|t| - 1].store; k in s && s[k].content == c.files[i].value
  {
    var d := c.hash(c.files[i].value);
    assert IsFile(c, i, d);
    OneSuccessPerNewDigest(c, t, i, d);
    StoreStaysSound(c, t, |t| - 1);
  }

  predicate CanGo(c: Config, s: State, e: Event) {
    !e.Other? && Step(c, s, e).Some?
  }

  ghost predicate SomethingCanGo(c: Config, s: State) {
    exists e :: CanGo(c, s, e)
  }

  // Until it is finished, some worker or the loop can go on.
  lemma BatchProgresses(c: Config, t: seq<State>)
    requires Run(c, t) && c.parallel > 0 && !Finished(t[|t| - 1])
    ensures SomethingCanGo(c, t[|t| - 1])
  {
    var s := t[|t| - 1];
    RunKeepsInv(c, t, |t| - 1);
    if s.next < |s.phase| && InFlight(s) == {} {
      assert CanGo(c, s, Spawn);
    } else {
      assert InFlight(s) != {} by {
        if s.next == |s.phase| {
          var i :| 0 <= i < |s.phase| && !s.phase[i].Released?;
          assert i in InFlight(s);
        }
      }
      var i :| i in InFlight(s);
      if s.phase[i].Running? {
        assert CanGo(c, s, AddOne(i));
      } else {
        assert CanGo(c, s, Release(i));
      }
    }
  }

  // ---- addOutcome ----

  datatype Outcome = Fine | AllExisted | Failed(errs: seq<AddResult>)

  predicate IsFailure(r: AddResult) {
    r.err != Ok && r.err != AlreadyExists
  }

  // Every failure, in the order of the files.
  function Failures(rs: seq<AddResult>): seq<AddResult> {
    if rs == [] then []
    else Failures(rs[..|rs| - 1]) + (if IsFailure(rs[|rs| - 1]) then [rs[|rs| - 1]] else [])
  }

  function Existing(rs: seq<AddResult>): (n: nat)
    ensures n <= |rs|
    ensures n == |rs| <==> forall i :: 0 <= i < |rs| ==> rs[i].err == AlreadyExists
  {
    if rs == [] then 0 else Existing(rs[..|rs| - 1]) + (if rs[|rs| - 1].err == AlreadyExists then 1 else 0)
  }

  lemma {:induction false} FailuresAreAll(rs: seq<AddResult>, r: AddResult)
    ensures r in Failures(rs) <==> r in rs && IsFailure(r)
    ensures multiset(Failures(rs))[r] == if IsFailure(r) then multiset(rs)[r] else 0
  {
    if rs != [] {
      FailuresAreAll(rs[..|rs| - 1], r);
      assert rs == rs[..|rs| - 1] + [rs[|rs| - 1]];
    }
  }

  // The failures of two batches are those of the first and then those of the second.
  lemma {:induction false} FailuresInOrder(a: seq<AddResult>, b: seq<AddResult>)
    ensures Failures(a + b) == Failures(a) + Failures(b)
    decreases |b|
  {
    if b == [] {
      assert a + b == a;
    } else {
      FailuresInOrder(a, b[..|b| - 1]);
      assert (a + b)[..|a + b| - 1] == a + b[..|b| - 1];
    }
  }

  lemma FailuresOfOne(r: AddResult)
    ensures Failures([r]) == if r.err == Ok || r.err == AlreadyExists then [] else [r]
  {
    assert [r][..0] == [];
  }

  method AddOutcome(rs: seq<AddResult>) returns (out: Outcome)
    ensures out.Failed? <==> exists i :: 0 <= i < |rs| && rs[i].err != Ok && rs[i].err != AlreadyExists
    ensures out.Failed? ==> out.errs == Failures(rs)
    ensures out.AllExisted? <==> rs != [] && forall i :: 0 <= i < |rs| ==> rs[i].err == AlreadyExists
  {
    var existed := 0;
    var errs := [];
    for i := 0 to |rs|
      invariant existed == Existing(rs[..i]) && errs == Failures(rs[..i])
    {
      assert rs[..i + 1][..i] == rs[..i];
      match rs[i].err {
        case Ok =>
        case AlreadyExists => existed := existed + 1;
        case _ => errs := errs + [rs[i]];
      }
    }
    assert rs[..|rs|] == rs;
    forall i | 0 <= i < |rs| ensures rs[i] in Failures(rs) <==> IsFailure(rs[i]) {
      FailuresAreAll(rs, rs[i]);
    }
    if errs != [] {
      FailuresAreAll(rs, errs[0]);
      return Failed(errs);
    }
    if |rs| > 0 && existed == |rs| {
      return AllExisted;
    }
    out := Fine;
  }

  // The command says "already exists" exactly when there was nothing to do: at least
  // one file, all readable, and every digest in the store from the start. No schedule
  // changes that.
  lemma AlreadyExistsMeansNothingNew(c: Config, t: seq<State>)
    requires Run(c, t) && Finished(t[|t| - 1])
    ensures var rs := t[|t| - 1].rs;
            (rs != [] && forall i :: 0 <= i < |rs| ==> rs[i].err == AlreadyExists)
            <==> c.files != [] && forall i: nat :: i < |c.files| ==> c.files[i].Some? && (c.id, c.hash(c.files[i].value)) in t[0].store
  {
    var rs := t[|t| - 1].rs;
    RunKeepsInv(c, t, |t| - 1);
    if c.files != [] && forall i: nat :: i < |c.files| ==> c.files[i].Some? && (c.id, c.hash(c.files[i].value)) in t[0].store {
      forall i | 0 <= i < |rs| ensures rs[i].err == AlreadyExists {
        assert IsFile(c, i, c.hash(c.files[i].value));
        OneSuccessPerNewDigest(c, t, i, c.hash(c.files[i].value));
      }
    }
    if rs != [] && forall i :: 0 <= i < |rs| ==> rs[i].err == AlreadyExists {
      forall i: nat | i < |c.files| ensures c.files[i].Some? && (c.id, c.hash(c.files[i].value)) in t[0].store {
        ResultsArePositional(c, t, i);
        assert rs[i].err == AlreadyExists;
        NewDigestMeansSuccess(c, t, i);
      }
    }
  }

  lemma NewDigestMeansSuccess(c: Config, t: seq<State>, i: nat)
    requires Run(c, t) && Finished(t[|t| - 1]) && i < |c.files| && c.files[i].Some?
    ensures (c.id, c.hash(c.files[i].value)) !in t[0].store ==> Succeeds(t[|t| - 1].rs)
  {
    var d := c.hash(c.files[i].value);
    assert IsFile(c, i, d);
    OneSuccessPerNewDigest(c, t, i, d);
    if (c.id, d) !in t[0].store {
      var rs := t[|t| - 1].rs;
      var j :| IsFile(c, j, d) && rs[j].err == Ok;
    }
  }

  ghost predicate Succeeds(rs: seq<AddResult>) {
    exists j :: 0 <= j < |rs| && rs[j].err == Ok
  }
}
