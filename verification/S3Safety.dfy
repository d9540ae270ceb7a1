/** Main results about every run of the S3 protocol. */
module S3Safety {
  import opened Base
  import opened S3Protocol

  // The call relies on the shared object being there.
  predicate Relies(a: Proc) {
    match a
    case Adder(_, _, _, _, pc) => pc.PutRef?
    case Labeler(_, _, pc) => pc.PutLabels?
    case Eraser(_, _) => false
    case Opener(_, pc) => pc.Fetch?
  }

  // Past the digest check.
  predicate Checked(c: Config, a: Proc) {
    a.Adder? && (a.apc.HeadComputed? || a.apc.HeadBlob? || a.apc.PutBlob? || a.apc.PutRef?) ==> c.hash(a.content) == c.digest
  }

  ghost predicate Inv(c: Config, s: State) {
    && (s.bucket.blob.Some? ==> c.hash(s.bucket.blob.value) == c.digest)
    && (s.bucket.refs != map[] ==> s.bucket.blob.Some?)
    && (forall p :: p in s.procs ==> Checked(c, s.procs[p]) && (Relies(s.procs[p]) ==> s.bucket.blob.Some?))
  }

  // The size a call carries from a marker it has read.
  function Carried(a: Proc): Option<nat> {
    match a
    case Labeler(_, _, pc) => if pc.PutLabels? then Some(pc.size) else None
    case Opener(_, pc) => if pc.Fetch? then Some(pc.meta.size) else None
    case _ => None
  }

  ghost predicate SizeInv(s: State) {
    s.bucket.blob.Some? ==>
      && (forall id :: id in s.bucket.refs ==> s.bucket.refs[id].size == |s.bucket.blob.value|)
      && (forall p :: p in s.procs && Carried(s.procs[p]).Some? ==> Carried(s.procs[p]) == Some(|s.bucket.blob.value|))
  }

  lemma StepKeepsInv(c: Config, s: State, p: Pid, act: Action)
    requires Inv(c, s) && Step(c, s, p, act).Some?
    ensures Inv(c, Step(c, s, p, act).value)
    // The shared object is never deleted.
    ensures s.bucket.blob.Some? ==> Step(c, s, p, act).value.bucket.blob.Some?
  {
  }

  lemma StepKeepsSizes(c: Config, s: State, p: Pid, act: Action)
    requires Injective(c.hash) && Inv(c, s) && SizeInv(s) && Step(c, s, p, act).Some?
    ensures SizeInv(Step(c, s, p, act).value)
  {
  }

  lemma {:induction false} RunKeepsInv(c: Config, t: seq<State>, k: nat)
    requires Run(c, t) && k < |t|
    ensures Inv(c, t[k]) && (Injective(c.hash) ==> SizeInv(t[k]))
    decreases k
  {
    if k > 0 {
      RunKeepsInv(c, t, k - 1);
      assert Next(c, t[k - 1], t[k - 1 + 1]);
      var p, act :| Step(c, t[k - 1], p, act) == Some(t[k]);
      StepKeepsInv(c, t[k - 1], p, act);
      if Injective(c.hash) { StepKeepsSizes(c, t[k - 1], p, act); }
    }
  }

  lemma ReachableInv(c: Config, s: State)
    requires Reachable(c, s)
    ensures Inv(c, s) && (Injective(c.hash) ==> SizeInv(s))
  {
    var t :| Run(c, t) && t[|t| - 1] == s;
    RunKeepsInv(c, t, |t| - 1);
  }

  // Whatever races, crashes and lost responses came before, every marker has its
  // object, with the right content and the right size.
  lemma NoDanglingMarker(c: Config, s: State, id: StoreId)
    requires Reachable(c, s) && id in s.bucket.refs
    ensures s.bucket.blob.Some? && c.hash(s.bucket.blob.value) == c.digest
    ensures Injective(c.hash) ==> s.bucket.refs[id].size == |s.bucket.blob.value|
  {
    ReachableInv(c, s);
  }

  // An Open that passed the gate always finds the object, and reports its length.
  lemma OpenPastTheGateSucceeds(c: Config, s: State, p: Pid)
    requires Reachable(c, s) && p in s.procs && s.procs[p].Opener? && s.procs[p].opc.Fetch?
    ensures var a := Step(c, s, p, Go).value.procs[p];
            && a.opc.OpenDone? && a.opc.res == Ok && a.opc.got.Some?
            && c.hash(a.opc.got.value.0) == c.digest && a.opc.got.value.1.labels == s.procs[p].opc.meta.labels
            && (Injective(c.hash) ==> a.opc.got.value.1.size == |a.opc.got.value.0|)
  {
    ReachableInv(c, s);
  }

  lemma StepKeepsContent(c: Config, s: State, p: Pid, act: Action)
    requires Injective(c.hash) && Inv(c, s) && s.bucket.blob.Some? && Step(c, s, p, act).Some?
    ensures Step(c, s, p, act).value.bucket.blob == s.bucket.blob
  {
  }

  // Committed content is never lost or changed, whoever crashes or erases.
  lemma {:induction false} ContentIsForever(c: Config, t: seq<State>, i: nat, j: nat)
    requires Injective(c.hash) && Run(c, t) && i <= j < |t| && t[i].bucket.blob.Some?
    ensures t[j].bucket.blob == t[i].bucket.blob
    decreases j
  {
    if i < j {
      ContentIsForever(c, t, i, j - 1);
      RunKeepsInv(c, t, j - 1);
      assert Next(c, t[j - 1], t[j - 1 + 1]);
      var p, act :| Step(c, t[j - 1], p, act) == Some(t[j]);
      StepKeepsContent(c, t[j - 1], p, act);
    }
  }

  // A call shows only in its own store.
  lemma StoresAreIsolated(c: Config, s: State, p: Pid, act: Action, id: StoreId)
    requires Step(c, s, p, act).Some? && (p in s.procs ==> s.procs[p].id != id)
    ensures var s' := Step(c, s, p, act).value;
            (id in s'.bucket.refs <==> id in s.bucket.refs)
            && (id in s.bucket.refs ==> s'.bucket.refs[id] == s.bucket.refs[id])
  {
  }

  // ---- What the answers mean ----

  function Decided(a: Proc): Option<Result> {
    match a
    case Adder(_, _, _, _, pc) => if pc.AddDone? then Some(pc.res) else None
    case Labeler(_, _, pc) => if pc.LabelDone? then Some(pc.res) else None
    case Eraser(_, pc) => if pc.EraseDone? then Some(pc.res) else None
    case Opener(_, pc) => if pc.OpenDone? then Some(pc.res) else None
  }

  // Each answer is true at the request that decides it, whatever else is running.
  lemma AnswersAreTrue(c: Config, s: State, p: Pid)
    requires Reachable(c, s) && p in s.procs && !Finished(s.procs[p])
    ensures var s' := Step(c, s, p, Go).value; var a := s.procs[p]; var refs := s'.bucket.refs;
            match Decided(s'.procs[p]) {
              case None => true
              case Some(out) =>
                && (out == Ok && a.Adder? ==> c.hash(a.content) == c.digest && a.id in refs && refs[a.id] == Marker(a.labels, |a.content|))
                && (out == Ok && a.Labeler? ==> a.id in refs && refs[a.id].labels == a.labels)
                && (out == Ok && a.Eraser? ==> a.id !in refs)
                && (out == Ok && a.Opener? ==> a.opc.Fetch? && s.bucket.blob.Some?
                                               && s'.procs[p].opc.got == Some((s.bucket.blob.value, a.opc.meta)))
                && (out == AlreadyExists ==> a.Adder? && a.id in refs)
                && (out == DigestMismatch ==> a.Adder? && c.hash(a.content) != c.digest)
                && (out == NotExist ==> (a.Labeler? || a.Opener?) && a.id !in refs)
                && out != OtherError
                && (out != Ok ==> s'.bucket == s.bucket)
            }
    // A call that starts at a missing marker says NotExist, and at no other.
    ensures var a, out := s.procs[p], Decided(Step(c, s, p, Go).value.procs[p]);
            (a.Opener? && a.opc.HeadToOpen?) || (a.Labeler? && a.lpc.HeadToLabel?) ==> (out == Some(NotExist) <==> a.id !in s.bucket.refs)
    ensures var a, out := s.procs[p], Decided(Step(c, s, p, Go).value.procs[p]);
            a.Adder? && (if a.given then a.apc.HeadGiven? else a.apc.HeadComputed?) ==> (out == Some(AlreadyExists) <==> a.id in s.bucket.refs)
  {
    ReachableInv(c, s);
  }

  // ---- Calls on the same store and digest that do not overlap ----

  // Calls of different stores may still race as they like.
  ghost predicate Serial(s: State) {
    forall p, q :: p in s.procs && q in s.procs && p != q && !Finished(s.procs[p]) && !Finished(s.procs[q]) ==>
      s.procs[p].id != s.procs[q].id
  }

  // What a call has read of its marker is still so.
  ghost predicate UpToDate(b: Bucket, a: Proc) {
    match a
    case Adder(id, _, _, given, pc) =>
      (pc.HeadBlob? || pc.PutBlob? || pc.PutRef? || (given && pc.Buffer?)) ==> id !in b.refs
    case Labeler(id, _, pc) => pc.PutLabels? ==> id in b.refs && b.refs[id].size == pc.size
    case Eraser(_, _) => true
    case Opener(id, pc) => pc.Fetch? ==> id in b.refs && b.refs[id] == pc.meta
  }

  ghost predicate SerialRun(c: Config, t: seq<State>) {
    Run(c, t) && forall k :: 0 <= k < |t| ==> Serial(t[k])
  }

  lemma StepStaysUpToDate(c: Config, s: State, p: Pid, act: Action)
    requires Serial(s) && Step(c, s, p, act).Some?
    requires forall q :: q in s.procs ==> UpToDate(s.bucket, s.procs[q])
    ensures var s' := Step(c, s, p, act).value; forall q :: q in s'.procs ==> UpToDate(s'.bucket, s'.procs[q])
  {
    var s' := Step(c, s, p, act).value;
    forall q | q in s'.procs ensures UpToDate(s'.bucket, s'.procs[q]) {
      if q != p {
        assert UpToDate(s.bucket, s.procs[q]);
        if p in s.procs && !Finished(s.procs[q]) && !Finished(s.procs[p]) { StoresAreIsolated(c, s, p, act, s.procs[q].id); }
      } else if q in s.procs {
        assert UpToDate(s.bucket, s.procs[q]);
      }
    }
  }

  lemma {:induction false} SerialCallsAreUpToDate(c: Config, t: seq<State>, k: nat)
    requires SerialRun(c, t) && k < |t|
    ensures forall q :: q in t[k].procs ==> UpToDate(t[k].bucket, t[k].procs[q])
    decreases k
  {
    if k > 0 {
      SerialCallsAreUpToDate(c, t, k - 1);
      assert Next(c, t[k - 1], t[k - 1 + 1]);
      var p, act :| Step(c, t[k - 1], p, act) == Some(t[k]);
      StepStaysUpToDate(c, t[k - 1], p, act);
    }
  }

  // Then an Add that commits never meets another marker, and a Label never brings
  // back one that was erased. The witnesses below show that the overlap matters.
  lemma SerialCallsActOnWhatTheyRead(c: Config, t: seq<State>, k: nat, p: Pid)
    requires SerialRun(c, t) && k < |t| && p in t[k].procs && !Finished(t[k].procs[p])
    ensures var b := t[k].bucket; var a := t[k].procs[p];
            && (a.Adder? && a.apc.PutRef? ==> a.id !in b.refs)
            && (a.Labeler? && a.lpc.PutLabels? ==>
                  a.id in b.refs && Performed(c, b, a).bucket.refs[a.id] == b.refs[a.id].(labels := a.labels))
            && (a.Opener? && a.opc.Fetch? ==> a.id in b.refs && b.refs[a.id] == a.opc.meta)
  {
    SerialCallsAreUpToDate(c, t, k);
    assert UpToDate(t[k].bucket, t[k].procs[p]);
  }

  // ---- What the protocol does not promise ----

  function Taken(c: Config, s: State, p: Pid, act: Action): State {
    if Step(c, s, p, act).Some? then Step(c, s, p, act).value else s
  }

  lemma TakenReachable(c: Config, s: State, p: Pid, act: Action)
    requires Reachable(c, s)
    ensures Reachable(c, Taken(c, s, p, act))
  {
    if Step(c, s, p, act).Some? {
      var s' := Step(c, s, p, act).value;
      var t :| Run(c, t) && t[|t| - 1] == s;
      var t' := t + [s'];
      assert Next(c, s, s');
      forall k | 0 <= k < |t'| - 1 ensures Next(c, t'[k], t'[k + 1]) {
        if k < |t| - 1 { assert Next(c, t[k], t[k + 1]); }
      }
      assert Run(c, t') && t'[|t'| - 1] == s';
    }
  }

  lemma InitialReachable(c: Config)
    ensures Reachable(c, INITIAL)
  {
    assert Run(c, [INITIAL]) && [INITIAL][|[INITIAL]| - 1] == INITIAL;
  }

  lemma Take(c: Config, s: State, p: Pid, act: Action, s': State)
    requires Reachable(c, s) && Step(c, s, p, act).Some?
    requires s'.bucket == Step(c, s, p, act).value.bucket && s'.procs == Step(c, s, p, act).value.procs
    ensures Reachable(c, s')
  {
    TakenReachable(c, s, p, act);
    assert s' == Taken(c, s, p, act);
  }

  function Adding(id: StoreId, content: Bytes, pc: AddPc): Proc {
    Adder(id, content, map[], true, pc)
  }

  lemma BothPassTheGate(c: Config, content: Bytes, id: StoreId)
    requires c.hash(content) == c.digest
    ensures Reachable(c, State(Bucket(None, map[]), map[1 := Adding(id, content, Buffer), 2 := Adding(id, content, Buffer)]))
  {
    var b := Bucket(None, map[]);
    var a := Adding(id, content, HeadGiven);
    var s1 := State(b, map[1 := a]);
    var s2 := State(b, map[1 := a, 2 := a]);
    var s3 := State(b, map[1 := Adding(id, content, Buffer), 2 := a]);
    InitialReachable(c);
    Take(c, INITIAL, 1, Start(a), s1);
    Take(c, s1, 2, Start(a), s2);
    Take(c, s2, 1, Go, s3);
    Take(c, s3, 2, Go, State(b, map[1 := Adding(id, content, Buffer), 2 := Adding(id, content, Buffer)]));
  }

  lemma UploadOnce(c: Config, content: Bytes, id: StoreId, other: map<Pid, Proc>)
    requires c.hash(content) == c.digest && 1 !in other
    requires Reachable(c, State(Bucket(None, map[]), other[1 := Adding(id, content, Buffer)]))
    ensures Reachable(c, State(Bucket(Some(content), map[id := Marker(map[], |content|)]), other[1 := Adding(id, content, AddDone(Ok))]))
  {
    var b := Bucket(None, map[]);
    var b' := Bucket(Some(content), map[]);
    var s1 := State(b, other[1 := Adding(id, content, HeadBlob)]);
    var s2 := State(b, other[1 := Adding(id, content, PutBlob)]);
    var s3 := State(b', other[1 := Adding(id, content, PutRef)]);
    Take(c, State(b, other[1 := Adding(id, content, Buffer)]), 1, Go, s1);
    Take(c, s1, 1, Go, s2);
    Take(c, s2, 1, Go, s3);
    Take(c, s3, 1, Go, State(Bucket(Some(content), map[id := Marker(map[], |content|)]), other[1 := Adding(id, content, AddDone(Ok))]));
  }

  // Check-then-put: two Adds of one blob to one store can both succeed.
  lemma TwoAddsBothSucceed(c: Config, content: Bytes, id: StoreId)
    requires c.hash(content) == c.digest
    ensures Reachable(c, State(Bucket(Some(content), map[id := Marker(map[], |content|)]),
                               map[1 := Adding(id, content, AddDone(Ok)), 2 := Adding(id, content, AddDone(Ok))]))
  {
    var b := Bucket(Some(content), map[id := Marker(map[], |content|)]);
    var other := map[2 := Adding(id, content, Buffer)];
    BothPassTheGate(c, content, id);
    assert other[1 := Adding(id, content, Buffer)] == map[1 := Adding(id, content, Buffer), 2 := Adding(id, content, Buffer)];
    UploadOnce(c, content, id, other);
    var one := Adding(id, content, AddDone(Ok));
    var s0 := State(b, other[1 := one]);
    var s1 := State(b, map[1 := one, 2 := Adding(id, content, HeadBlob)]);
    var s2 := State(b, map[1 := one, 2 := Adding(id, content, PutRef)]);
    Take(c, s0, 2, Go, s1);
    Take(c, s1, 2, Go, s2);
    Take(c, s2, 2, Go, State(b, map[1 := one, 2 := Adding(id, content, AddDone(Ok))]));
  }

  lemma AddAlone(c: Config, content: Bytes, id: StoreId)
    requires c.hash(content) == c.digest
    ensures Reachable(c, State(Bucket(Some(content), map[id := Marker(map[], |content|)]), map[1 := Adding(id, content, AddDone(Ok))]))
  {
    var b := Bucket(None, map[]);
    var s1 := State(b, map[1 := Adding(id, content, HeadGiven)]);
    InitialReachable(c);
    Take(c, INITIAL, 1, Start(Adding(id, content, HeadGiven)), s1);
    Take(c, s1, 1, Go, State(b, map[1 := Adding(id, content, Buffer)]));
    assert map[][1 := Adding(id, content, Buffer)] == map[1 := Adding(id, content, Buffer)];
    UploadOnce(c, content, id, map[]);
    assert map[][1 := Adding(id, content, AddDone(Ok))] == map[1 := Adding(id, content, AddDone(Ok))];
  }

  // A Label that read the marker before an Erase removed it puts it back, after the
  // Erase has returned.
  lemma LabelResurrects(c: Config, content: Bytes, id: StoreId, labels: Labels)
    requires c.hash(content) == c.digest
    ensures Reachable(c, State(Bucket(Some(content), map[id := Marker(labels, |content|)]),
                               map[1 := Adding(id, content, AddDone(Ok)), 2 := Labeler(id, labels, LabelDone(Ok)), 3 := Eraser(id, EraseDone(Ok))]))
  {
    var one := Adding(id, content, AddDone(Ok));
    var b := Bucket(Some(content), map[id := Marker(map[], |content|)]);
    AddAlone(c, content, id);
    ReadThenErase(c, State(b, map[1 := one]), content, id, labels);
    var s4 := State(Bucket(Some(content), map[]), map[1 := one, 2 := Labeler(id, labels, PutLabels(|content|)), 3 := Eraser(id, EraseDone(Ok))]);
    Take(c, s4, 2, Go, State(Bucket(Some(content), map[id := Marker(labels, |content|)]),
                             map[1 := one, 2 := Labeler(id, labels, LabelDone(Ok)), 3 := Eraser(id, EraseDone(Ok))]));
  }

  lemma ReadThenErase(c: Config, s: State, content: Bytes, id: StoreId, labels: Labels)
    requires Reachable(c, s) && s == State(Bucket(Some(content), map[id := Marker(map[], |content|)]), map[1 := Adding(id, content, AddDone(Ok))])
    ensures Reachable(c, State(Bucket(Some(content), map[]),
                               map[1 := Adding(id, content, AddDone(Ok)), 2 := Labeler(id, labels, PutLabels(|content|)), 3 := Eraser(id, EraseDone(Ok))]))
  {
    var one := Adding(id, content, AddDone(Ok));
    var b := s.bucket;
    var reading := Labeler(id, labels, HeadToLabel);
    var read := Labeler(id, labels, PutLabels(|content|));
    var s1 := State(b, map[1 := one, 2 := reading]);
    var s2 := State(b, map[1 := one, 2 := read]);
    var s3 := State(b, map[1 := one, 2 := read, 3 := Eraser(id, DeleteRef)]);
    Take(c, s, 2, Start(reading), s1);
    Take(c, s1, 2, Go, s2);
    Take(c, s2, 3, Start(Eraser(id, DeleteRef)), s3);
    Take(c, s3, 3, Go, State(Bucket(Some(content), map[]), map[1 := one, 2 := read, 3 := Eraser(id, EraseDone(Ok))]));
  }
}
