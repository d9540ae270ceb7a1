/** What the answers of the S3 calls say about the run before them: each call went by its
    own store's marker, as a request of its own found it. */
module S3Answers {
  import opened Base
  import opened S3Protocol
  import opened S3Safety

  // The call p makes a request in t[i], and goes on.
  ghost predicate Acts(t: seq<State>, i: nat, p: Pid) {
    i + 1 < |t| && p in t[i].procs && p in t[i + 1].procs && t[i + 1].procs[p] != t[i].procs[p]
  }

  // p is one call from t[i] to t[k]; after a crash its name may be used again.
  ghost predicate Alive(t: seq<State>, i: nat, k: nat, p: Pid) {
    forall j: nat :: i <= j <= k && j < |t| ==> p in t[j].procs
  }

  // ---- Open and Get ----

  ghost predicate Gate(t: seq<State>, i: nat, p: Pid, id: StoreId, marker: Option<Marker>) {
    && Acts(t, i, p) && t[i].procs[p].Opener? && t[i].procs[p].id == id && t[i].procs[p].opc == HeadToOpen
    && (if marker.Some? then id in t[i].bucket.refs && t[i].bucket.refs[id] == marker.value else id !in t[i].bucket.refs)
  }

  ghost predicate Fetches(t: seq<State>, i: nat, p: Pid, id: StoreId, content: Bytes) {
    && Acts(t, i, p) && t[i].procs[p].Opener? && t[i].procs[p].id == id && t[i].procs[p].opc.Fetch?
    && t[i].bucket.blob == Some(content)
  }

  ghost predicate Passed(t: seq<State>, k: nat, p: Pid, id: StoreId, marker: Option<Marker>) {
    exists i: nat :: i < k && Gate(t, i, p, id, marker) && Alive(t, i, k, p)
  }

  ghost predicate Fetched(t: seq<State>, k: nat, p: Pid, id: StoreId, content: Bytes) {
    exists i: nat :: i < k && Fetches(t, i, p, id, content) && Alive(t, i, k, p)
  }

  // Lost responses make a call fail, whatever it found.
  ghost predicate OpenExplained(t: seq<State>, k: nat, p: Pid, id: StoreId, pc: OpenPc) {
    match pc
    case HeadToOpen => true
    case Fetch(marker) => Passed(t, k, p, id, Some(marker))
    case OpenDone(res, got) =>
      (match res
       case Ok => got.Some? && Passed(t, k, p, id, Some(got.value.1)) && Fetched(t, k, p, id, got.value.0)
       case NotExist => got == None && Passed(t, k, p, id, None)
       case OtherError => got == None
       case _ => false)
  }

  // ---- Label ----

  ghost predicate LabelGate(t: seq<State>, i: nat, p: Pid, id: StoreId, size: Option<nat>) {
    && Acts(t, i, p) && t[i].procs[p].Labeler? && t[i].procs[p].id == id && t[i].procs[p].lpc == HeadToLabel
    && (if size.Some? then id in t[i].bucket.refs && t[i].bucket.refs[id].size == size.value else id !in t[i].bucket.refs)
  }

  ghost predicate Writes(t: seq<State>, i: nat, p: Pid, id: StoreId, marker: Marker) {
    && Acts(t, i, p) && t[i].procs[p].id == id
    && t[i + 1].bucket.blob == t[i].bucket.blob && t[i + 1].bucket.refs == t[i].bucket.refs[id := marker]
  }

  ghost predicate LabelPassed(t: seq<State>, k: nat, p: Pid, id: StoreId, size: Option<nat>) {
    exists i: nat :: i < k && LabelGate(t, i, p, id, size) && Alive(t, i, k, p)
  }

  ghost predicate Wrote(t: seq<State>, k: nat, p: Pid, id: StoreId, marker: Marker) {
    exists i: nat :: i < k && Writes(t, i, p, id, marker) && Alive(t, i, k, p)
  }

  ghost predicate Relabelled(t: seq<State>, k: nat, p: Pid, id: StoreId, labels: Labels) {
    exists size :: LabelPassed(t, k, p, id, Some(size)) && Wrote(t, k, p, id, Marker(labels, size))
  }

  ghost predicate LabelExplained(t: seq<State>, k: nat, p: Pid, id: StoreId, labels: Labels, pc: LabelPc) {
    match pc
    case HeadToLabel => true
    case PutLabels(size) => LabelPassed(t, k, p, id, Some(size))
    case LabelDone(res) =>
      (match res
       case Ok => Relabelled(t, k, p, id, labels)
       case NotExist => LabelPassed(t, k, p, id, None)
       case OtherError => true
       case _ => false)
  }

  // ---- Add and Erase ----

  // The check of the marker, before the content is read or after.
  ghost predicate AddGate(t: seq<State>, i: nat, p: Pid, id: StoreId, given: bool, there: bool) {
    && Acts(t, i, p) && t[i].procs[p].Adder? && t[i].procs[p].id == id && t[i].procs[p].given == given
    && t[i].procs[p].apc == (if given then HeadGiven else HeadComputed)
    && (there <==> id in t[i].bucket.refs)
  }

  ghost predicate AddPassed(t: seq<State>, k: nat, p: Pid, id: StoreId, given: bool, there: bool) {
    exists i: nat :: i < k && AddGate(t, i, p, id, given, there) && Alive(t, i, k, p)
  }

  ghost predicate AddExplained(c: Config, t: seq<State>, k: nat, p: Pid, a: Proc, pc: AddPc)
    requires a.Adder?
  {
    match pc
    case HeadGiven => true
    case Buffer => a.given ==> AddPassed(t, k, p, a.id, true, false)
    case HeadComputed => !a.given
    case AddDone(res) =>
      (match res
       case Ok => AddPassed(t, k, p, a.id, a.given, false) && Wrote(t, k, p, a.id, Marker(a.labels, |a.content|))
       case AlreadyExists => AddPassed(t, k, p, a.id, a.given, true)
       case DigestMismatch => a.given && AddPassed(t, k, p, a.id, true, false) && c.hash(a.content) != c.digest
       case OtherError => true
       case _ => false)
    case _ => AddPassed(t, k, p, a.id, a.given, false)
  }

  ghost predicate Removes(t: seq<State>, i: nat, p: Pid, id: StoreId) {
    && Acts(t, i, p) && t[i].procs[p].Eraser? && t[i].procs[p].id == id
    && t[i + 1].bucket.blob == t[i].bucket.blob && t[i + 1].bucket.refs == t[i].bucket.refs - {id}
  }

  ghost predicate EraseExplained(t: seq<State>, k: nat, p: Pid, id: StoreId, pc: ErasePc) {
    match pc
    case DeleteRef => true
    case EraseDone(res) =>
      if res == Ok then exists i: nat :: i < k && Removes(t, i, p, id) && Alive(t, i, k, p) else res == OtherError
  }

  ghost predicate Explained(c: Config, t: seq<State>, k: nat, p: Pid)
    requires k < |t| && p in t[k].procs
  {
    match t[k].procs[p]
    case Adder(_, _, _, _, pc) => AddExplained(c, t, k, p, t[k].procs[p], pc)
    case Labeler(id, labels, pc) => LabelExplained(t, k, p, id, labels, pc)
    case Eraser(id, pc) => EraseExplained(t, k, p, id, pc)
    case Opener(id, pc) => OpenExplained(t, k, p, id, pc)
  }

  // ---- Proofs ----

  lemma PassedLater(t: seq<State>, k: nat, p: Pid, id: StoreId)
    requires k + 1 < |t| && p in t[k + 1].procs
    ensures forall m :: Passed(t, k, p, id, m) ==> Passed(t, k + 1, p, id, m)
    ensures forall content :: Fetched(t, k, p, id, content) ==> Fetched(t, k + 1, p, id, content)
  {
    forall m | Passed(t, k, p, id, m) ensures Passed(t, k + 1, p, id, m) {
      var i: nat :| i < k && Gate(t, i, p, id, m) && Alive(t, i, k, p);
      assert Alive(t, i, k + 1, p);
    }
    forall content | Fetched(t, k, p, id, content) ensures Fetched(t, k + 1, p, id, content) {
      var i: nat :| i < k && Fetches(t, i, p, id, content) && Alive(t, i, k, p);
      assert Alive(t, i, k + 1, p);
    }
  }

  lemma LabelPassedLater(t: seq<State>, k: nat, p: Pid, id: StoreId)
    requires k + 1 < |t| && p in t[k + 1].procs
    ensures forall size :: LabelPassed(t, k, p, id, size) ==> LabelPassed(t, k + 1, p, id, size)
    ensures forall m :: Wrote(t, k, p, id, m) ==> Wrote(t, k + 1, p, id, m)
  {
    forall size | LabelPassed(t, k, p, id, size) ensures LabelPassed(t, k + 1, p, id, size) {
      var i: nat :| i < k && LabelGate(t, i, p, id, size) && Alive(t, i, k, p);
      assert Alive(t, i, k + 1, p);
    }
    forall m | Wrote(t, k, p, id, m) ensures Wrote(t, k + 1, p, id, m) {
      var i: nat :| i < k && Writes(t, i, p, id, m) && Alive(t, i, k, p);
      assert Alive(t, i, k + 1, p);
    }
  }

  lemma AddPassedLater(t: seq<State>, k: nat, p: Pid, id: StoreId)
    requires k + 1 < |t| && p in t[k + 1].procs
    ensures forall given, there :: AddPassed(t, k, p, id, given, there) ==> AddPassed(t, k + 1, p, id, given, there)
  {
    forall given, there | AddPassed(t, k, p, id, given, there) ensures AddPassed(t, k + 1, p, id, given, there) {
      var i: nat :| i < k && AddGate(t, i, p, id, given, there) && Alive(t, i, k, p);
      assert Alive(t, i, k + 1, p);
    }
  }

  lemma StaysExplained(c: Config, t: seq<State>, k: nat, p: Pid)
    requires k + 1 < |t| && p in t[k].procs && p in t[k + 1].procs && t[k + 1].procs[p] == t[k].procs[p] && Explained(c, t, k, p)
    ensures Explained(c, t, k + 1, p)
  {
    var id := t[k].procs[p].id;
    match t[k].procs[p]
    case Adder(_, _, _, _, _) =>
      AddPassedLater(t, k, p, id);
      LabelPassedLater(t, k, p, id);
    case Labeler(_, labels, _) =>
      LabelPassedLater(t, k, p, id);
      if Relabelled(t, k, p, id, labels) { assert Relabelled(t, k + 1, p, id, labels); }
    case Eraser(_, pc) =>
      if pc.EraseDone? && pc.res == Ok {
        var i: nat :| i < k && Removes(t, i, p, id) && Alive(t, i, k, p);
        assert Alive(t, i, k + 1, p);
      }
    case Opener(_, _) => PassedLater(t, k, p, id);
  }

  lemma OpenRequestExplained(c: Config, t: seq<State>, k: nat, p: Pid)
    requires k + 1 < |t| && p in t[k].procs && t[k].procs[p].Opener? && !Finished(t[k].procs[p]) && Explained(c, t, k, p)
    requires Step(c, t[k], p, Go) == Some(t[k + 1]) && Inv(c, t[k])
    ensures p in t[k + 1].procs && Explained(c, t, k + 1, p)
  {
    var a := t[k].procs[p];
    PassedLater(t, k, p, a.id);
    match a.opc
    case HeadToOpen =>
      var marker := if a.id in t[k].bucket.refs then Some(t[k].bucket.refs[a.id]) else None;
      assert Gate(t, k, p, a.id, marker) && Alive(t, k, k + 1, p);
      assert Passed(t, k + 1, p, a.id, marker);
    case Fetch(_) =>
      assert Fetches(t, k, p, a.id, t[k].bucket.blob.value) && Alive(t, k, k + 1, p);
      assert Fetched(t, k + 1, p, a.id, t[k].bucket.blob.value);
  }

  lemma LabelRequestExplained(c: Config, t: seq<State>, k: nat, p: Pid)
    requires k + 1 < |t| && p in t[k].procs && t[k].procs[p].Labeler? && !Finished(t[k].procs[p]) && Explained(c, t, k, p)
    requires Step(c, t[k], p, Go) == Some(t[k + 1])
    ensures p in t[k + 1].procs && Explained(c, t, k + 1, p)
  {
    var a := t[k].procs[p];
    LabelPassedLater(t, k, p, a.id);
    match a.lpc
    case HeadToLabel =>
      var size := if a.id in t[k].bucket.refs then Some(t[k].bucket.refs[a.id].size) else None;
      assert LabelGate(t, k, p, a.id, size) && Alive(t, k, k + 1, p);
      assert LabelPassed(t, k + 1, p, a.id, size);
    case PutLabels(size) =>
      assert Writes(t, k, p, a.id, Marker(a.labels, size)) && Alive(t, k, k + 1, p);
      assert Wrote(t, k + 1, p, a.id, Marker(a.labels, size));
  }

  lemma AddRequestExplained(c: Config, t: seq<State>, k: nat, p: Pid)
    requires k + 1 < |t| && p in t[k].procs && t[k].procs[p].Adder? && !Finished(t[k].procs[p]) && Explained(c, t, k, p)
    requires Step(c, t[k], p, Go) == Some(t[k + 1]) && IsCallOf(c, t[k].procs[p])
    ensures p in t[k + 1].procs && Explained(c, t, k + 1, p)
  {
    var a := t[k].procs[p];
    AddPassedLater(t, k, p, a.id);
    if (a.given && a.apc.HeadGiven?) || (!a.given && a.apc.HeadComputed?) {
      assert AddGate(t, k, p, a.id, a.given, a.id in t[k].bucket.refs) && Alive(t, k, k + 1, p);
      assert AddPassed(t, k + 1, p, a.id, a.given, a.id in t[k].bucket.refs);
    }
    if a.apc.PutRef? {
      assert Writes(t, k, p, a.id, Marker(a.labels, |a.content|)) && Alive(t, k, k + 1, p);
      assert Wrote(t, k + 1, p, a.id, Marker(a.labels, |a.content|));
    }
  }

  // An Add without a digest concerns the digest of its content.
  predicate IsCallOf(c: Config, a: Proc) {
    a.Adder? ==> a.given || c.hash(a.content) == c.digest
  }

  lemma EraseRequestExplained(c: Config, t: seq<State>, k: nat, p: Pid)
    requires k + 1 < |t| && p in t[k].procs && t[k].procs[p].Eraser? && !Finished(t[k].procs[p])
    requires Step(c, t[k], p, Go) == Some(t[k + 1])
    ensures p in t[k + 1].procs && Explained(c, t, k + 1, p)
  {
    assert Removes(t, k, p, t[k].procs[p].id) && Alive(t, k, k + 1, p);
  }

  lemma OwnStepExplained(c: Config, t: seq<State>, k: nat, p: Pid, act: Action)
    requires k + 1 < |t| && p in t[k].procs && Explained(c, t, k, p) && Inv(c, t[k]) && IsCallOf(c, t[k].procs[p])
    requires Step(c, t[k], p, act) == Some(t[k + 1]) && !act.Crash?
    ensures p in t[k + 1].procs && Explained(c, t, k + 1, p) && IsCallOf(c, t[k + 1].procs[p])
  {
    if act.Go? {
      match t[k].procs[p]
      case Adder(_, _, _, _, _) => AddRequestExplained(c, t, k, p);
      case Labeler(_, _, _) => LabelRequestExplained(c, t, k, p);
      case Eraser(_, _) => EraseRequestExplained(c, t, k, p);
      case Opener(_, _) => OpenRequestExplained(c, t, k, p);
    }
  }

  ghost predicate AllExplained(c: Config, t: seq<State>, k: nat)
    requires k < |t|
  {
    forall p {:trigger Explained(c, t, k, p)} :: p in t[k].procs ==> Explained(c, t, k, p) && IsCallOf(c, t[k].procs[p])
  }

  lemma NextExplains(c: Config, t: seq<State>, k: nat, p: Pid)
    requires k + 1 < |t| && p in t[k + 1].procs && Inv(c, t[k]) && Next(c, t[k], t[k + 1])
    requires p in t[k].procs ==> Explained(c, t, k, p) && IsCallOf(c, t[k].procs[p])
    ensures Explained(c, t, k + 1, p) && IsCallOf(c, t[k + 1].procs[p])
  {
    var q, act :| Step(c, t[k], q, act) == Some(t[k + 1]);
    if p in t[k].procs {
      if q == p { OwnStepExplained(c, t, k, p, act); } else { StaysExplained(c, t, k, p); }
    }
  }

  lemma {:induction false} AllAreExplained(c: Config, t: seq<State>, k: nat)
    requires Run(c, t) && k < |t|
    ensures AllExplained(c, t, k)
    decreases k
  {
    if k > 0 {
      AllAreExplained(c, t, k - 1);
      RunKeepsInv(c, t, k - 1);
      assert Next(c, t[k - 1], t[k - 1 + 1]);
      forall p | p in t[k].procs ensures Explained(c, t, k, p) && IsCallOf(c, t[k].procs[p]) {
        NextExplains(c, t, k - 1, p);
      }
    }
  }

  // Main result: in every run, with races, crashes and lost responses, an Open that
  // succeeds found its own store's marker at its first request and reports just that
  // marker, with the shared content; one that says NotExist found no such marker. A Label
  // that succeeds found the marker and rewrote it with its size and the new labels; an
  // Add that succeeds found none and wrote one, and one that says AlreadyExists found it;
  // an Erase that succeeds has removed it, and nothing else.
  lemma CallsAreExplained(c: Config, t: seq<State>, k: nat, p: Pid)
    requires Run(c, t) && k < |t| && p in t[k].procs
    ensures Explained(c, t, k, p)
  {
    AllAreExplained(c, t, k);
  }

  // So a store never reads what only other stores have.
  lemma NoMarkerNoContent(c: Config, t: seq<State>, k: nat, p: Pid)
    requires Run(c, t) && k < |t| && p in t[k].procs && t[k].procs[p].Opener?
    requires forall i: nat :: i < k ==> t[k].procs[p].id !in t[i].bucket.refs
    ensures t[k].procs[p].opc.OpenDone? ==> t[k].procs[p].opc.res != Ok && t[k].procs[p].opc.got == None
  {
    CallsAreExplained(c, t, k, p);
  }

  // A lost response never reads as success.
  lemma LostIsFailure(c: Config, s: State, p: Pid, performed: bool)
    requires Step(c, s, p, Lose(performed)).Some?
    ensures Decided(Step(c, s, p, Lose(performed)).value.procs[p]) == Some(OtherError)
    ensures !performed ==> Step(c, s, p, Lose(performed)).value.bucket == s.bucket
  {
  }
}
