/** What the answers of the file-system calls say about the run before them: each call
    saw what it reports, in its own store's directory, while it was running. */
module OsAnswers {
  import opened Base
  import opened OsProtocol
  import opened OsInvariant
  import opened OsSafety

  // ---- What a call saw, in plain terms ----

  // The call p goes on from t[i].
  ghost predicate Acts(t: seq<State>, i: nat, p: Pid) {
    i + 1 < |t| && p in t[i].procs && p in t[i + 1].procs && t[i + 1].procs[p] != t[i].procs[p]
  }

  // The call p of store id goes on, and the directory has the blob, or not.
  ghost predicate Sees(t: seq<State>, i: nat, p: Pid, id: StoreId, there: bool) {
    && Acts(t, i, p) && t[i].procs[p].id == id
    && (there <==> id in t[i].repos && t[i].repos[id].blob.Some?)
  }

  // An Open or Get at its stat of the blob.
  ghost predicate Stats(t: seq<State>, i: nat, p: Pid, id: StoreId, there: bool) {
    Sees(t, i, p, id, there) && t[i].procs[p].Opener? && t[i].procs[p].opc == OpenStat
  }

  // It reads the labels file; a missing one has no labels.
  ghost predicate ReadsLabels(t: seq<State>, i: nat, p: Pid, id: StoreId, labels: Labels) {
    && Acts(t, i, p) && t[i].procs[p].Opener? && t[i].procs[p].id == id && t[i].procs[p].opc == OpenLabels
    && ((id in t[i].repos && t[i].repos[id].labels == Some(labels))
        || ((id !in t[i].repos || t[i].repos[id].labels == None) && labels == map[]))
  }

  // It opens the blob of its own store.
  ghost predicate Opens(t: seq<State>, i: nat, p: Pid, id: StoreId, fd: Inode, labels: Labels) {
    && Acts(t, i, p) && t[i].procs[p].Opener? && t[i].procs[p].id == id && t[i].procs[p].opc == OpenFile(labels)
    && id in t[i].repos && t[i].repos[id].blob == Some(fd)
  }

  ghost predicate Misses(t: seq<State>, i: nat, p: Pid, id: StoreId) {
    Sees(t, i, p, id, false) && t[i].procs[p].Opener? && (t[i].procs[p].opc == OpenStat || t[i].procs[p].opc.OpenFile?)
  }

  ghost predicate Looked(t: seq<State>, k: nat, p: Pid, id: StoreId, labels: Labels) {
    exists i: nat, j: nat :: i < j < k && Stats(t, i, p, id, true) && ReadsLabels(t, j, p, id, labels)
  }

  ghost predicate Opened(t: seq<State>, k: nat, p: Pid, id: StoreId, fd: Inode, labels: Labels) {
    Looked(t, k, p, id, labels) && exists i: nat :: i < k && Opens(t, i, p, id, fd, labels)
  }

  ghost predicate OpenExplained(t: seq<State>, k: nat, p: Pid, id: StoreId, bytes: bool, pc: OpenPc) {
    match pc
    case OpenStat => true
    case OpenLabels => exists i: nat :: i < k && Stats(t, i, p, id, true)
    case OpenFile(labels) => bytes && Looked(t, k, p, id, labels)
    case Reading(fd, labels) => bytes && Opened(t, k, p, id, fd, labels)
    case OpenDone(res, labels) =>
      (match res
       case Ok => if bytes then exists fd :: Opened(t, k, p, id, fd, labels) else Looked(t, k, p, id, labels)
       case NotExist => labels == map[] && exists i: nat :: i < k && Misses(t, i, p, id)
       case OtherError => k < |t| && IoError in t[k].faults
       case _ => false)
    case OpenCrashed => k < |t| && Crashed in t[k].faults
  }

  // A Label at its stat, or at its rename.
  ghost predicate LabelStats(t: seq<State>, i: nat, p: Pid, id: StoreId, there: bool) {
    Sees(t, i, p, id, there) && t[i].procs[p].Labeler? && t[i].procs[p].lpc == LabelStat
  }

  ghost predicate LabelMisses(t: seq<State>, i: nat, p: Pid, id: StoreId) {
    && Sees(t, i, p, id, false) && t[i].procs[p].Labeler?
    && (t[i].procs[p].lpc == LabelStat || (t[i].procs[p].lpc == LabelRename && id !in t[i].repos))
  }

  // Its rename put the labels there, and changed nothing else.
  ghost predicate Relabels(t: seq<State>, i: nat, p: Pid, id: StoreId, labels: Labels) {
    && Acts(t, i, p) && t[i].procs[p].Labeler? && t[i].procs[p].lpc == LabelRename
    && id in t[i].repos && t[i + 1].repos == t[i].repos[id := t[i].repos[id].(labels := Some(labels))]
    && t[i + 1].files == t[i].files && t[i + 1].share == t[i].share
  }

  ghost predicate LabelExplained(t: seq<State>, k: nat, p: Pid, id: StoreId, labels: Labels, pc: LabelPc) {
    match pc
    case LabelStat => true
    case LabelRename => exists i: nat :: i < k && LabelStats(t, i, p, id, true)
    case LabelDone(res) =>
      (match res
       case Ok => exists i: nat, j: nat :: i < j < k && LabelStats(t, i, p, id, true) && Relabels(t, j, p, id, labels)
       case NotExist => exists i: nat :: i < k && LabelMisses(t, i, p, id)
       case OtherError => k < |t| && IoError in t[k].faults
       case _ => false)
    case LabelCrashed => k < |t| && Crashed in t[k].faults
  }

  // An Add at its first check, or at the one under the lock.
  ghost predicate AddStats(t: seq<State>, i: nat, p: Pid, id: StoreId, first: bool, there: bool) {
    Sees(t, i, p, id, there) && t[i].procs[p].Adder? && t[i].procs[p].apc == if first then PreCheck else Recheck
  }

  ghost predicate WasThere(t: seq<State>, k: nat, p: Pid, id: StoreId) {
    exists i: nat, first :: i < k && AddStats(t, i, p, id, first, true)
  }

  ghost predicate WasMissing(t: seq<State>, k: nat, p: Pid, id: StoreId) {
    exists i: nat :: i < k && AddStats(t, i, p, id, true, false)
  }

  ghost predicate Troubled(t: seq<State>, k: nat) {
    k < |t| && (IoError in t[k].faults || AddAborted in t[k].faults)
  }

  // An answer of Add: what was there at its checks, or what went wrong.
  ghost predicate AddAnswered(t: seq<State>, k: nat, p: Pid, id: StoreId, res: Result) {
    match res
    case AlreadyExists => WasThere(t, k, p, id)
    case OtherError => Troubled(t, k)
    case NotExist => false
    case _ => WasMissing(t, k, p, id)
  }

  // Past the first check nothing was there then.
  ghost predicate AddExplained(t: seq<State>, k: nat, p: Pid, id: StoreId, pc: AddPc) {
    match pc
    case PreCheck => true
    case AddDone(res) => AddAnswered(t, k, p, id, res)
    case AddCrashed => k < |t| && Crashed in t[k].faults
    case Unlock(out) => AddAnswered(t, k, p, id, out) && WasMissing(t, k, p, id)
    case Discard(why) => AddAnswered(t, k, p, id, why) && WasMissing(t, k, p, id)
    case _ => WasMissing(t, k, p, id)
  }

  // An Erase leaves its sweep: its store's directory is gone.
  ghost predicate Sweeps(t: seq<State>, i: nat, p: Pid, id: StoreId) {
    Acts(t, i, p) && t[i].procs[p].Eraser? && t[i].procs[p].id == id && t[i].procs[p].epc.Wipe? && id !in t[i + 1].repos
  }

  ghost predicate Swept(t: seq<State>, k: nat, p: Pid, id: StoreId) {
    exists i: nat :: i < k && Sweeps(t, i, p, id)
  }

  ghost predicate EraseExplained(t: seq<State>, k: nat, p: Pid, id: StoreId, pc: ErasePc) {
    match pc
    case Wipe(_) => true
    case EraseDone(res) =>
      (match res
       case Ok => Swept(t, k, p, id)
       case OtherError => k < |t| && (IoError in t[k].faults || EraseNotEmpty in t[k].faults)
       case _ => false)
    case EraseCrashed => k < |t| && Crashed in t[k].faults
    case _ => Swept(t, k, p, id)
  }

  ghost predicate Explained(t: seq<State>, k: nat, p: Pid)
    requires k < |t| && p in t[k].procs
  {
    match t[k].procs[p]
    case Adder(id, _, _, pc) => AddExplained(t, k, p, id, pc)
    case Eraser(id, pc) => EraseExplained(t, k, p, id, pc)
    case Labeler(id, labels, pc) => LabelExplained(t, k, p, id, labels, pc)
    case Opener(id, bytes, pc) => OpenExplained(t, k, p, id, bytes, pc)
  }

  // ---- One step of the call itself ----

  lemma FileStepExplained(t: seq<State>, k: nat, p: Pid, ch: Choice)
    requires k + 1 < |t| && p in t[k].procs && t[k].procs[p].Opener? && t[k].procs[p].opc.OpenFile? && Explained(t, k, p)
    requires OpenStep(t[k], p, t[k].procs[p], ch) == Some(t[k + 1])
    ensures p in t[k + 1].procs && Explained(t, k + 1, p)
  {
    var a := t[k].procs[p];
    var labels := a.opc.labels;
    var i: nat, j: nat :| i < j < k && Stats(t, i, p, a.id, true) && ReadsLabels(t, j, p, a.id, labels);
    if HasBlob(t[k], a.id) {
      assert Opens(t, k, p, a.id, t[k].repos[a.id].blob.value, labels);
      assert Opened(t, k + 1, p, a.id, t[k].repos[a.id].blob.value, labels);
    } else {
      assert Misses(t, k, p, a.id);
    }
  }

  lemma LabelsStepExplained(t: seq<State>, k: nat, p: Pid, ch: Choice)
    requires k + 1 < |t| && p in t[k].procs && t[k].procs[p].Opener? && t[k].procs[p].opc == OpenLabels && Explained(t, k, p)
    requires OpenStep(t[k], p, t[k].procs[p], ch) == Some(t[k + 1])
    ensures p in t[k + 1].procs && Explained(t, k + 1, p)
  {
    var a := t[k].procs[p];
    assert ReadsLabels(t, k, p, a.id, LabelsAt(t[k], a.id));
    var i: nat :| i < k && Stats(t, i, p, a.id, true);
    assert Looked(t, k + 1, p, a.id, LabelsAt(t[k], a.id));
  }

  lemma OpenStepExplained(t: seq<State>, k: nat, p: Pid, ch: Choice)
    requires k + 1 < |t| && p in t[k].procs && t[k].procs[p].Opener? && Explained(t, k, p)
    requires OpenStep(t[k], p, t[k].procs[p], ch) == Some(t[k + 1])
    ensures p in t[k + 1].procs && Explained(t, k + 1, p)
  {
    var a := t[k].procs[p];
    match a.opc
    case OpenStat => assert Stats(t, k, p, a.id, HasBlob(t[k], a.id)); assert !HasBlob(t[k], a.id) ==> Misses(t, k, p, a.id);
    case OpenLabels => LabelsStepExplained(t, k, p, ch);
    case OpenFile(_) => FileStepExplained(t, k, p, ch);
    case Reading(fd, labels) =>
      var i: nat, j: nat :| i < j < k && Stats(t, i, p, a.id, true) && ReadsLabels(t, j, p, a.id, labels);
      var m: nat :| m < k && Opens(t, m, p, a.id, fd, labels);
      assert Opened(t, k + 1, p, a.id, fd, labels);
    case _ =>
  }

  lemma LabelStepExplained(t: seq<State>, k: nat, p: Pid, ch: Choice)
    requires k + 1 < |t| && p in t[k].procs && t[k].procs[p].Labeler? && Explained(t, k, p)
    requires LabelStep(t[k], p, t[k].procs[p], ch) == Some(t[k + 1])
    ensures p in t[k + 1].procs && Explained(t, k + 1, p)
  {
    var a := t[k].procs[p];
    match a.lpc
    case LabelStat =>
      assert LabelStats(t, k, p, a.id, HasBlob(t[k], a.id));
      assert !HasBlob(t[k], a.id) ==> LabelMisses(t, k, p, a.id);
    case LabelRename =>
      var i: nat :| i < k && LabelStats(t, i, p, a.id, true);
      if a.id in t[k].repos {
        assert Relabels(t, k, p, a.id, a.labels);
      } else {
        assert LabelMisses(t, k, p, a.id);
      }
    case _ =>
  }

  lemma WasMissingLater(t: seq<State>, k: nat, p: Pid, id: StoreId)
    requires WasMissing(t, k, p, id)
    ensures WasMissing(t, k + 1, p, id)
  {
    var i: nat :| i < k && AddStats(t, i, p, id, true, false);
  }

  lemma WasThereLater(t: seq<State>, k: nat, p: Pid, id: StoreId)
    requires WasThere(t, k, p, id)
    ensures WasThere(t, k + 1, p, id)
  {
    var i: nat, first :| i < k && AddStats(t, i, p, id, first, true);
  }

  lemma SweptLater(t: seq<State>, k: nat, p: Pid, id: StoreId)
    requires Swept(t, k, p, id)
    ensures Swept(t, k + 1, p, id)
  {
    var i: nat :| i < k && Sweeps(t, i, p, id);
  }

  lemma EraseStepExplained(c: Config, t: seq<State>, k: nat, p: Pid, ch: Choice)
    requires k + 1 < |t| && p in t[k].procs && t[k].procs[p].Eraser? && Explained(t, k, p)
    requires EraseStep(c, t[k], p, t[k].procs[p], ch) == Some(t[k + 1])
    ensures p in t[k + 1].procs && Explained(t, k + 1, p)
  {
    var a := t[k].procs[p];
    EraseDecidesBy(c, t[k], p, ch);
    if Swept(t, k, p, a.id) { SweptLater(t, k, p, a.id); }
    if a.epc.Wipe? && t[k + 1].procs[p].epc == Nlink1 { assert Sweeps(t, k, p, a.id); }
  }

  lemma EraseDecidesBy(c: Config, s: State, p: Pid, ch: Choice)
    requires p in s.procs && s.procs[p].Eraser? && EraseStep(c, s, p, s.procs[p], ch).Some?
    ensures var a := s.procs[p]; var s' := EraseStep(c, s, p, a, ch).value;
            && p in s'.procs && s'.procs[p].Eraser? && s'.procs[p].id == a.id && !a.epc.EraseDone? && !a.epc.EraseCrashed?
            && var pc, pc' := a.epc, s'.procs[p].epc;
            && !pc'.EraseCrashed?
            && (pc.Wipe? ==> pc'.Wipe? || (pc' == Nlink1 && a.id !in s'.repos) || (pc' == EraseDone(OtherError) && EraseNotEmpty in s'.faults))
            && (!pc.Wipe? ==> !pc'.Wipe? && (pc'.EraseDone? ==> pc'.res == Ok))
  {
  }

  // Which answers an Add comes to, by its step.
  lemma AddDecidesBy(c: Config, s: State, p: Pid, ch: Choice)
    requires p in s.procs && s.procs[p].Adder? && AddStep(c, s, p, s.procs[p], ch).Some?
    ensures var a := s.procs[p]; var s' := AddStep(c, s, p, a, ch).value;
            && p in s'.procs && s'.procs[p].Adder? && s'.procs[p].id == a.id
            && var pc, pc' := a.apc, s'.procs[p].apc;
            && !pc'.PreCheck? && !pc'.AddCrashed? && !pc.AddDone? && !pc.AddCrashed?
            && (pc.PreCheck? ==> pc' == if HasBlob(s, a.id) then AddDone(AlreadyExists) else Verify)
            && (pc.Recheck? ==> pc' == if HasBlob(s, a.id) then Unlock(AlreadyExists) else MkStage)
            && (!pc.PreCheck? && !pc.Recheck? && !pc.Discard? && !pc.Unlock? ==>
                  (pc'.AddDone? ==> pc'.res == DigestMismatch) && (pc'.Unlock? ==> pc'.out == Ok) && (pc'.Discard? ==> pc'.why == OtherError && AddAborted in s'.faults))
            && (pc.Discard? ==> pc' == pc || pc' == Unlock(pc.why))
            && (pc.Unlock? ==> pc' == AddDone(pc.out))
  {
    if FillsStage(s.procs[p].apc) {
      FillDecidesBy(s, p, ch);
    } else if Publishes(s.procs[p].apc) {
      PublishDecidesBy(s, p, ch);
    } else if s.procs[p].apc.Clear? {
      ClearDecidesBy(s, p, ch);
    }
  }

  lemma FillDecidesBy(s: State, p: Pid, ch: Choice)
    requires p in s.procs && s.procs[p].Adder? && FillStep(s, p, s.procs[p], ch).Some?
    ensures var a := s.procs[p]; var s' := FillStep(s, p, a, ch).value;
            && p in s'.procs && s'.procs[p].Adder? && s'.procs[p].id == a.id
            && var pc, pc' := a.apc, s'.procs[p].apc;
            && !pc'.PreCheck? && !pc'.AddCrashed? && !pc'.AddDone? && FillsStage(pc)
            && (pc.Discard? ==> pc' == pc || pc' == Unlock(pc.why))
            && (!pc.Discard? ==> !pc'.Unlock? && (pc'.Discard? ==> pc'.why == OtherError && AddAborted in s'.faults))
  {
  }

  lemma PublishDecidesBy(s: State, p: Pid, ch: Choice)
    requires p in s.procs && s.procs[p].Adder? && PublishStep(s, p, s.procs[p], ch).Some?
    ensures var a := s.procs[p]; var s' := PublishStep(s, p, a, ch).value;
            && p in s'.procs && s'.procs[p].Adder? && s'.procs[p].id == a.id
            && var pc, pc' := a.apc, s'.procs[p].apc;
            && !pc'.PreCheck? && !pc'.AddCrashed? && !pc'.AddDone? && Publishes(pc)
            && (pc'.Unlock? ==> pc'.out == Ok) && (pc'.Discard? ==> pc'.why == OtherError && AddAborted in s'.faults)
  {
  }

  lemma ClearDecidesBy(s: State, p: Pid, ch: Choice)
    requires p in s.procs && s.procs[p].Adder? && ClearStep(s, p, s.procs[p], ch).Some?
    ensures var a := s.procs[p]; var s' := ClearStep(s, p, a, ch).value;
            && p in s'.procs && s'.procs[p].Adder? && s'.procs[p].id == a.id
            && var pc, pc' := a.apc, s'.procs[p].apc;
            && (pc'.Clear? || pc'.Rename? || (pc' == Discard(OtherError) && AddAborted in s'.faults)) && pc.Clear?
  {
  }

  lemma AddStepExplained(c: Config, t: seq<State>, k: nat, p: Pid, ch: Choice)
    requires k + 1 < |t| && p in t[k].procs && t[k].procs[p].Adder? && Explained(t, k, p)
    requires AddStep(c, t[k], p, t[k].procs[p], ch) == Some(t[k + 1])
    ensures p in t[k + 1].procs && Explained(t, k + 1, p)
  {
    var a := t[k].procs[p];
    AddDecidesBy(c, t[k], p, ch);
    AddFaultsGrow(c, t[k], p, ch);
    if a.apc.PreCheck? || a.apc.Recheck? { assert AddStats(t, k, p, a.id, a.apc.PreCheck?, HasBlob(t[k], a.id)); }
    if !a.apc.PreCheck? && WasMissing(t, k, p, a.id) { WasMissingLater(t, k, p, a.id); }
    if WasThere(t, k, p, a.id) { WasThereLater(t, k, p, a.id); }
  }

  // ---- Runs ----

  // What explained a call before explains it later.
  lemma StaysExplained(t: seq<State>, k: nat, p: Pid)
    requires k + 1 < |t| && p in t[k].procs && p in t[k + 1].procs && t[k + 1].procs[p] == t[k].procs[p]
    requires Explained(t, k, p) && t[k].faults <= t[k + 1].faults
    ensures Explained(t, k + 1, p)
  {
    match t[k].procs[p]
    case Adder(id, _, _, _) =>
      if WasMissing(t, k, p, id) { WasMissingLater(t, k, p, id); }
      if WasThere(t, k, p, id) { WasThereLater(t, k, p, id); }
    case Eraser(id, _) => if Swept(t, k, p, id) { SweptLater(t, k, p, id); }
    case Opener(id, _, _) =>
      forall labels | Looked(t, k, p, id, labels) ensures Looked(t, k + 1, p, id, labels) {
        var i: nat, j: nat :| i < j < k && Stats(t, i, p, id, true) && ReadsLabels(t, j, p, id, labels);
      }
      forall fd, labels | Opened(t, k, p, id, fd, labels) ensures Opened(t, k + 1, p, id, fd, labels) {
        var i: nat :| i < k && Opens(t, i, p, id, fd, labels);
      }
    case _ =>
  }

  lemma FaultsGrow(c: Config, s: State, p: Pid, ch: Choice)
    requires Step(c, s, p, ch).Some?
    ensures s.faults <= Step(c, s, p, ch).value.faults
    ensures ch.Crash? ==> Crashed in Step(c, s, p, ch).value.faults
    ensures ch.Fail? ==> IoError in Step(c, s, p, ch).value.faults
  {
    if !ch.Start? && !ch.Crash? && !ch.Fail? {
      if s.procs[p].Adder? { AddFaultsGrow(c, s, p, ch); }
      if s.procs[p].Eraser? { EraseFaultsGrow(c, s, p, ch); }
    }
  }

  lemma AddFaultsGrow(c: Config, s: State, p: Pid, ch: Choice)
    requires p in s.procs && s.procs[p].Adder? && AddStep(c, s, p, s.procs[p], ch).Some?
    ensures s.faults <= AddStep(c, s, p, s.procs[p], ch).value.faults
  {
    if FillsStage(s.procs[p].apc) { FillFaultsGrow(s, p, ch); }
  }

  lemma FillFaultsGrow(s: State, p: Pid, ch: Choice)
    requires p in s.procs && s.procs[p].Adder? && FillStep(s, p, s.procs[p], ch).Some?
    ensures s.faults <= FillStep(s, p, s.procs[p], ch).value.faults
  {
  }

  lemma EraseFaultsGrow(c: Config, s: State, p: Pid, ch: Choice)
    requires p in s.procs && s.procs[p].Eraser? && EraseStep(c, s, p, s.procs[p], ch).Some?
    ensures s.faults <= EraseStep(c, s, p, s.procs[p], ch).value.faults
  {
  }

  lemma FailedAddStops(a: Proc)
    requires a.Adder?
    ensures var pc, pc' := a.apc, Failed(a).apc;
            && (pc.Discard? ==> pc' == Unlock(pc.why))
            && (pc.Unlock? || pc.AddDone? || pc.AddCrashed? ==> pc' == pc)
            && (!pc.Discard? && !pc.Unlock? && !pc.AddDone? && !pc.AddCrashed? ==>
                  pc' == AddDone(OtherError) || (!pc.PreCheck? && (pc' == Unlock(OtherError) || pc' == Discard(OtherError))))
  {
  }

  lemma AddExplainedLater(t: seq<State>, k: nat, p: Pid, id: StoreId, pc: AddPc, pc': AddPc)
    requires AddExplained(t, k, p, id, pc) && k + 1 < |t| && t[k].faults <= t[k + 1].faults && IoError in t[k + 1].faults
    requires pc' == AddDone(OtherError) || (!pc.PreCheck? && !pc.AddDone? && !pc.AddCrashed? && (pc' == Unlock(OtherError) || pc' == Discard(OtherError)))
             || pc' == pc || (pc.Discard? && pc' == Unlock(pc.why))
    ensures AddExplained(t, k + 1, p, id, pc')
  {
    assert Troubled(t, k + 1);
    if WasMissing(t, k, p, id) { WasMissingLater(t, k, p, id); }
    if WasThere(t, k, p, id) { WasThereLater(t, k, p, id); }
  }

  lemma AddFailureExplained(t: seq<State>, k: nat, p: Pid)
    requires k + 1 < |t| && p in t[k].procs && t[k].procs[p].Adder? && !Finished(t[k].procs[p]) && Explained(t, k, p)
    requires p in t[k + 1].procs && t[k + 1].procs[p] == Failed(t[k].procs[p])
    requires t[k].faults <= t[k + 1].faults && IoError in t[k + 1].faults
    ensures Explained(t, k + 1, p)
  {
    var a := t[k].procs[p];
    FailedAddStops(a);
    AddExplainedLater(t, k, p, a.id, a.apc, Failed(a).apc);
  }

  // A failed or dying call reports no success that it had not decided on.
  lemma FailureExplained(c: Config, t: seq<State>, k: nat, p: Pid, ch: Choice)
    requires k + 1 < |t| && p in t[k].procs && Explained(t, k, p) && Step(c, t[k], p, ch) == Some(t[k + 1])
    requires ch.Crash? || ch.Fail?
    ensures p in t[k + 1].procs && Explained(t, k + 1, p)
  {
    var a := t[k].procs[p];
    if a.Eraser? && Swept(t, k, p, a.id) { SweptLater(t, k, p, a.id); }
    if t[k].procs[p].Adder? && ch.Fail? {
      FaultsGrow(c, t[k], p, ch);
      AddFailureExplained(t, k, p);
    } else {
      FaultsGrow(c, t[k], p, ch);
    }
  }

  lemma OwnStepExplained(c: Config, t: seq<State>, k: nat, p: Pid, ch: Choice)
    requires k + 1 < |t| && p in t[k].procs && Explained(t, k, p) && Step(c, t[k], p, ch) == Some(t[k + 1])
    ensures p in t[k + 1].procs && Explained(t, k + 1, p)
  {
    if ch.Crash? || ch.Fail? {
      FailureExplained(c, t, k, p, ch);
    } else {
      match t[k].procs[p]
      case Adder(_, _, _, _) => AddStepExplained(c, t, k, p, ch);
      case Eraser(_, _) => EraseStepExplained(c, t, k, p, ch);
      case Labeler(_, _, _) => LabelStepExplained(t, k, p, ch);
      case Opener(_, _, _) => OpenStepExplained(t, k, p, ch);
    }
  }

  lemma NextExplains(c: Config, t: seq<State>, k: nat, p: Pid)
    requires k + 1 < |t| && p in t[k + 1].procs && Inv(c, t[k]) && Next(c, t[k], t[k + 1])
    requires p in t[k].procs ==> Explained(t, k, p)
    ensures Explained(t, k + 1, p)
  {
    var q, ch :| Step(c, t[k], q, ch) == Some(t[k + 1]);
    FaultsGrow(c, t[k], q, ch);
    if !ch.Start? { StepMoves(c, t[k], q, ch); }
    if p in t[k].procs {
      if q == p { OwnStepExplained(c, t, k, p, ch); } else { StaysExplained(t, k, p); }
    }
  }

  ghost predicate AllExplained(t: seq<State>, k: nat)
    requires k < |t|
  {
    forall p {:trigger Explained(t, k, p)} :: p in t[k].procs ==> Explained(t, k, p)
  }

  lemma {:induction false} AllAreExplained(c: Config, t: seq<State>, k: nat)
    requires Run(c, t) && k < |t|
    ensures AllExplained(t, k)
    decreases k
  {
    if k > 0 {
      AllAreExplained(c, t, k - 1);
      RunKeepsInv(c, t, k - 1);
      assert Next(c, t[k - 1], t[k - 1 + 1]);
      forall p | p in t[k].procs ensures Explained(t, k, p) {
        NextExplains(c, t, k - 1, p);
      }
    }
  }

  // Main result: in every run, with races, crashes and failed system calls, an Open or
  // Get that succeeds found the blob of its store at its stat, took the labels that the
  // store's directory had afterwards and, if it is for the bytes, opened that store's
  // blob; one that says NotExist missed it; a Label that succeeds found the blob and put
  // its labels there; an Add that says AlreadyExists found the blob, and one that says
  // DigestMismatch or Ok found none at its first check; an Erase that succeeds has seen its
  // store's directory gone.
  lemma CallsAreExplained(c: Config, t: seq<State>, k: nat, p: Pid)
    requires Run(c, t) && k < |t| && p in t[k].procs
    ensures Explained(t, k, p)
  {
    AllAreExplained(c, t, k);
  }
}
