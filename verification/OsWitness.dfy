/** Two claims of the design notes that the file-system protocol does not meet,
    as concrete runs without crashes or I/O errors: an Erase disturbed by a Label
    leaks the shared blob, and an Add disturbed by an Erase fails. */
module OsWitness {
  import opened Base
  import opened OsProtocol
  import opened OsSafety
  import opened OsSchedule

  const REPO: StoreId := "r"
  const NONE: Labels := map[]

  // The digest at hand is the empty blob's.
  predicate EmptyBlob(c: Config) {
    c.hash([]) == c.digest
  }

  // Equality field by field.
  predicate Same(a: State, b: State) {
    && a.share == b.share && a.lock == b.lock && a.faults == b.faults
    && a.repos == b.repos && a.stages == b.stages && a.files == b.files && a.procs == b.procs
  }

  lemma Take(c: Config, s: State, p: Pid, ch: Choice, s': State)
    requires Reachable(c, s) && Step(c, s, p, ch).Some? && Same(Step(c, s, p, ch).value, s')
    ensures Reachable(c, s')
  {
    StepReachable(c, s, p, ch);
  }

  lemma TakeAdd(c: Config, s: State, p: Pid, ch: Choice, s': State)
    requires Reachable(c, s) && p in s.procs && s.procs[p].Adder? && !Finished(s.procs[p])
    requires ch == Go || ch.UnlinkName? || ch.NewInode?
    requires AddStep(c, s, p, s.procs[p], ch).Some? && Same(AddStep(c, s, p, s.procs[p], ch).value, s')
    ensures Reachable(c, s')
  {
    Take(c, s, p, ch, s');
  }

  lemma TakeErase(c: Config, s: State, p: Pid, ch: Choice, s': State)
    requires Reachable(c, s) && p in s.procs && s.procs[p].Eraser? && !Finished(s.procs[p])
    requires ch == Go || ch.UnlinkName? || ch.Answer?
    requires EraseStep(c, s, p, s.procs[p], ch).Some? && Same(EraseStep(c, s, p, s.procs[p], ch).value, s')
    ensures Reachable(c, s')
  {
    Take(c, s, p, ch, s');
  }

  function Add0(pc: AddPc): Proc { Adder(REPO, [], NONE, pc) }

  // Store r holds the empty blob, shared through inode 0.
  function Committed(): State {
    State(Some(0), None, map[REPO := Dir(0, Some(0), Some(NONE))], map[], map[0 := []], map[0 := Add0(AddDone(Ok))], {})
  }

  function FirstAdd(pc: AddPc, lock: Option<Pid>, share: Option<Inode>, stages: map<Pid, Dir>, files: map<Inode, Bytes>): State {
    State(share, lock, map[], stages, files, map[0 := Add0(pc)], {})
  }

  lemma TakeStart(c: Config, s: State, p: Pid, call: Proc, s': State)
    requires Reachable(c, s) && p !in s.procs && IsCall(call) && Same(s.(procs := s.procs[p := call]), s')
    ensures Reachable(c, s')
  {
    StepReachable(c, s, p, Start(call));
    assert s' == s.(procs := s.procs[p := call]);
  }

  lemma FirstAddWantsLock(c: Config)
    requires EmptyBlob(c)
    ensures Reachable(c, FirstAdd(WantLock, None, None, map[], map[]))
  {
    InitialReachable(c);
    TakeStart(c, INITIAL, 0, Add0(PreCheck), FirstAdd(PreCheck, None, None, map[], map[]));
    TakeAdd(c, FirstAdd(PreCheck, None, None, map[], map[]), 0, Go, FirstAdd(Verify, None, None, map[], map[]));
    TakeAdd(c, FirstAdd(Verify, None, None, map[], map[]), 0, Go, FirstAdd(WantLock, None, None, map[], map[]));
  }

  lemma FirstAddLocked(c: Config)
    requires EmptyBlob(c)
    ensures Reachable(c, FirstAdd(Recheck, Some(0), None, map[], map[]))
  {
    FirstAddWantsLock(c);
    TakeAdd(c, FirstAdd(WantLock, None, None, map[], map[]), 0, Go, FirstAdd(Recheck, Some(0), None, map[], map[]));
  }

  lemma StagingReachable(c: Config)
    requires EmptyBlob(c)
    ensures Reachable(c, FirstAdd(StatShare, Some(0), None, map[0 := Dir(0, None, Some(NONE))], map[]))
  {
    FirstAddLocked(c);
    TakeAdd(c, FirstAdd(Recheck, Some(0), None, map[], map[]), 0, Go, FirstAdd(MkStage, Some(0), None, map[], map[]));
    TakeAdd(c, FirstAdd(MkStage, Some(0), None, map[], map[]), 0, Go,
            FirstAdd(PutLabels, Some(0), None, map[0 := Dir(0, None, None)], map[]));
    TakeAdd(c, FirstAdd(PutLabels, Some(0), None, map[0 := Dir(0, None, None)], map[]), 0, Go,
            FirstAdd(StatShare, Some(0), None, map[0 := Dir(0, None, Some(NONE))], map[]));
  }

  lemma BlobCopied(c: Config)
    requires EmptyBlob(c)
    ensures Reachable(c, FirstAdd(LinkTo, Some(0), None, map[0 := Dir(0, Some(0), Some(NONE))], map[0 := []]))
  {
    StagingReachable(c);
    var empty := map[0 := Dir(0, None, Some(NONE))];
    var full := map[0 := Dir(0, Some(0), Some(NONE))];
    TakeAdd(c, FirstAdd(StatShare, Some(0), None, empty, map[]), 0, Go, FirstAdd(CreateBlob, Some(0), None, empty, map[]));
    TakeAdd(c, FirstAdd(CreateBlob, Some(0), None, empty, map[]), 0, NewInode(0), FirstAdd(CopyBlob, Some(0), None, full, map[0 := []]));
    TakeAdd(c, FirstAdd(CopyBlob, Some(0), None, full, map[0 := []]), 0, Go, FirstAdd(LinkTo, Some(0), None, full, map[0 := []]));
  }

  lemma CommittedReachable(c: Config)
    requires EmptyBlob(c)
    ensures Reachable(c, Committed())
  {
    BlobCopied(c);
    var full := map[0 := Dir(0, Some(0), Some(NONE))];
    TakeAdd(c, FirstAdd(LinkTo, Some(0), None, full, map[0 := []]), 0, Go, FirstAdd(Rename(0), Some(0), Some(0), full, map[0 := []]));
    var moved := Committed().(lock := Some(0), procs := map[0 := Add0(Unlock(Ok))]);
    TakeAdd(c, FirstAdd(Rename(0), Some(0), Some(0), full, map[0 := []]), 0, Go, moved);
    TakeAdd(c, moved, 0, Go, Committed());
  }

  lemma FaultyIsDisorderly(c: Config, s: State)
    requires s.faults != {}
    ensures !OrderlyReachable(c, s)
  {
    if OrderlyReachable(c, s) { OrderlyRunsAreClean(c, s); }
  }

  // ---- An Erase that a Label makes fail ----

  function Disturbed(dir: map<StoreId, Dir>, epc: ErasePc, lpc: LabelPc): State {
    Committed().(repos := dir, procs := map[0 := Add0(AddDone(Ok)), 1 := Eraser(REPO, epc), 2 := Labeler(REPO, NONE, lpc)])
  }

  function Entry(blob: Option<Inode>, labels: Option<Labels>): map<StoreId, Dir> {
    map[REPO := Dir(0, blob, labels)]
  }

  lemma LabelPastItsStat(c: Config)
    requires EmptyBlob(c)
    ensures Reachable(c, Disturbed(Entry(Some(0), Some(NONE)), Wipe(SwOpen), LabelRename))
  {
    CommittedReachable(c);
    var all := Entry(Some(0), Some(NONE));
    var s1 := Committed().(procs := map[0 := Add0(AddDone(Ok)), 1 := Eraser(REPO, Wipe(SwOpen))]);
    TakeStart(c, Committed(), 1, Eraser(REPO, Wipe(SwOpen)), s1);
    TakeStart(c, s1, 2, Labeler(REPO, NONE, LabelStat), Disturbed(all, Wipe(SwOpen), LabelStat));
    Take(c, Disturbed(all, Wipe(SwOpen), LabelStat), 2, Go, Disturbed(all, Wipe(SwOpen), LabelRename));
  }

  lemma ListedUnderLabel(c: Config)
    requires EmptyBlob(c)
    ensures Reachable(c, Disturbed(Entry(Some(0), Some(NONE)), Wipe(SwUnlink(0, {BlobName, LabelsName})), LabelRename))
  {
    LabelPastItsStat(c);
    var all := Entry(Some(0), Some(NONE));
    TakeErase(c, Disturbed(all, Wipe(SwOpen), LabelRename), 1, Go, Disturbed(all, Wipe(SwList(0)), LabelRename));
    var names := Dir(0, Some(0), Some(NONE)).Names();
    assert names == {BlobName, LabelsName};
    TakeErase(c, Disturbed(all, Wipe(SwList(0)), LabelRename), 1, Go, Disturbed(all, Wipe(SwUnlink(0, names)), LabelRename));
  }

  lemma UnlinkedUnderLabel(c: Config)
    requires EmptyBlob(c)
    ensures Reachable(c, Disturbed(Entry(None, None), Wipe(SwUnlink(0, {})), LabelRename))
  {
    ListedUnderLabel(c);
    var all := Entry(Some(0), Some(NONE));
    var names := {BlobName, LabelsName};
    var left := Entry(None, Some(NONE));
    assert names - {BlobName} == {LabelsName};
    TakeErase(c, Disturbed(all, Wipe(SwUnlink(0, names)), LabelRename), 1, UnlinkName(BlobName),
         Disturbed(left, Wipe(SwUnlink(0, {LabelsName})), LabelRename));
    assert {LabelsName} - {LabelsName} == {};
    TakeErase(c, Disturbed(left, Wipe(SwUnlink(0, {LabelsName})), LabelRename), 1, UnlinkName(LabelsName),
         Disturbed(Entry(None, None), Wipe(SwUnlink(0, {})), LabelRename));
  }

  // Erase unlinks the blob and the labels; the Label renames a new labels file
  // into the directory; the rmdir fails, Erase returns an error and never looks at
  // the link count. Everybody has returned, no store has the blob, and the shared
  // copy stays.
  lemma LabelMakesEraseLeak(c: Config)
    requires EmptyBlob(c)
    ensures exists s :: Reachable(c, s) && (forall p :: p in s.procs ==> Finished(s.procs[p]))
                        && s.faults == {EraseNotEmpty} && s.share.Some? && (forall id :: !HasBlob(s, id))
                        && !OrderlyReachable(c, s)
  {
    ErasedUnderLabel(c);
    var s := Disturbed(Entry(None, Some(NONE)), EraseDone(OtherError), LabelDone(Ok)).(faults := {EraseNotEmpty});
    FaultyIsDisorderly(c, s);
  }

  lemma ErasedUnderLabel(c: Config)
    requires EmptyBlob(c)
    ensures Reachable(c, Disturbed(Entry(None, Some(NONE)), EraseDone(OtherError), LabelDone(Ok)).(faults := {EraseNotEmpty}))
  {
    UnlinkedUnderLabel(c);
    var left := Entry(None, Some(NONE));
    Take(c, Disturbed(Entry(None, None), Wipe(SwUnlink(0, {})), LabelRename), 2, Go,
         Disturbed(left, Wipe(SwUnlink(0, {})), LabelDone(Ok)));
    TakeErase(c, Disturbed(left, Wipe(SwUnlink(0, {})), LabelDone(Ok)), 1, Go, Disturbed(left, Wipe(SwRmdir), LabelDone(Ok)));
    var s := Disturbed(left, EraseDone(OtherError), LabelDone(Ok)).(faults := {EraseNotEmpty});
    TakeErase(c, Disturbed(left, Wipe(SwRmdir), LabelDone(Ok)), 1, Go, s);
  }

  // ---- An Add that an Erase makes fail ----

  function Add3(pc: AddPc): Proc { Adder(REPO, [], NONE, pc) }

  function Racing(dir: map<StoreId, Dir>, epc: ErasePc, apc: AddPc, lock: Option<Pid>, stages: map<Pid, Dir>): State {
    Committed().(lock := lock, repos := dir, stages := stages,
                 procs := map[0 := Add0(AddDone(Ok)), 1 := Eraser(REPO, epc), 3 := Add3(apc)])
  }

  lemma RacingStarts(c: Config)
    requires EmptyBlob(c)
    ensures Reachable(c, Racing(Entry(Some(0), Some(NONE)), Wipe(SwOpen), PreCheck, None, map[]))
  {
    CommittedReachable(c);
    var s1 := Committed().(procs := map[0 := Add0(AddDone(Ok)), 1 := Eraser(REPO, Wipe(SwOpen))]);
    TakeStart(c, Committed(), 1, Eraser(REPO, Wipe(SwOpen)), s1);
    TakeStart(c, s1, 3, Add3(PreCheck), Racing(Entry(Some(0), Some(NONE)), Wipe(SwOpen), PreCheck, None, map[]));
  }

  lemma RacingListed(c: Config)
    requires EmptyBlob(c)
    ensures Reachable(c, Racing(Entry(Some(0), Some(NONE)), Wipe(SwUnlink(0, {BlobName, LabelsName})), PreCheck, None, map[]))
  {
    RacingStarts(c);
    var all := Entry(Some(0), Some(NONE));
    TakeErase(c, Racing(all, Wipe(SwOpen), PreCheck, None, map[]), 1, Go, Racing(all, Wipe(SwList(0)), PreCheck, None, map[]));
    var names := Dir(0, Some(0), Some(NONE)).Names();
    assert names == {BlobName, LabelsName};
    TakeErase(c, Racing(all, Wipe(SwList(0)), PreCheck, None, map[]), 1, Go, Racing(all, Wipe(SwUnlink(0, names)), PreCheck, None, map[]));
  }

  lemma HalfErased(c: Config)
    requires EmptyBlob(c)
    ensures Reachable(c, Racing(Entry(None, Some(NONE)), Wipe(SwUnlink(0, {LabelsName})), PreCheck, None, map[]))
  {
    RacingListed(c);
    var names := {BlobName, LabelsName};
    assert names - {BlobName} == {LabelsName};
    TakeErase(c, Racing(Entry(Some(0), Some(NONE)), Wipe(SwUnlink(0, names)), PreCheck, None, map[]), 1, UnlinkName(BlobName),
         Racing(Entry(None, Some(NONE)), Wipe(SwUnlink(0, {LabelsName})), PreCheck, None, map[]));
  }

  function Waiting(apc: AddPc, lock: Option<Pid>, stages: map<Pid, Dir>): State {
    Racing(Entry(None, Some(NONE)), Wipe(SwUnlink(0, {LabelsName})), apc, lock, stages)
  }

  lemma StagedWhileHalfErased(c: Config)
    requires EmptyBlob(c)
    ensures Reachable(c, Waiting(MkStage, Some(3), map[]))
  {
    HalfErased(c);
    TakeAdd(c, Waiting(PreCheck, None, map[]), 3, Go, Waiting(Verify, None, map[]));
    TakeAdd(c, Waiting(Verify, None, map[]), 3, Go, Waiting(WantLock, None, map[]));
    TakeAdd(c, Waiting(WantLock, None, map[]), 3, Go, Waiting(Recheck, Some(3), map[]));
    TakeAdd(c, Waiting(Recheck, Some(3), map[]), 3, Go, Waiting(MkStage, Some(3), map[]));
  }

  lemma LabelsStagedWhileHalfErased(c: Config)
    requires EmptyBlob(c)
    ensures Reachable(c, Waiting(StatShare, Some(3), map[3 := Dir(3, None, Some(NONE))]))
  {
    StagedWhileHalfErased(c);
    TakeAdd(c, Waiting(MkStage, Some(3), map[]), 3, Go, Waiting(PutLabels, Some(3), map[3 := Dir(3, None, None)]));
    var labelled := map[3 := Dir(3, None, Some(NONE))];
    TakeAdd(c, Waiting(PutLabels, Some(3), map[3 := Dir(3, None, None)]), 3, Go, Waiting(StatShare, Some(3), labelled));
  }

  lemma RenameRefused(c: Config)
    requires EmptyBlob(c)
    ensures Reachable(c, Waiting(StatRepo(0), Some(3), map[3 := Dir(3, Some(0), Some(NONE))]))
  {
    LabelsStagedWhileHalfErased(c);
    var labelled := map[3 := Dir(3, None, Some(NONE))];
    TakeAdd(c, Waiting(StatShare, Some(3), labelled), 3, Go, Waiting(LinkFrom, Some(3), labelled));
    var linked := map[3 := Dir(3, Some(0), Some(NONE))];
    TakeAdd(c, Waiting(LinkFrom, Some(3), labelled), 3, Go, Waiting(Rename(0), Some(3), linked));
    TakeAdd(c, Waiting(Rename(0), Some(3), linked), 3, Go, Waiting(StatRepo(0), Some(3), linked));
  }

  lemma EraseEmptiesTheRepo(c: Config)
    requires EmptyBlob(c)
    ensures Reachable(c, Racing(map[], Nlink1, StatRepo(0), Some(3), map[3 := Dir(3, Some(0), Some(NONE))]))
  {
    RenameRefused(c);
    var st := map[3 := Dir(3, Some(0), Some(NONE))];
    var l := Some(3);
    assert {LabelsName} - {LabelsName} == {};
    TakeErase(c, Waiting(StatRepo(0), l, st), 1, UnlinkName(LabelsName), Racing(Entry(None, None), Wipe(SwUnlink(0, {})), StatRepo(0), l, st));
    TakeErase(c, Racing(Entry(None, None), Wipe(SwUnlink(0, {})), StatRepo(0), l, st), 1, Go,
         Racing(Entry(None, None), Wipe(SwRmdir), StatRepo(0), l, st));
    assert Entry(None, None) - {REPO} == map[];
    TakeErase(c, Racing(Entry(None, None), Wipe(SwRmdir), StatRepo(0), l, st), 1, Go, Racing(map[], Nlink1, StatRepo(0), l, st));
  }

  lemma EraseFinishes(c: Config)
    requires EmptyBlob(c)
    ensures Reachable(c, Racing(map[], EraseDone(Ok), StatRepo(0), Some(3), map[3 := Dir(3, Some(0), Some(NONE))]))
  {
    EraseEmptiesTheRepo(c);
    var st := map[3 := Dir(3, Some(0), Some(NONE))];
    var l := Some(3);
    var s := Racing(map[], Nlink1, StatRepo(0), l, st);
    assert RepoLinks(s, 0) == {} && StageLinks(s, 0) == {3};
    TakeErase(c, s, 1, Answer(Some(2)), Racing(map[], EraseDone(Ok), StatRepo(0), l, st));
  }

  function Undoing(stages: map<Pid, Dir>): State {
    Racing(map[], EraseDone(Ok), Discard(OtherError), Some(3), stages).(faults := {AddAborted})
  }

  lemma AddUnlinksItsBlob(c: Config)
    requires EmptyBlob(c)
    ensures Reachable(c, Undoing(map[3 := Dir(3, None, Some(NONE))]))
  {
    EraseFinishes(c);
    var st := map[3 := Dir(3, Some(0), Some(NONE))];
    TakeAdd(c, Racing(map[], EraseDone(Ok), StatRepo(0), Some(3), st), 3, Go, Undoing(st));
    TakeAdd(c, Undoing(st), 3, UnlinkName(BlobName), Undoing(map[3 := Dir(3, None, Some(NONE))]));
  }

  lemma AddUndoesItsStage(c: Config)
    requires EmptyBlob(c)
    ensures Reachable(c, Undoing(map[3 := Dir(3, None, None)]))
  {
    AddUnlinksItsBlob(c);
    TakeAdd(c, Undoing(map[3 := Dir(3, None, Some(NONE))]), 3, UnlinkName(LabelsName), Undoing(map[3 := Dir(3, None, None)]));
  }

  function Undone(apc: AddPc, lock: Option<Pid>): State {
    Racing(map[], EraseDone(Ok), apc, lock, map[]).(faults := {AddAborted})
  }

  lemma AddReturns(c: Config)
    requires EmptyBlob(c)
    ensures Reachable(c, Undone(AddDone(OtherError), None))
  {
    AddUndoesItsStage(c);
    var empty := map[3 := Dir(3, None, None)];
    assert empty - {3} == map[];
    TakeAdd(c, Undoing(empty), 3, Go, Undone(Unlock(OtherError), Some(3)));
    TakeAdd(c, Undone(Unlock(OtherError), Some(3)), 3, Go, Undone(AddDone(OtherError), None));
  }

  // The rename is refused because of the half-erased directory; Erase then removes
  // that directory; the stat finds nothing and Add reports a failure. It undoes its
  // staging, and since Erase had counted the staged link, the shared copy stays
  // although no store has the blob.
  lemma EraseMakesAddFail(c: Config)
    requires EmptyBlob(c)
    ensures exists s :: Reachable(c, s) && (forall p :: p in s.procs ==> Finished(s.procs[p]))
                        && s.faults == {AddAborted} && s.procs.Keys == {0, 1, 3} && s.procs[3] == Add3(AddDone(OtherError))
                        && s.procs[1] == Eraser(REPO, EraseDone(Ok))
                        && s.share.Some? && (forall id :: !HasBlob(s, id))
                        && !OrderlyReachable(c, s)
  {
    AddReturns(c);
    var s := Undone(AddDone(OtherError), None);
    assert forall id :: !HasBlob(s, id);
    FaultyIsDisorderly(c, s);
  }

  // ---- An Open that an Erase tears ----

  const OLD: Labels := map["Colour" := ["blue"]]

  function Torn(dir: map<StoreId, Dir>, epc: ErasePc, opc: OpenPc): State {
    Committed().(repos := dir, procs := map[0 := Add0(AddDone(Ok)), 2 := Labeler(REPO, OLD, LabelDone(Ok)),
                                            1 := Eraser(REPO, epc), 4 := Opener(REPO, true, opc)])
  }

  lemma Relabelled(c: Config)
    requires EmptyBlob(c)
    ensures Reachable(c, Committed().(repos := Entry(Some(0), Some(OLD)),
                                      procs := map[0 := Add0(AddDone(Ok)), 2 := Labeler(REPO, OLD, LabelDone(Ok))]))
  {
    CommittedReachable(c);
    var one := Add0(AddDone(Ok));
    var s1 := Committed().(procs := map[0 := one, 2 := Labeler(REPO, OLD, LabelStat)]);
    var s2 := Committed().(procs := map[0 := one, 2 := Labeler(REPO, OLD, LabelRename)]);
    TakeStart(c, Committed(), 2, Labeler(REPO, OLD, LabelStat), s1);
    Take(c, s1, 2, Go, s2);
    Take(c, s2, 2, Go, Committed().(repos := Entry(Some(0), Some(OLD)), procs := map[0 := one, 2 := Labeler(REPO, OLD, LabelDone(Ok))]));
  }

  lemma OpenPastItsStat(c: Config)
    requires EmptyBlob(c)
    ensures Reachable(c, Torn(Entry(Some(0), Some(OLD)), Wipe(SwOpen), OpenLabels))
  {
    Relabelled(c);
    var all := Entry(Some(0), Some(OLD));
    var s0 := Committed().(repos := all, procs := map[0 := Add0(AddDone(Ok)), 2 := Labeler(REPO, OLD, LabelDone(Ok))]);
    var s1 := s0.(procs := s0.procs[1 := Eraser(REPO, Wipe(SwOpen))]);
    TakeStart(c, s0, 1, Eraser(REPO, Wipe(SwOpen)), s1);
    TakeStart(c, s1, 4, Opener(REPO, true, OpenStat), Torn(all, Wipe(SwOpen), OpenStat));
    Take(c, Torn(all, Wipe(SwOpen), OpenStat), 4, Go, Torn(all, Wipe(SwOpen), OpenLabels));
  }

  lemma LabelsUnlinked(c: Config)
    requires EmptyBlob(c)
    ensures Reachable(c, Torn(Entry(Some(0), None), Wipe(SwUnlink(0, {BlobName})), OpenLabels))
  {
    OpenPastItsStat(c);
    var all := Entry(Some(0), Some(OLD));
    var names := {BlobName, LabelsName};
    assert Dir(0, Some(0), Some(OLD)).Names() == names && names - {LabelsName} == {BlobName};
    TakeErase(c, Torn(all, Wipe(SwOpen), OpenLabels), 1, Go, Torn(all, Wipe(SwList(0)), OpenLabels));
    TakeErase(c, Torn(all, Wipe(SwList(0)), OpenLabels), 1, Go, Torn(all, Wipe(SwUnlink(0, names)), OpenLabels));
    TakeErase(c, Torn(all, Wipe(SwUnlink(0, names)), OpenLabels), 1, UnlinkName(LabelsName),
              Torn(Entry(Some(0), None), Wipe(SwUnlink(0, {BlobName})), OpenLabels));
  }

  // The Erase unlinks the labels first; the Open reads no labels and still opens the
  // blob. It began after a Label had returned, and yet returns the content without
  // those labels.
  lemma EraseTearsOpen(c: Config)
    requires EmptyBlob(c)
    ensures Reachable(c, Torn(Entry(Some(0), None), Wipe(SwUnlink(0, {BlobName})), OpenDone(Ok, map[])))
  {
    LabelsUnlinked(c);
    var dir := Entry(Some(0), None);
    var e := Wipe(SwUnlink(0, {BlobName}));
    Take(c, Torn(dir, e, OpenLabels), 4, Go, Torn(dir, e, OpenFile(map[])));
    Take(c, Torn(dir, e, OpenFile(map[])), 4, Go, Torn(dir, e, Reading(0, map[])));
    Take(c, Torn(dir, e, Reading(0, map[])), 4, Go, Torn(dir, e, OpenDone(Ok, map[])));
  }
}
