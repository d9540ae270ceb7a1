/** What the answers of the file-system calls mean: each is true at the step that
    decides it, whatever else is running. */
module OsOutcomes {
  import opened Base
  import opened OsProtocol
  import opened OsInvariant
  import opened OsSafety

  // ---- The labels in a staged directory ----

  predicate Labelled(pc: AddPc) {
    Staging(pc) && !pc.PutLabels?
  }

  ghost predicate OwnLabels(s: State, p: Pid)
    requires p in s.procs && s.procs[p].Adder?
  {
    Labelled(s.procs[p].apc) ==> p in s.stages && s.stages[p].labels == Some(s.procs[p].labels)
  }

  ghost predicate LabelsInv(s: State) {
    forall p {:trigger OwnLabels(s, p)} :: p in s.procs && s.procs[p].Adder? ==> OwnLabels(s, p)
  }

  // A step leaves the staging directories of other calls alone.
  ghost predicate OtherStages(s: State, s': State, p: Pid) {
    forall q :: q != p && q in s.stages ==> q in s'.stages && s'.stages[q] == s.stages[q]
  }

  lemma FillKeepsOtherStages(s: State, p: Pid, ch: Choice)
    requires p in s.procs && s.procs[p].Adder? && FillStep(s, p, s.procs[p], ch).Some?
    ensures OtherStages(s, FillStep(s, p, s.procs[p], ch).value, p)
  {
  }

  lemma FillKeepsLabels(s: State, p: Pid, ch: Choice)
    requires p in s.procs && s.procs[p].Adder? && OwnLabels(s, p) && FillStep(s, p, s.procs[p], ch).Some?
    ensures var s' := FillStep(s, p, s.procs[p], ch).value;
            OtherStages(s, s', p) && p in s'.procs && s'.procs[p].Adder? && OwnLabels(s', p)
  {
    FillKeepsOtherStages(s, p, ch);
  }

  lemma PublishKeepsLabels(s: State, p: Pid, ch: Choice)
    requires p in s.procs && s.procs[p].Adder? && OwnLabels(s, p) && PublishStep(s, p, s.procs[p], ch).Some?
    ensures var s' := PublishStep(s, p, s.procs[p], ch).value;
            OtherStages(s, s', p) && p in s'.procs && s'.procs[p].Adder? && OwnLabels(s', p)
  {
  }

  lemma ClearKeepsLabels(s: State, p: Pid, ch: Choice)
    requires p in s.procs && s.procs[p].Adder? && OwnLabels(s, p) && ClearStep(s, p, s.procs[p], ch).Some?
    ensures var s' := ClearStep(s, p, s.procs[p], ch).value;
            s'.stages == s.stages && p in s'.procs && s'.procs[p].Adder? && OwnLabels(s', p)
  {
  }

  lemma PlainKeepsLabels(c: Config, s: State, p: Pid, ch: Choice)
    requires p in s.procs && s.procs[p].Adder? && OwnLabels(s, p) && PlainStep(c, s, p, s.procs[p], ch).Some?
    ensures var s' := PlainStep(c, s, p, s.procs[p], ch).value;
            s'.stages == s.stages && p in s'.procs && s'.procs[p].Adder? && OwnLabels(s', p)
  {
    PlainAdvances(c, s, p, ch);
  }

  lemma PlainAdvances(c: Config, s: State, p: Pid, ch: Choice)
    requires p in s.procs && s.procs[p].Adder? && PlainStep(c, s, p, s.procs[p], ch).Some?
    ensures var s' := PlainStep(c, s, p, s.procs[p], ch).value;
            && s'.stages == s.stages && p in s'.procs && s'.procs[p].Adder? && s'.procs[p].labels == s.procs[p].labels
            && (Labelled(s'.procs[p].apc) ==> Labelled(s.procs[p].apc))
  {
  }

  lemma EraseKeepsStages(c: Config, s: State, p: Pid, ch: Choice)
    requires p in s.procs && s.procs[p].Eraser? && EraseStep(c, s, p, s.procs[p], ch).Some?
    ensures var s' := EraseStep(c, s, p, s.procs[p], ch).value; s'.stages == s.stages && p in s'.procs && s'.procs[p].Eraser?
  {
  }

  lemma AddKeepsLabels(c: Config, s: State, p: Pid, ch: Choice)
    requires p in s.procs && s.procs[p].Adder? && OwnLabels(s, p) && AddStep(c, s, p, s.procs[p], ch).Some?
    ensures var s' := AddStep(c, s, p, s.procs[p], ch).value;
            OtherStages(s, s', p) && p in s'.procs && s'.procs[p].Adder? && OwnLabels(s', p)
  {
    if FillsStage(s.procs[p].apc) {
      FillKeepsLabels(s, p, ch);
    } else if Publishes(s.procs[p].apc) {
      PublishKeepsLabels(s, p, ch);
    } else if s.procs[p].apc.Clear? {
      ClearKeepsLabels(s, p, ch);
    } else {
      PlainKeepsLabels(c, s, p, ch);
    }
  }

  lemma OtherCallsKeepStages(c: Config, s: State, p: Pid, ch: Choice)
    requires p in s.procs && !s.procs[p].Adder? && Step(c, s, p, ch).Some? && !ch.Start?
    ensures Step(c, s, p, ch).value.stages == s.stages && p in Step(c, s, p, ch).value.procs && !Step(c, s, p, ch).value.procs[p].Adder?
  {
    if s.procs[p].Eraser? && !ch.Crash? && !ch.Fail? { EraseKeepsStages(c, s, p, ch); }
  }

  lemma StepKeepsLabels(c: Config, s: State, p: Pid, ch: Choice)
    requires LockInv(s) && LabelsInv(s) && Step(c, s, p, ch).Some?
    ensures LabelsInv(Step(c, s, p, ch).value)
  {
    var s' := Step(c, s, p, ch).value;
    if !ch.Start? {
      StepMoves(c, s, p, ch);
      if s.procs[p].Adder? {
        assert OwnLabels(s, p);
        if !ch.Crash? && !ch.Fail? { AddKeepsLabels(c, s, p, ch); }
      } else {
        OtherCallsKeepStages(c, s, p, ch);
      }
    }
    forall q | q in s'.procs && s'.procs[q].Adder? ensures OwnLabels(s', q) {
      if q != p { assert OwnLabels(s, q); }
    }
  }

  lemma {:induction false} RunKeepsLabels(c: Config, t: seq<State>, k: nat)
    requires Run(c, t) && k < |t|
    ensures LabelsInv(t[k])
    decreases k
  {
    if k > 0 {
      RunKeepsLabels(c, t, k - 1);
      RunKeepsInv(c, t, k - 1);
      assert Next(c, t[k - 1], t[k - 1 + 1]);
      var p, ch :| Step(c, t[k - 1], p, ch) == Some(t[k]);
      StepKeepsLabels(c, t[k - 1], p, ch);
    }
  }

  lemma ReachableLabels(c: Config, s: State)
    requires Reachable(c, s)
    ensures LabelsInv(s)
  {
    var t :| Run(c, t) && t[|t| - 1] == s;
    RunKeepsLabels(c, t, |t| - 1);
  }

  // ---- Decisions ----

  // What the call will return, once that is certain.
  function Decided(a: Proc): Option<Result> {
    match a
    case Adder(_, _, _, pc) =>
      (match pc
       case Discard(why) => Some(why)
       case Unlock(out) => Some(out)
       case AddDone(res) => Some(res)
       case _ => None)
    case Eraser(_, pc) =>
      (match pc
       case Wipe(_) => None
       case EraseDone(res) => Some(res)
       case EraseCrashed => None
       case _ => Some(Ok))
    case Labeler(_, _, pc) => if pc.LabelDone? then Some(pc.res) else None
    case Opener(_, _, pc) => if pc.OpenDone? then Some(pc.res) else if pc.Reading? then Some(Ok) else None
  }

  // p decides out in this step.
  ghost predicate Decides(c: Config, s: State, p: Pid, ch: Choice, out: Result) {
    && Step(c, s, p, ch).Some? && p in s.procs && !ch.Start? && !ch.Crash? && !ch.Fail?
    && Decided(s.procs[p]).None? && p in Step(c, s, p, ch).value.procs && Decided(Step(c, s, p, ch).value.procs[p]) == Some(out)
  }

  // The store's entry is committed in this step.
  ghost predicate Commits(c: Config, s: State, s': State, a: Proc)
    requires a.Adder?
  {
    && c.hash(a.content) == c.digest && !HasBlob(s, a.id) && HasBlob(s', a.id)
    && s'.repos[a.id].labels == Some(a.labels) && Good(c, s', s'.repos[a.id].blob.value)
  }

  lemma PublishDecides(c: Config, s: State, p: Pid, ch: Choice)
    requires Inv(c, s) && p in s.procs && s.procs[p].Adder? && OwnLabels(s, p) && Publishes(s.procs[p].apc)
    requires PublishStep(s, p, s.procs[p], ch).Some? && !s.procs[p].apc.Discard?
    ensures var s' := PublishStep(s, p, s.procs[p], ch).value;
            && p in s'.procs && s'.procs[p].Adder?
            && (s'.procs[p].apc.Unlock? ==> s'.procs[p].apc.out == Ok && Commits(c, s, s', s.procs[p]))
            && (s'.procs[p].apc.Discard? ==> s'.procs[p].apc.why == OtherError && AddAborted in s'.faults)
  {
    assert StageInv(c, s, p);
  }

  lemma PlainDecides(c: Config, s: State, p: Pid, ch: Choice, out: Result)
    requires p in s.procs && s.procs[p].Adder? && PlainStep(c, s, p, s.procs[p], ch).Some?
    requires Decided(s.procs[p]).None? && Decided(PlainStep(c, s, p, s.procs[p], ch).value.procs[p]) == Some(out)
    ensures var s' := PlainStep(c, s, p, s.procs[p], ch).value;
            match out {
              case AlreadyExists => HasBlob(s, s.procs[p].id) && s'.repos == s.repos
              case DigestMismatch => c.hash(s.procs[p].content) != c.digest && s'.repos == s.repos
              case OtherError => AddAborted in s'.faults
              case _ => false
            }
  {
  }

  // Add says Ok in the very step that commits its entry, with its labels and content
  // of the digest; it says AlreadyExists when the entry is there, and DigestMismatch
  // when the content is not the one named.
  lemma AddAnswersAreTrue(c: Config, s: State, p: Pid, ch: Choice, out: Result)
    requires Reachable(c, s) && Decides(c, s, p, ch, out) && s.procs[p].Adder?
    ensures var s' := Step(c, s, p, ch).value; var a := s.procs[p];
            match out {
              case Ok => Commits(c, s, s', a)
              case AlreadyExists => HasBlob(s, a.id) && s'.repos == s.repos
              case DigestMismatch => c.hash(a.content) != c.digest && s'.repos == s.repos
              case NotExist => false
              case OtherError => AddAborted in s'.faults
            }
  {
    ReachableInv(c, s);
    ReachableLabels(c, s);
    assert OwnLabels(s, p);
    var a := s.procs[p];
    if Publishes(a.apc) {
      PublishDecides(c, s, p, ch);
    } else if !FillsStage(a.apc) && !a.apc.Clear? {
      PlainDecides(c, s, p, ch, out);
    } else {
      StageDecides(c, s, p, ch);
    }
  }

  lemma StageDecides(c: Config, s: State, p: Pid, ch: Choice)
    requires p in s.procs && s.procs[p].Adder? && AddStep(c, s, p, s.procs[p], ch).Some?
    requires (FillsStage(s.procs[p].apc) && !s.procs[p].apc.Discard?) || s.procs[p].apc.Clear?
    ensures var s' := AddStep(c, s, p, s.procs[p], ch).value;
            p in s'.procs && (Decided(s'.procs[p]).Some? ==> Decided(s'.procs[p]) == Some(OtherError) && AddAborted in s'.faults)
  {
  }

  // Nothing else commits an entry.
  lemma OnlyAddsCommit(c: Config, s: State, p: Pid, ch: Choice, id: StoreId)
    requires Reachable(c, s) && Step(c, s, p, ch).Some? && !HasBlob(s, id) && HasBlob(Step(c, s, p, ch).value, id)
    ensures Decides(c, s, p, ch, Ok) && s.procs[p].Adder? && s.procs[p].id == id
  {
    ReachableInv(c, s);
    if ch.Start? || ch.Crash? || ch.Fail? {
    } else if s.procs[p].Adder? {
      AddCommitsByRename(c, s, p, ch, id);
    } else if s.procs[p].Eraser? {
      EraseCommitsNothing(c, s, p, ch, id);
    }
  }

  lemma AddCommitsByRename(c: Config, s: State, p: Pid, ch: Choice, id: StoreId)
    requires p in s.procs && s.procs[p].Adder? && AddStep(c, s, p, s.procs[p], ch).Some?
    requires !HasBlob(s, id) && HasBlob(AddStep(c, s, p, s.procs[p], ch).value, id)
    ensures var s' := AddStep(c, s, p, s.procs[p], ch).value;
            s.procs[p].id == id && s.procs[p].apc.Rename? && p in s'.procs && Decided(s'.procs[p]) == Some(Ok)
  {
    if FillsStage(s.procs[p].apc) { FillKeepsShare(s, p, ch); }
    if s.procs[p].apc.Clear? { SweepShrinks(s.repos, s.procs[p].id, s.procs[p].apc.sweep, ch); }
  }

  lemma EraseCommitsNothing(c: Config, s: State, p: Pid, ch: Choice, id: StoreId)
    requires p in s.procs && s.procs[p].Eraser? && EraseStep(c, s, p, s.procs[p], ch).Some? && !HasBlob(s, id)
    ensures !HasBlob(EraseStep(c, s, p, s.procs[p], ch).value, id)
  {
    if s.procs[p].epc.Wipe? { SweepShrinks(s.repos, s.procs[p].id, s.procs[p].epc.sweep, ch); }
  }

  // Erase says Ok when the entry's directory is gone.
  lemma EraseAnswersAreTrue(c: Config, s: State, p: Pid, ch: Choice, out: Result)
    requires Decides(c, s, p, ch, out) && s.procs[p].Eraser?
    ensures var s' := Step(c, s, p, ch).value;
            if out == Ok then s.procs[p].id !in s'.repos else out == OtherError && EraseNotEmpty in s'.faults
  {
    EraseDecides(c, s, p, ch);
  }

  lemma EraseDecides(c: Config, s: State, p: Pid, ch: Choice)
    requires p in s.procs && s.procs[p].Eraser? && s.procs[p].epc.Wipe? && EraseStep(c, s, p, s.procs[p], ch).Some?
    ensures var s' := EraseStep(c, s, p, s.procs[p], ch).value;
            && p in s'.procs && s'.procs[p].Eraser?
            && (s'.procs[p].epc == Nlink1 ==> s.procs[p].id !in s'.repos)
            && (s'.procs[p].epc.Wipe? || s'.procs[p].epc == Nlink1 || (s'.procs[p].epc == EraseDone(OtherError) && EraseNotEmpty in s'.faults))
  {
  }

  // Label says Ok when the directory has the new labels; Get and Open take the labels the
  // directory has; Open hands out the inode of an entry that is there. NotExist means that
  // the blob, or at Label's rename the directory, is not there.
  lemma ReadersAnswersAreTrue(c: Config, s: State, p: Pid, ch: Choice, out: Result)
    requires Decides(c, s, p, ch, out) && (s.procs[p].Labeler? || s.procs[p].Opener?)
    ensures var s' := Step(c, s, p, ch).value; var a := s.procs[p];
            && (out == Ok || out == NotExist)
            && (a.Labeler? && out == Ok ==> a.id in s'.repos && s'.repos[a.id].labels == Some(a.labels))
            && (a.Opener? && out == Ok && a.opc.OpenLabels? ==> s'.procs[p].opc == OpenDone(Ok, LabelsAt(s, a.id)))
            && (a.Opener? && out == Ok && a.opc.OpenFile? ==>
                  HasBlob(s, a.id) && s'.procs[p].opc == Reading(s.repos[a.id].blob.value, a.opc.labels))
            && (out == NotExist ==> !HasBlob(s, a.id) && s'.repos == s.repos)
  {
  }

  // What is decided stays, except that a process may die.
  lemma DecisionsStay(c: Config, s: State, p: Pid, ch: Choice, q: Pid)
    requires LockInv(s) && Step(c, s, p, ch).Some? && q in s.procs && Decided(s.procs[q]).Some?
    requires q == p ==> !ch.Crash? && !(ch.Fail? && s.procs[q].Opener?)
    ensures q in Step(c, s, p, ch).value.procs && Decided(Step(c, s, p, ch).value.procs[q]) == Decided(s.procs[q])
  {
    if !ch.Start? { StepMoves(c, s, p, ch); }
    if q == p && !ch.Fail? && !ch.Start? { OwnDecisionStays(c, s, p, ch); }
  }

  lemma OwnDecisionStays(c: Config, s: State, p: Pid, ch: Choice)
    requires p in s.procs && Decided(s.procs[p]).Some? && Step(c, s, p, ch).Some? && !ch.Start? && !ch.Crash? && !ch.Fail?
    ensures p in Step(c, s, p, ch).value.procs && Decided(Step(c, s, p, ch).value.procs[p]) == Decided(s.procs[p])
  {
    if s.procs[p].Eraser? { EraseDecisionStays(c, s, p, ch); }
  }

  lemma EraseDecisionStays(c: Config, s: State, p: Pid, ch: Choice)
    requires p in s.procs && s.procs[p].Eraser? && !s.procs[p].epc.Wipe? && EraseStep(c, s, p, s.procs[p], ch).Some?
    ensures var s' := EraseStep(c, s, p, s.procs[p], ch).value; p in s'.procs && Decided(s'.procs[p]) == Some(Ok)
  {
  }
}
