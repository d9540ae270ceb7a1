/** What an Add may rely on: a lock holder can always go on, and an Add that no
    Erase or Label of its own entry disturbs commits by its second rename. */
module OsProgress {
  import opened Base
  import opened OsProtocol
  import opened OsInvariant
  import opened OsSafety

  // A step that is neither a new call nor a fault.
  predicate Regular(ch: Choice) {
    !ch.Start? && !ch.Fail? && !ch.Crash?
  }

  ghost predicate CanStep(c: Config, s: State, p: Pid) {
    exists ch :: Regular(ch) && Step(c, s, p, ch).Some?
  }

  predicate WaitsForLock(a: Proc) {
    (a.Adder? && a.apc.WantLock?) || (a.Eraser? && a.epc.CleanLock?)
  }

  lemma SweepCanStep(repos: map<StoreId, Dir>, id: StoreId, sw: Sweep) returns (ch: Choice)
    ensures Regular(ch) && !SweepStep(repos, id, sw, ch).SwDisabled?
  {
    ch := Go;
    if sw.SwUnlink? && sw.names != {} {
      var n :| n in sw.names;
      ch := UnlinkName(n);
    }
  }

  lemma FreshInode(files: map<Inode, Bytes>) returns (i: Inode)
    ensures i !in files
  {
    i := 0;
    var rest := files.Keys;
    while i in files
      invariant rest <= files.Keys
      invariant forall j: Inode :: j in files && j !in rest ==> j < i
      invariant forall j: Inode :: j in rest ==> j >= i
      decreases rest
    {
      rest := rest - {i};
      i := i + 1;
    }
  }

  lemma AddCanStep(c: Config, s: State, p: Pid) returns (ch: Choice)
    requires Inv(c, s) && p in s.procs && s.procs[p].Adder? && !Finished(s.procs[p])
    requires s.procs[p].apc.WantLock? ==> s.lock.None?
    ensures Regular(ch) && AddStep(c, s, p, s.procs[p], ch).Some?
  {
    var a := s.procs[p];
    assert StageInv(c, s, p);
    ch := Go;
    if a.apc.CreateBlob? {
      var i := FreshInode(s.files);
      ch := NewInode(i);
    } else if a.apc.CopyBlob? {
      if |s.files[s.stages[p].blob.value]| < |a.content| { ch := Write(|a.content|); }
    } else if a.apc.Clear? {
      ch := SweepCanStep(s.repos, a.id, a.apc.sweep);
    } else if a.apc.Discard? && p in s.stages && s.stages[p].Names() != {} {
      var n :| n in s.stages[p].Names();
      ch := UnlinkName(n);
    }
  }

  lemma EraseCanStep(c: Config, s: State, p: Pid) returns (ch: Choice)
    requires p in s.procs && s.procs[p].Eraser? && !Finished(s.procs[p])
    requires s.procs[p].epc.CleanLock? ==> s.lock.None?
    ensures Regular(ch) && EraseStep(c, s, p, s.procs[p], ch).Some?
  {
    var a := s.procs[p];
    ch := Go;
    if a.epc.Wipe? {
      ch := SweepCanStep(s.repos, a.id, a.epc.sweep);
    } else if a.epc.Nlink1? || a.epc.Nlink2? {
      ch := Answer(if s.share.None? then None else Some(LinkCount(s, s.share.value)));
    }
  }

  lemma UnblockedCanStep(c: Config, s: State, p: Pid)
    requires Inv(c, s) && p in s.procs && !Finished(s.procs[p])
    requires WaitsForLock(s.procs[p]) ==> s.lock.None?
    ensures CanStep(c, s, p)
  {
    var ch := Go;
    if s.procs[p].Adder? {
      ch := AddCanStep(c, s, p);
    } else if s.procs[p].Eraser? {
      ch := EraseCanStep(c, s, p);
    }
    assert Regular(ch) && Step(c, s, p, ch).Some?;
  }

  // No deadlock: a call that cannot go on waits for the lock, and whoever holds
  // it is a running call that can.
  lemma NoDeadlock(c: Config, s: State, p: Pid)
    requires Reachable(c, s) && p in s.procs && !Finished(s.procs[p])
    ensures CanStep(c, s, p)
            || (WaitsForLock(s.procs[p]) && s.lock.Some? && s.lock.value in s.procs
                && !Finished(s.procs[s.lock.value]) && CanStep(c, s, s.lock.value))
  {
    ReachableInv(c, s);
    if WaitsForLock(s.procs[p]) && s.lock.Some? {
      UnblockedCanStep(c, s, s.lock.value);
    } else {
      UnblockedCanStep(c, s, p);
    }
  }

  // ---- moveStageToRepo, however disturbed ----

  // The second rename finds the path free: only the lock holder makes directories.
  predicate WithinTwo(s: State, a: Proc) {
    a.Adder? ==>
      match a.apc {
        case Rename(k) => k == 0 || (k == 1 && a.id !in s.repos)
        case StatRepo(k) => k == 0
        case Clear(k, _) => k == 0
        case _ => true
      }
  }

  ghost predicate RenamesInv(s: State) {
    forall p {:trigger WithinTwo(s, s.procs[p])} :: p in s.procs ==> WithinTwo(s, s.procs[p])
  }

  lemma SweepEnds(repos: map<StoreId, Dir>, id: StoreId, sw: Sweep, ch: Choice)
    ensures SweepStep(repos, id, sw, ch).SwFinished? ==> id !in SweepStep(repos, id, sw, ch).repos
  {
  }

  lemma AddStaysWithinTwo(c: Config, s: State, p: Pid, ch: Choice)
    requires p in s.procs && s.procs[p].Adder? && WithinTwo(s, s.procs[p]) && AddStep(c, s, p, s.procs[p], ch).Some?
    ensures var s' := AddStep(c, s, p, s.procs[p], ch).value; p in s'.procs && WithinTwo(s', s'.procs[p])
  {
    if FillsStage(s.procs[p].apc) {
      FillStaysWithinTwo(s, p, ch);
    } else if Publishes(s.procs[p].apc) {
      PublishStaysWithinTwo(s, p, ch);
    } else if s.procs[p].apc.Clear? {
      ClearStaysWithinTwo(s, p, ch);
    } else {
      PlainStaysWithinTwo(c, s, p, ch);
    }
  }

  lemma ClearStaysWithinTwo(s: State, p: Pid, ch: Choice)
    requires p in s.procs && s.procs[p].Adder? && WithinTwo(s, s.procs[p]) && ClearStep(s, p, s.procs[p], ch).Some?
    ensures var s' := ClearStep(s, p, s.procs[p], ch).value; p in s'.procs && WithinTwo(s', s'.procs[p])
  {
    if s.procs[p].apc.Clear? { SweepEnds(s.repos, s.procs[p].id, s.procs[p].apc.sweep, ch); }
  }

  lemma PlainStaysWithinTwo(c: Config, s: State, p: Pid, ch: Choice)
    requires p in s.procs && s.procs[p].Adder? && WithinTwo(s, s.procs[p]) && PlainStep(c, s, p, s.procs[p], ch).Some?
    ensures var s' := PlainStep(c, s, p, s.procs[p], ch).value; p in s'.procs && WithinTwo(s', s'.procs[p])
  {
  }

  lemma FillStaysWithinTwo(s: State, p: Pid, ch: Choice)
    requires p in s.procs && s.procs[p].Adder? && FillsStage(s.procs[p].apc) && FillStep(s, p, s.procs[p], ch).Some?
    ensures var s' := FillStep(s, p, s.procs[p], ch).value; p in s'.procs && WithinTwo(s', s'.procs[p])
  {
  }

  lemma PublishStaysWithinTwo(s: State, p: Pid, ch: Choice)
    requires p in s.procs && s.procs[p].Adder? && WithinTwo(s, s.procs[p]) && PublishStep(s, p, s.procs[p], ch).Some?
    ensures var s' := PublishStep(s, p, s.procs[p], ch).value; p in s'.procs && WithinTwo(s', s'.procs[p])
  {
  }

  // A path appears only in a step of the lock holder.
  lemma NewPathsNeedTheLock(c: Config, s: State, p: Pid, ch: Choice, id: StoreId)
    requires Inv(c, s) && Step(c, s, p, ch).Some? && id !in s.repos && id in Step(c, s, p, ch).value.repos
    ensures p in s.procs && Holds(s.procs[p])
  {
    if ch.Start? || ch.Crash? || ch.Fail? {
    } else if s.procs[p].Adder? {
      if FillsStage(s.procs[p].apc) { FillKeepsShare(s, p, ch); }
    } else if s.procs[p].Eraser? {
      EraseMakesNoPath(c, s, p, ch, id);
    }
  }

  lemma EraseMakesNoPath(c: Config, s: State, p: Pid, ch: Choice, id: StoreId)
    requires p in s.procs && s.procs[p].Eraser? && EraseStep(c, s, p, s.procs[p], ch).Some? && id !in s.repos
    ensures id !in EraseStep(c, s, p, s.procs[p], ch).value.repos
  {
    if s.procs[p].epc.Wipe? { SweepShrinks(s.repos, s.procs[p].id, s.procs[p].epc.sweep, ch); }
  }

  lemma StepStaysWithinTwo(c: Config, s: State, p: Pid, ch: Choice)
    requires Inv(c, s) && RenamesInv(s) && Step(c, s, p, ch).Some?
    ensures RenamesInv(Step(c, s, p, ch).value)
  {
    var s' := Step(c, s, p, ch).value;
    if !ch.Start? { StepMoves(c, s, p, ch); }
    forall q | q in s'.procs ensures WithinTwo(s', s'.procs[q]) {
      if q != p {
        assert WithinTwo(s, s.procs[q]);
        if s.procs[q].Adder? && s.procs[q].apc == Rename(1) && s.procs[q].id in s'.repos {
          NewPathsNeedTheLock(c, s, p, ch, s.procs[q].id);
        }
      } else if !ch.Start? {
        assert WithinTwo(s, s.procs[p]);
        if s.procs[p].Adder? && Regular(ch) { AddStaysWithinTwo(c, s, p, ch); }
        if s.procs[p].Eraser? && Regular(ch) { EraseStaysEraser(c, s, p, ch); }
      }
    }
  }

  lemma EraseStaysEraser(c: Config, s: State, p: Pid, ch: Choice)
    requires p in s.procs && s.procs[p].Eraser? && EraseStep(c, s, p, s.procs[p], ch).Some?
    ensures var s' := EraseStep(c, s, p, s.procs[p], ch).value; p in s'.procs && s'.procs[p].Eraser?
  {
  }

  lemma {:induction false} RunStaysWithinTwo(c: Config, t: seq<State>, k: nat)
    requires Run(c, t) && k < |t|
    ensures RenamesInv(t[k])
    decreases k
  {
    if k > 0 {
      RunStaysWithinTwo(c, t, k - 1);
      RunKeepsInv(c, t, k - 1);
      assert Next(c, t[k - 1], t[k - 1 + 1]);
      var p, ch :| Step(c, t[k - 1], p, ch) == Some(t[k]);
      StepStaysWithinTwo(c, t[k - 1], p, ch);
    }
  }

  // In every run, with any disturbance, crashes and failed calls, no Add needs a third
  // rename, and the second one succeeds: the exit after the last attempt is dead.
  lemma AttemptsNeverRunOut(c: Config, s: State, p: Pid)
    requires Reachable(c, s) && p in s.procs && s.procs[p].Adder?
    ensures var a := s.procs[p];
            && (a.apc.Rename? ==> a.apc.attempt <= 1) && (a.apc.StatRepo? ==> a.apc.attempt == 0)
            && (a.apc == Rename(1) ==>
                  a.id !in s.repos && p in s.stages && Step(c, s, p, Go).Some?
                  && HasBlob(Step(c, s, p, Go).value, a.id) && p in Step(c, s, p, Go).value.procs
                  && Step(c, s, p, Go).value.procs[p] == a.(apc := Unlock(Ok)))
  {
    var t :| Run(c, t) && t[|t| - 1] == s;
    RunStaysWithinTwo(c, t, |t| - 1);
    RunKeepsInv(c, t, |t| - 1);
    assert WithinTwo(s, s.procs[p]) && StageInv(c, s, p);
  }

  // ---- moveStageToRepo without interference ----

  predicate SweepOnTrack(s: State, id: StoreId, sw: Sweep) {
    && id in s.repos
    && match sw {
         case SwOpen => true
         case SwList(dir) => s.repos[id].owner == dir
         case SwUnlink(dir, names) => s.repos[id].owner == dir && s.repos[id].Names() == names
         case SwRmdir => s.repos[id].Names() == {}
       }
  }

  predicate OnTrack(s: State, p: Pid) {
    p in s.procs && s.procs[p].Adder? &&
    var a := s.procs[p];
    || a.apc == Rename(0)
    || (a.apc == StatRepo(0) && a.id in s.repos)
    || (a.apc.Clear? && a.apc.attempt == 0 && SweepOnTrack(s, a.id, a.apc.sweep))
    || (a.apc == Rename(1) && a.id !in s.repos)
    || a.apc == Unlock(Ok)
    || a.apc == AddDone(Ok)
  }

  // The step leaves p alone: p itself does not fail, and no Erase or Label of the
  // same store moves.
  predicate Undisturbed(s: State, p: Pid, move: (Pid, Choice)) {
    if move.0 == p then Regular(move.1)
    else p in s.procs && move.0 in s.procs && (s.procs[move.0].Eraser? || s.procs[move.0].Labeler?) ==>
      move.1.Start? || move.1.Crash? || move.1.Fail? || s.procs[move.0].id != s.procs[p].id
  }

  lemma OwnSweepOnTrack(c: Config, s: State, p: Pid, ch: Choice)
    requires OnTrack(s, p) && s.procs[p].apc.Clear? && Regular(ch) && ClearStep(s, p, s.procs[p], ch).Some?
    ensures OnTrack(ClearStep(s, p, s.procs[p], ch).value, p)
  {
  }

  lemma OwnStepOnTrack(c: Config, s: State, p: Pid, ch: Choice)
    requires Inv(c, s) && OnTrack(s, p) && Regular(ch) && Step(c, s, p, ch).Some?
    ensures OnTrack(Step(c, s, p, ch).value, p)
  {
    if s.procs[p].apc.Clear? { OwnSweepOnTrack(c, s, p, ch); } else { assert StageInv(c, s, p); }
  }

  lemma OtherStepOnTrack(c: Config, s: State, p: Pid, q: Pid, ch: Choice)
    requires Inv(c, s) && OnTrack(s, p) && q != p && Undisturbed(s, p, (q, ch)) && Step(c, s, q, ch).Some?
    ensures OnTrack(Step(c, s, q, ch).value, p)
  {
    var s' := Step(c, s, q, ch).value;
    if !ch.Start? { StepMoves(c, s, q, ch); }
    if s.procs[p].apc != AddDone(Ok) && Regular(ch) {
      EntryUntouched(c, s, p, q, ch);
    }
  }

  lemma EntryUntouched(c: Config, s: State, p: Pid, q: Pid, ch: Choice)
    requires Inv(c, s) && q != p && Regular(ch) && Step(c, s, q, ch).Some?
    requires p in s.procs && s.procs[p].Adder? && Holds(s.procs[p])
    requires Undisturbed(s, p, (q, ch))
    ensures var s' := Step(c, s, q, ch).value; var id := s.procs[p].id;
            (id in s.repos <==> id in s'.repos) && (id in s.repos ==> s'.repos[id] == s.repos[id])
  {
    var a := s.procs[q];
    assert !Holds(a);
    if a.Eraser? && a.epc.Wipe? { SweepShrinks(s.repos, a.id, a.epc.sweep, ch); }
  }

  ghost predicate Segment(c: Config, t: seq<State>, moves: seq<(Pid, Choice)>) {
    && |t| == |moves| + 1
    && Reachable(c, t[0])
    && forall k :: 0 <= k < |moves| ==> Step(c, t[k], moves[k].0, moves[k].1) == Some(t[k + 1])
  }

  // From any leftover directory, an Add that starts moving its stage to the repo
  // and is not disturbed neither gives up nor needs a third rename.
  lemma {:induction false} CommitsWithinTwoRenames(c: Config, t: seq<State>, moves: seq<(Pid, Choice)>, p: Pid, k: nat)
    requires Segment(c, t, moves) && k < |t|
    requires p in t[0].procs && t[0].procs[p].Adder? && t[0].procs[p].apc == Rename(0)
    requires forall j :: 0 <= j < |moves| ==> Undisturbed(t[j], p, moves[j])
    ensures Inv(c, t[k]) && OnTrack(t[k], p)
    ensures Finished(t[k].procs[p]) ==> t[k].procs[p].apc == AddDone(Ok)
    ensures t[k].procs[p].apc.Rename? ==> t[k].procs[p].apc.attempt <= 1
    decreases k
  {
    if k == 0 {
      ReachableInv(c, t[0]);
    } else {
      CommitsWithinTwoRenames(c, t, moves, p, k - 1);
      var q, ch := moves[k - 1].0, moves[k - 1].1;
      assert Step(c, t[k - 1], q, ch) == Some(t[k - 1 + 1]);
      assert moves[k - 1] == (q, ch);
      StepKeepsInv(c, t[k - 1], q, ch);
      if q == p {
        OwnStepOnTrack(c, t[k - 1], p, ch);
      } else {
        OtherStepOnTrack(c, t[k - 1], p, q, ch);
      }
    }
  }
}
