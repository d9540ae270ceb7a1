/** The hard-link count as a reference count (nlink_linux.go): exact
    deduplication over every run, and no leak over every clean one. */
module OsRefcount {
  import opened Base
  import opened OsProtocol
  import opened OsInvariant
  import opened OsSafety

  // No entry, committed or staged, links to inode i.
  predicate Unlinked(s: State, i: Inode) {
    RepoLinks(s, i) == {} && StageLinks(s, i) == {}
  }

  lemma CountMeansUnlinked(s: State, i: Inode)
    requires s.share == Some(i)
    ensures LinkCount(s, i) > 1 <==> !Unlinked(s, i)
  {
  }

  lemma SameLinks(s: State, s': State)
    requires s'.repos == s.repos && s'.stages == s.stages
    ensures forall i :: RepoLinks(s', i) == RepoLinks(s, i) && StageLinks(s', i) == StageLinks(s, i)
  {
  }

  // ---- Exact deduplication ----

  ghost predicate DedupInv(s: State) {
    && (forall id :: HasBlob(s, id) ==> s.repos[id].blob == s.share)
    && (forall p :: p in s.procs && s.procs[p].Adder? && Staged(s.procs[p].apc) ==>
          p in s.stages && s.stages[p].blob == s.share)
    && (forall p :: p in s.procs && s.procs[p].Eraser? && s.procs[p].epc.RemoveShare? ==>
          s.share.Some? && Unlinked(s, s.share.value))
  }

  // Without the lock no link to the shared inode can appear.
  lemma UnlinkedStays(c: Config, s: State, s': State, p: Pid)
    requires Inv(c, s) && DedupInv(s) && Moves(s, s', p) && Outside(s, s')
    requires s'.procs[p].Eraser? && s'.procs[p].epc.RemoveShare? ==> s'.share.Some? && Unlinked(s', s'.share.value)
    requires s'.procs[p].Adder? && Staged(s'.procs[p].apc) ==> s.procs[p].Adder? && Staged(s.procs[p].apc)
    ensures DedupInv(s')
  {
    forall r | r in s'.procs && s'.procs[r].Eraser? && s'.procs[r].epc.RemoveShare?
      ensures s'.share.Some? && Unlinked(s', s'.share.value)
    {
      if r != p {
        var i := s.share.value;
        forall id | id in s'.repos ensures s'.repos[id].blob != Some(i) {
          assert id !in RepoLinks(s, i);
        }
      }
    }
  }

  // While p holds the lock no cleanup is about to remove the shared name.
  lemma HolderDedup(c: Config, s: State, s': State, p: Pid)
    requires Inv(c, s) && DedupInv(s) && Moves(s, s', p) && s.lock == Some(p)
    requires forall id :: HasBlob(s', id) ==> s'.repos[id].blob == s'.share
    requires s'.procs[p].Adder? && Staged(s'.procs[p].apc) ==> p in s'.stages && s'.stages[p].blob == s'.share
    requires !(s'.procs[p].Eraser? && s'.procs[p].epc.RemoveShare?)
    ensures DedupInv(s')
  {
    forall q | q in s'.procs && q != p ensures !Holds(s'.procs[q]) {
    }
  }

  lemma FillKeepsDedup(c: Config, s: State, p: Pid, ch: Choice)
    requires Inv(c, s) && DedupInv(s) && p in s.procs && s.procs[p].Adder? && FillStep(s, p, s.procs[p], ch).Some?
    ensures DedupInv(FillStep(s, p, s.procs[p], ch).value)
  {
    FillMoves(s, p, ch);
    assert StageInv(c, s, p);
    var s' := FillStep(s, p, s.procs[p], ch).value;
    FillKeepsShare(s, p, ch);
    assert forall id :: HasBlob(s', id) ==> HasBlob(s, id);
    HolderDedup(c, s, s', p);
  }

  lemma PublishKeepsDedup(c: Config, s: State, p: Pid, ch: Choice)
    requires Inv(c, s) && DedupInv(s) && p in s.procs && s.procs[p].Adder? && PublishStep(s, p, s.procs[p], ch).Some?
    ensures DedupInv(PublishStep(s, p, s.procs[p], ch).value)
  {
    PublishMoves(s, p, ch);
    assert StageInv(c, s, p);
    var s' := PublishStep(s, p, s.procs[p], ch).value;
    assert forall id :: HasBlob(s', id) ==> HasBlob(s, id) || id == s.procs[p].id;
    HolderDedup(c, s, s', p);
  }

  lemma PlainKeepsDedup(c: Config, s: State, p: Pid, ch: Choice)
    requires Inv(c, s) && DedupInv(s) && p in s.procs && s.procs[p].Adder? && PlainStep(c, s, p, s.procs[p], ch).Some?
    ensures DedupInv(PlainStep(c, s, p, s.procs[p], ch).value)
  {
    assert StageInv(c, s, p);
    PlainMoves(c, s, p, ch);
    PlainKeepsOwn(c, s, p, ch);
    UnlinkedStays(c, s, PlainStep(c, s, p, s.procs[p], ch).value, p);
  }

  lemma ClearKeepsDedup(c: Config, s: State, p: Pid, ch: Choice)
    requires Inv(c, s) && DedupInv(s) && p in s.procs && s.procs[p].Adder? && ClearStep(s, p, s.procs[p], ch).Some?
    ensures DedupInv(ClearStep(s, p, s.procs[p], ch).value)
  {
    var a := s.procs[p];
    ClearMoves(s, p, ch);
    SweepShrinks(s.repos, a.id, a.apc.sweep, ch);
    UnlinkedStays(c, s, ClearStep(s, p, a, ch).value, p);
  }

  lemma BlobsAreLinks(s: State)
    requires DedupInv(s) && s.share.Some?
    ensures forall id :: HasBlob(s, id) ==> id in RepoLinks(s, s.share.value)
  {
  }

  lemma EraseKeepsDedup(c: Config, s: State, p: Pid, ch: Choice)
    requires c.exact && Inv(c, s) && DedupInv(s) && p in s.procs && s.procs[p].Eraser?
    requires EraseStep(c, s, p, s.procs[p], ch).Some?
    ensures DedupInv(EraseStep(c, s, p, s.procs[p], ch).value)
  {
    var a := s.procs[p];
    var s' := EraseStep(c, s, p, a, ch).value;
    EraseMoves(c, s, p, ch);
    if a.epc.RemoveShare? {
      BlobsAreLinks(s);
      assert forall id :: HasBlob(s', id) ==> HasBlob(s, id);
      HolderDedup(c, s, s', p);
    } else {
      if a.epc.Wipe? { SweepShrinks(s.repos, a.id, a.epc.sweep, ch); }
      if a.epc.Nlink2? && s.share.Some? {
        CountMeansUnlinked(s, s.share.value);
        assert RepoLinks(s', s.share.value) == RepoLinks(s, s.share.value);
        assert StageLinks(s', s.share.value) == StageLinks(s, s.share.value);
      }
      UnlinkedStays(c, s, s', p);
    }
  }

  lemma StartKeepsDedup(c: Config, s: State, p: Pid, ch: Choice)
    requires DedupInv(s) && Step(c, s, p, ch).Some? && ch.Start?
    ensures DedupInv(Step(c, s, p, ch).value)
  {
    var s' := Step(c, s, p, ch).value;
    if s.share.Some? {
      assert RepoLinks(s', s.share.value) == RepoLinks(s, s.share.value);
      assert StageLinks(s', s.share.value) == StageLinks(s, s.share.value);
    }
  }

  lemma FaultKeepsDedup(c: Config, s: State, p: Pid, ch: Choice)
    requires Inv(c, s) && DedupInv(s) && Step(c, s, p, ch).Some? && (ch.Crash? || ch.Fail?)
    ensures DedupInv(Step(c, s, p, ch).value)
  {
    StepMoves(c, s, p, ch);
    UnlinkedStays(c, s, Step(c, s, p, ch).value, p);
  }

  lemma LabelKeepsDedup(c: Config, s: State, p: Pid, ch: Choice)
    requires Inv(c, s) && DedupInv(s) && p in s.procs && s.procs[p].Labeler? && LabelStep(s, p, s.procs[p], ch).Some?
    ensures DedupInv(LabelStep(s, p, s.procs[p], ch).value)
  {
    UnlinkedStays(c, s, LabelStep(s, p, s.procs[p], ch).value, p);
  }

  lemma OpenKeepsDedup(c: Config, s: State, p: Pid, ch: Choice)
    requires Inv(c, s) && DedupInv(s) && p in s.procs && s.procs[p].Opener? && OpenStep(s, p, s.procs[p], ch).Some?
    ensures DedupInv(OpenStep(s, p, s.procs[p], ch).value)
  {
    OpenOnlyReads(s, p, ch);
    UnlinkedStays(c, s, OpenStep(s, p, s.procs[p], ch).value, p);
  }

  lemma AddKeepsDedup(c: Config, s: State, p: Pid, ch: Choice)
    requires Inv(c, s) && DedupInv(s) && p in s.procs && s.procs[p].Adder? && AddStep(c, s, p, s.procs[p], ch).Some?
    ensures DedupInv(AddStep(c, s, p, s.procs[p], ch).value)
  {
    if FillsStage(s.procs[p].apc) {
      FillKeepsDedup(c, s, p, ch);
    } else if Publishes(s.procs[p].apc) {
      PublishKeepsDedup(c, s, p, ch);
    } else if s.procs[p].apc.Clear? {
      ClearKeepsDedup(c, s, p, ch);
    } else {
      PlainKeepsDedup(c, s, p, ch);
    }
  }

  lemma StepKeepsDedup(c: Config, s: State, p: Pid, ch: Choice)
    requires c.exact && Inv(c, s) && DedupInv(s) && Step(c, s, p, ch).Some?
    ensures DedupInv(Step(c, s, p, ch).value)
  {
    if ch.Start? {
      StartKeepsDedup(c, s, p, ch);
    } else if ch.Crash? || ch.Fail? {
      FaultKeepsDedup(c, s, p, ch);
    } else if s.procs[p].Labeler? {
      LabelKeepsDedup(c, s, p, ch);
    } else if s.procs[p].Opener? {
      OpenKeepsDedup(c, s, p, ch);
    } else if s.procs[p].Eraser? {
      EraseKeepsDedup(c, s, p, ch);
    } else {
      AddKeepsDedup(c, s, p, ch);
    }
  }

  lemma {:induction false} RunKeepsDedup(c: Config, t: seq<State>, k: nat)
    requires c.exact && Run(c, t) && k < |t|
    ensures DedupInv(t[k])
    decreases k
  {
    if k > 0 {
      RunKeepsDedup(c, t, k - 1);
      RunKeepsInv(c, t, k - 1);
      assert Next(c, t[k - 1], t[k - 1 + 1]);
      var p, ch :| Step(c, t[k - 1], p, ch) == Some(t[k]);
      StepKeepsDedup(c, t[k - 1], p, ch);
    }
  }

  // With exact link counts, after any run and any crashes: every committed entry
  // is the shared inode itself, and a cleanup about to remove the shared name
  // removes the last one.
  lemma ExactDedup(c: Config, s: State)
    requires c.exact && Reachable(c, s)
    ensures forall id :: HasBlob(s, id) ==> s.share.Some? && s.repos[id].blob == s.share
    ensures forall p :: p in s.procs && s.procs[p].Eraser? && s.procs[p].epc.RemoveShare? ==>
              s.share.Some? && LinkCount(s, s.share.value) == 1
  {
    var t :| Run(c, t) && t[|t| - 1] == s;
    RunKeepsDedup(c, t, |t| - 1);
    if s.share.Some? { CountMeansUnlinked(s, s.share.value); }
  }

  // ---- Leaks ----

  // An Erase that will still look at the link count, or is about to act on it.
  predicate Cleaning(a: Proc) {
    a.Eraser? && (a.epc.Wipe? || a.epc.Nlink1? || a.epc.CleanLock? || a.epc.Nlink2? || a.epc.RemoveShare?)
  }

  // In a clean run a shared inode with no other link has an Erase on its way.
  ghost predicate LeakInv(s: State) {
    s.faults == {} ==>
      && (forall p :: p in s.procs && s.procs[p].Adder? ==> !s.procs[p].apc.Discard?)
      && (forall p :: p in s.stages ==> p in s.procs && s.procs[p].Adder? && Staging(s.procs[p].apc))
      && (s.share.Some? && Unlinked(s, s.share.value) ==> exists e :: e in s.procs && Cleaning(s.procs[e]))
  }

  lemma StartKeepsLeak(c: Config, s: State, p: Pid, ch: Choice)
    requires LeakInv(s) && Step(c, s, p, ch).Some? && ch.Start?
    ensures LeakInv(Step(c, s, p, ch).value)
  {
    var s' := Step(c, s, p, ch).value;
    if s.share.Some? {
      assert RepoLinks(s', s.share.value) == RepoLinks(s, s.share.value);
      assert StageLinks(s', s.share.value) == StageLinks(s, s.share.value);
    }
    if s.faults == {} && s.share.Some? && Unlinked(s', s.share.value) {
      var e :| e in s.procs && Cleaning(s.procs[e]);
      assert e in s'.procs && Cleaning(s'.procs[e]);
    }
  }

  // If the shared inode keeps its links, the Erase on its way stays there.
  lemma LinksKept(s: State, s': State, p: Pid)
    requires LeakInv(s) && Moves(s, s', p) && s'.faults == s.faults == {}
    requires s'.share == s.share
    requires s.share.Some? && Unlinked(s', s.share.value) && !Cleaning(s'.procs[p]) ==>
      Unlinked(s, s.share.value) && !Cleaning(s.procs[p])
    ensures s'.share.Some? && Unlinked(s', s'.share.value) ==> exists e :: e in s'.procs && Cleaning(s'.procs[e])
  {
    if s'.share.Some? && Unlinked(s', s'.share.value) {
      if Cleaning(s'.procs[p]) {
      } else {
        var e :| e in s.procs && Cleaning(s.procs[e]);
        assert e in s'.procs && Cleaning(s'.procs[e]);
      }
    }
  }

  lemma EraseKeepsLeak(c: Config, s: State, p: Pid, ch: Choice)
    requires c.exact && Inv(c, s) && LeakInv(s) && p in s.procs && s.procs[p].Eraser?
    requires EraseStep(c, s, p, s.procs[p], ch).Some?
    ensures LeakInv(EraseStep(c, s, p, s.procs[p], ch).value)
  {
    EraseMoves(c, s, p, ch);
    var s' := EraseStep(c, s, p, s.procs[p], ch).value;
    if s.procs[p].epc.RemoveShare? {
    } else if s.procs[p].epc.Wipe? {
      if s'.faults == {} {
        WipeOutcome(c, s, p, ch);
        LinksKept(s, s', p);
      }
    } else {
      CheckOutcome(c, s, p, ch);
      LinksKeptUnlessFaulty(s, s', p);
    }
  }

  // Unlinking leaves the Erase on its way to the link count.
  lemma WipeOutcome(c: Config, s: State, p: Pid, ch: Choice)
    requires p in s.procs && s.procs[p].Eraser? && s.procs[p].epc.Wipe? && EraseStep(c, s, p, s.procs[p], ch).Some?
    ensures var s' := EraseStep(c, s, p, s.procs[p], ch).value;
            s'.share == s.share && s'.stages == s.stages &&
            (s'.faults == {} ==> p in s'.procs && Cleaning(s'.procs[p]))
  {
  }

  // Checks and the lock change no link, and an exact count of one is acted on.
  lemma CheckOutcome(c: Config, s: State, p: Pid, ch: Choice)
    requires c.exact && p in s.procs && s.procs[p].Eraser? && EraseStep(c, s, p, s.procs[p], ch).Some?
    requires !s.procs[p].epc.Wipe? && !s.procs[p].epc.RemoveShare?
    ensures var s' := EraseStep(c, s, p, s.procs[p], ch).value;
            && s'.share == s.share && s'.repos == s.repos && s'.stages == s.stages && s'.faults == s.faults
            && p in s'.procs
            && (Cleaning(s.procs[p]) && s.share.Some? && Unlinked(s, s.share.value) ==> Cleaning(s'.procs[p]))
  {
    if s.share.Some? { CountMeansUnlinked(s, s.share.value); }
  }

  lemma LinksKeptUnlessFaulty(s: State, s': State, p: Pid)
    requires LeakInv(s) && Moves(s, s', p)
    requires s'.share == s.share && s'.repos == s.repos && s'.stages == s.stages && s'.faults >= s.faults
    requires s'.faults == {} && s.share.Some? && Unlinked(s, s.share.value) && Cleaning(s.procs[p]) ==> Cleaning(s'.procs[p])
    requires s'.faults == {} && s.procs[p].Adder? ==>
      s'.procs[p].Adder? && !s'.procs[p].apc.Discard? && (p in s.stages ==> Staging(s'.procs[p].apc))
    requires s'.procs[p].Adder? ==> s.procs[p].Adder?
    ensures LeakInv(s')
  {
    if s'.faults == {} {
      SameLinks(s, s');
      LinksKept(s, s', p);
    }
  }

  lemma LabelKeepsLeak(s: State, p: Pid, ch: Choice)
    requires LeakInv(s) && p in s.procs && s.procs[p].Labeler? && LabelStep(s, p, s.procs[p], ch).Some?
    ensures LeakInv(LabelStep(s, p, s.procs[p], ch).value)
  {
    var s' := LabelStep(s, p, s.procs[p], ch).value;
    if s'.faults == {} {
      if s.share.Some? {
        assert RepoLinks(s', s.share.value) == RepoLinks(s, s.share.value);
        assert StageLinks(s', s.share.value) == StageLinks(s, s.share.value);
      }
      LinksKept(s, s', p);
    }
  }

  lemma OpenKeepsLeak(s: State, p: Pid, ch: Choice)
    requires LeakInv(s) && p in s.procs && s.procs[p].Opener? && OpenStep(s, p, s.procs[p], ch).Some?
    ensures LeakInv(OpenStep(s, p, s.procs[p], ch).value)
  {
    LinksKeptUnlessFaulty(s, OpenStep(s, p, s.procs[p], ch).value, p);
  }

  lemma FillKeepsLeak(c: Config, s: State, p: Pid, ch: Choice)
    requires Inv(c, s) && LeakInv(s) && p in s.procs && s.procs[p].Adder? && FillStep(s, p, s.procs[p], ch).Some?
    ensures LeakInv(FillStep(s, p, s.procs[p], ch).value)
  {
    var s' := FillStep(s, p, s.procs[p], ch).value;
    FillMoves(s, p, ch);
    assert StageInv(c, s, p);
    if s'.faults == {} {
      FillKeepsShare(s, p, ch);
      if s.share.Some? {
        assert RepoLinks(s', s.share.value) == RepoLinks(s, s.share.value);
        assert StageLinks(s, s.share.value) <= StageLinks(s', s.share.value);
      }
      LinksKept(s, s', p);
    }
  }

  lemma PublishKeepsLeak(c: Config, s: State, p: Pid, ch: Choice)
    requires Inv(c, s) && DedupInv(s) && LeakInv(s) && p in s.procs && s.procs[p].Adder?
    requires PublishStep(s, p, s.procs[p], ch).Some?
    ensures LeakInv(PublishStep(s, p, s.procs[p], ch).value)
  {
    var a := s.procs[p];
    var s' := PublishStep(s, p, a, ch).value;
    PublishMoves(s, p, ch);
    assert StageInv(c, s, p);
    if s'.faults == {} && s'.share.Some? {
      if s'.repos != s.repos {
        assert a.id in RepoLinks(s', s'.share.value);
      } else {
        assert p in StageLinks(s', s'.share.value);
      }
    }
  }

  lemma PlainKeepsLeak(c: Config, s: State, p: Pid, ch: Choice)
    requires Inv(c, s) && LeakInv(s) && p in s.procs && s.procs[p].Adder? && PlainStep(c, s, p, s.procs[p], ch).Some?
    ensures LeakInv(PlainStep(c, s, p, s.procs[p], ch).value)
  {
    assert StageInv(c, s, p);
    PlainMoves(c, s, p, ch);
    PlainKeepsOwn(c, s, p, ch);
    LinksKeptUnlessFaulty(s, PlainStep(c, s, p, s.procs[p], ch).value, p);
  }

  lemma ClearKeepsLeak(c: Config, s: State, p: Pid, ch: Choice)
    requires Inv(c, s) && LeakInv(s) && p in s.procs && s.procs[p].Adder? && ClearStep(s, p, s.procs[p], ch).Some?
    ensures LeakInv(ClearStep(s, p, s.procs[p], ch).value)
  {
    var s' := ClearStep(s, p, s.procs[p], ch).value;
    ClearMoves(s, p, ch);
    if s'.faults == {} {
      assert StageInv(c, s, p);
      ClearKeepsLinks(c, s, p, ch);
      if s.share.Some? { assert StageLinks(s', s.share.value) == StageLinks(s, s.share.value); }
      LinksKept(s, s', p);
    }
  }

  lemma AddKeepsLeak(c: Config, s: State, p: Pid, ch: Choice)
    requires Inv(c, s) && DedupInv(s) && LeakInv(s) && p in s.procs && s.procs[p].Adder?
    requires AddStep(c, s, p, s.procs[p], ch).Some?
    ensures LeakInv(AddStep(c, s, p, s.procs[p], ch).value)
  {
    if FillsStage(s.procs[p].apc) {
      FillKeepsLeak(c, s, p, ch);
    } else if Publishes(s.procs[p].apc) {
      PublishKeepsLeak(c, s, p, ch);
    } else if s.procs[p].apc.Clear? {
      ClearKeepsLeak(c, s, p, ch);
    } else {
      PlainKeepsLeak(c, s, p, ch);
    }
  }

  // The leftover directory an Add clears away holds no blob.
  lemma ClearKeepsLinks(c: Config, s: State, p: Pid, ch: Choice)
    requires p in s.procs && s.procs[p].Adder? && StageInv(c, s, p) && ClearStep(s, p, s.procs[p], ch).Some?
    ensures var s' := ClearStep(s, p, s.procs[p], ch).value;
            forall i :: RepoLinks(s', i) == RepoLinks(s, i)
  {
    var a := s.procs[p];
    var s' := ClearStep(s, p, a, ch).value;
    SweepShrinks(s.repos, a.id, a.apc.sweep, ch);
    forall i ensures RepoLinks(s', i) == RepoLinks(s, i) {
      forall id ensures id in RepoLinks(s', i) <==> id in RepoLinks(s, i) {
      }
    }
  }

  lemma StepKeepsLeak(c: Config, s: State, p: Pid, ch: Choice)
    requires c.exact && Inv(c, s) && DedupInv(s) && LeakInv(s) && Step(c, s, p, ch).Some?
    ensures LeakInv(Step(c, s, p, ch).value)
  {
    if ch.Start? {
      StartKeepsLeak(c, s, p, ch);
    } else if ch.Crash? || ch.Fail? {
    } else if s.procs[p].Labeler? {
      LabelKeepsLeak(s, p, ch);
    } else if s.procs[p].Opener? {
      OpenKeepsLeak(s, p, ch);
    } else if s.procs[p].Eraser? {
      EraseKeepsLeak(c, s, p, ch);
    } else {
      AddKeepsLeak(c, s, p, ch);
    }
  }

  lemma {:induction false} RunKeepsLeak(c: Config, t: seq<State>, k: nat)
    requires c.exact && Run(c, t) && k < |t|
    ensures LeakInv(t[k])
    decreases k
  {
    if k > 0 {
      RunKeepsLeak(c, t, k - 1);
      RunKeepsDedup(c, t, k - 1);
      RunKeepsInv(c, t, k - 1);
      assert Next(c, t[k - 1], t[k - 1 + 1]);
      var p, ch :| Step(c, t[k - 1], p, ch) == Some(t[k]);
      StepKeepsLeak(c, t[k - 1], p, ch);
    }
  }

  // In a clean run, a shared inode that nothing else links to is about to be
  // looked at by some Erase.
  lemma OrphanHasCleaner(c: Config, s: State)
    requires c.exact && Reachable(c, s) && s.faults == {}
    requires s.share.Some? && LinkCount(s, s.share.value) == 1
    ensures exists e :: e in s.procs && Cleaning(s.procs[e])
  {
    var t :| Run(c, t) && t[|t| - 1] == s;
    RunKeepsLeak(c, t, |t| - 1);
    CountMeansUnlinked(s, s.share.value);
  }

  // When every call has returned, the shared blob is there exactly when some
  // store still has it, and nothing is left in stage/.
  lemma NoLeak(c: Config, s: State)
    requires c.exact && Reachable(c, s) && s.faults == {}
    requires forall p :: p in s.procs ==> Finished(s.procs[p])
    ensures s.share.Some? <==> exists id :: HasBlob(s, id)
    ensures s.stages == map[]
  {
    var t :| Run(c, t) && t[|t| - 1] == s;
    RunKeepsLeak(c, t, |t| - 1);
    ExactDedup(c, s);
    assert s.stages.Keys == {};
    if s.share.Some? {
      assert !Unlinked(s, s.share.value);
      var id :| id in RepoLinks(s, s.share.value);
      assert HasBlob(s, id);
    }
  }
}
