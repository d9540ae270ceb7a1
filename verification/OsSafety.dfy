/** Main results about every run of the file-system protocol: any number of
    calls, crashes and failed system calls anywhere, any answer of nlink. */
module OsSafety {
  import opened Base
  import opened OsProtocol
  import opened OsInvariant

  lemma InitialReachable(c: Config)
    ensures Reachable(c, INITIAL)
  {
    assert Run(c, [INITIAL]) && [INITIAL][|[INITIAL]| - 1] == INITIAL;
  }

  lemma StepReachable(c: Config, s: State, p: Pid, ch: Choice)
    requires Reachable(c, s) && Step(c, s, p, ch).Some?
    ensures Reachable(c, Step(c, s, p, ch).value)
  {
    var s' := Step(c, s, p, ch).value;
    var t :| Run(c, t) && t[|t| - 1] == s;
    var t' := t + [s'];
    assert Next(c, s, s');
    forall k | 0 <= k < |t'| - 1 ensures Next(c, t'[k], t'[k + 1]) {
      if k < |t| - 1 { assert Next(c, t[k], t[k + 1]); }
    }
    assert Run(c, t') && t'[|t'| - 1] == s';
  }

  lemma {:induction false} RunKeepsInv(c: Config, t: seq<State>, k: nat)
    requires Run(c, t) && k < |t|
    ensures Inv(c, t[k])
    decreases k
  {
    if k > 0 {
      RunKeepsInv(c, t, k - 1);
      assert Next(c, t[k - 1], t[k - 1 + 1]);
      var p, ch :| Step(c, t[k - 1], p, ch) == Some(t[k]);
      StepKeepsInv(c, t[k - 1], p, ch);
    }
  }

  lemma ReachableInv(c: Config, s: State)
    requires Reachable(c, s)
    ensures Inv(c, s)
  {
    var t :| Run(c, t) && t[|t| - 1] == s;
    RunKeepsInv(c, t, |t| - 1);
  }

  ghost function ReadBytes(s: State, id: StoreId): Bytes
    requires HasBlob(s, id) && s.repos[id].blob.value in s.files
  {
    s.files[s.repos[id].blob.value]
  }

  // The shared name, every committed entry and every open reader hold complete
  // content of the right digest.
  lemma ContentIntegrity(c: Config, s: State)
    requires Reachable(c, s)
    ensures s.share.Some? ==> Good(c, s, s.share.value)
    ensures forall id :: HasBlob(s, id) ==> Good(c, s, s.repos[id].blob.value)
    ensures forall p :: p in s.procs && s.procs[p].Opener? && s.procs[p].opc.Reading? ==> Good(c, s, s.procs[p].opc.fd)
  {
    ReachableInv(c, s);
  }

  // With a collision-free hash, all of them hold the bytes that were added.
  lemma OneContent(c: Config, s: State, content: Bytes)
    requires Reachable(c, s) && Injective(c.hash) && c.hash(content) == c.digest
    ensures s.share.Some? ==> s.share.value in s.files && s.files[s.share.value] == content
    ensures forall id :: HasBlob(s, id) ==> s.repos[id].blob.value in s.files && ReadBytes(s, id) == content
  {
    ContentIntegrity(c, s);
  }

  // The stat of the shared path under the lock stays true until the link: it can
  // fail neither for a missing source nor for an existing destination.
  lemma LinkNeverFails(c: Config, s: State, p: Pid)
    requires Reachable(c, s) && p in s.procs && s.procs[p].Adder?
    ensures s.procs[p].apc.LinkFrom? ==> s.share.Some?
    ensures s.procs[p].apc.LinkTo? ==> s.share.None?
  {
    ReachableInv(c, s);
    assert StageInv(c, s, p);
  }

  // The shared name changes only in the hands of the lock holder, and at most
  // one call holds the lock.
  lemma ShareChangesUnderLock(c: Config, s: State, p: Pid, ch: Choice)
    requires Reachable(c, s) && Step(c, s, p, ch).Some?
    requires Step(c, s, p, ch).value.share != s.share
    ensures s.lock == Some(p) && Step(c, s, p, ch).value.lock == Some(p)
    ensures forall q :: q in s.procs && Holds(s.procs[q]) ==> q == p
  {
    ReachableInv(c, s);
    ShareWriters(c, s, p, ch);
  }

  lemma ShareWriters(c: Config, s: State, p: Pid, ch: Choice)
    requires Step(c, s, p, ch).Some?
    requires Step(c, s, p, ch).value.share != s.share
    ensures p in s.procs && Holds(s.procs[p]) && Step(c, s, p, ch).value.lock == s.lock
  {
    if !ch.Start? && !ch.Crash? && !ch.Fail? && s.procs[p].Adder? {
      if FillsStage(s.procs[p].apc) {
        FillKeepsShare(s, p, ch);
      } else {
        assert s.procs[p].apc.LinkTo?;
      }
    }
  }

  lemma FillKeepsShare(s: State, p: Pid, ch: Choice)
    requires p in s.procs && s.procs[p].Adder? && FillStep(s, p, s.procs[p], ch).Some?
    ensures FillStep(s, p, s.procs[p], ch).value.share == s.share
    ensures FillStep(s, p, s.procs[p], ch).value.repos == s.repos
  {
  }

  // moveStageToRepo never removes a committed blob: from the second duplicate
  // check to the rename the entry has none, whoever else is running.
  lemma ReplacesOnlyOrphans(c: Config, s: State, p: Pid)
    requires Reachable(c, s) && p in s.procs && s.procs[p].Adder?
    requires s.procs[p].apc.Rename? || s.procs[p].apc.StatRepo? || s.procs[p].apc.Clear?
    ensures !HasBlob(s, s.procs[p].id)
    ensures p in s.stages && s.stages[p].blob.Some? && Good(c, s, s.stages[p].blob.value)
  {
    ReachableInv(c, s);
    assert StageInv(c, s, p);
  }

  // A committed entry is taken away only by an Erase of that store; any other
  // step, the removal of the shared name included, leaves what it reads alone.
  lemma OnlyEraseUnlinks(c: Config, s: State, p: Pid, ch: Choice, id: StoreId)
    requires Reachable(c, s) && Step(c, s, p, ch).Some? && HasBlob(s, id)
    ensures s.repos[id].blob.value in s.files
    ensures var s' := Step(c, s, p, ch).value;
            || (HasBlob(s', id) && s'.repos[id].blob.value in s'.files && ReadBytes(s', id) == ReadBytes(s, id))
            || (p in s.procs && s.procs[p].Eraser? && s.procs[p].id == id && s.procs[p].epc.Wipe?)
  {
    ReachableInv(c, s);
    var s' := Step(c, s, p, ch).value;
    if ch.Start? || ch.Crash? || ch.Fail? {
    } else if s.procs[p].Adder? {
      AddKeepsEntries(c, s, p, ch, id);
    } else if s.procs[p].Eraser? {
      EraseKeepsOtherEntries(c, s, p, ch, id);
    }
  }

  lemma EraseKeepsOtherEntries(c: Config, s: State, p: Pid, ch: Choice, id: StoreId)
    requires HasBlob(s, id) && p in s.procs && s.procs[p].Eraser? && EraseStep(c, s, p, s.procs[p], ch).Some?
    ensures var s' := EraseStep(c, s, p, s.procs[p], ch).value;
            && s'.files == s.files
            && ((id in s'.repos && s'.repos[id] == s.repos[id]) || (s.procs[p].id == id && s.procs[p].epc.Wipe?))
  {
    if s.procs[p].epc.Wipe? { SweepShrinks(s.repos, s.procs[p].id, s.procs[p].epc.sweep, ch); }
  }

  // An Add changes no entry that has a blob, nor the file behind it.
  lemma AddKeepsEntries(c: Config, s: State, p: Pid, ch: Choice, id: StoreId)
    requires Inv(c, s) && HasBlob(s, id) && p in s.procs && s.procs[p].Adder?
    requires AddStep(c, s, p, s.procs[p], ch).Some?
    ensures var s' := AddStep(c, s, p, s.procs[p], ch).value;
            && HasBlob(s', id) && s'.repos[id] == s.repos[id] && s'.repos[id].blob.value in s.files
            && s.repos[id].blob.value in s'.files && ReadBytes(s', id) == ReadBytes(s, id)
  {
    var a := s.procs[p];
    assert StageInv(c, s, p);
    if FillsStage(a.apc) {
      FillKeepsFile(c, s, p, ch, s.repos[id].blob.value);
      FillKeepsShare(s, p, ch);
    } else if a.apc.Clear? {
      SweepShrinks(s.repos, a.id, a.apc.sweep, ch);
    }
  }

  lemma FillKeepsFile(c: Config, s: State, p: Pid, ch: Choice, i: Inode)
    requires Inv(c, s) && p in s.procs && s.procs[p].Adder? && FillStep(s, p, s.procs[p], ch).Some?
    requires i in s.files && exists id :: HasBlob(s, id) && s.repos[id].blob.value == i
    ensures var s' := FillStep(s, p, s.procs[p], ch).value; i in s'.files && s'.files[i] == s.files[i]
  {
    assert StageInv(c, s, p);
  }
}
