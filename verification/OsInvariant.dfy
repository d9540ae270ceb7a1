/** What every step of the file-system protocol keeps, with crashes and failed
    system calls at any point and, for the content part, any answer of nlink. */
module OsInvariant {
  import opened Base
  import opened OsProtocol

  // An inode holding a complete copy of a blob of this digest.
  ghost predicate Good(c: Config, s: State, i: Inode) {
    i in s.files && c.hash(s.files[i]) == c.digest
  }

  ghost predicate GoodOpt(c: Config, s: State, o: Option<Inode>) {
    o.Some? ==> Good(c, s, o.value)
  }

  // ---- The per-digest lock ----

  ghost predicate LockInv(s: State) {
    && (forall p :: p in s.procs ==> (Holds(s.procs[p]) <==> s.lock == Some(p)))
    && (s.lock.Some? ==> s.lock.value in s.procs)
  }

  // One call moves; the lock changes hands only through it.
  ghost predicate Moves(s: State, s': State, p: Pid) {
    && p in s.procs && p in s'.procs
    && s'.procs == s.procs[p := s'.procs[p]]
    && ((Holds(s.procs[p]) <==> s.lock == Some(p)) ==>
          && (Holds(s'.procs[p]) <==> s'.lock == Some(p))
          && (s'.lock == s.lock || (s.lock == None && s'.lock == Some(p)) || (s.lock == Some(p) && s'.lock == None)))
  }

  lemma FillMoves(s: State, p: Pid, ch: Choice)
    requires p in s.procs && s.procs[p].Adder? && FillStep(s, p, s.procs[p], ch).Some?
    ensures Moves(s, FillStep(s, p, s.procs[p], ch).value, p)
  {
  }

  lemma PublishMoves(s: State, p: Pid, ch: Choice)
    requires p in s.procs && s.procs[p].Adder? && PublishStep(s, p, s.procs[p], ch).Some?
    ensures Moves(s, PublishStep(s, p, s.procs[p], ch).value, p)
  {
  }

  lemma ClearMoves(s: State, p: Pid, ch: Choice)
    requires p in s.procs && s.procs[p].Adder? && ClearStep(s, p, s.procs[p], ch).Some?
    ensures Moves(s, ClearStep(s, p, s.procs[p], ch).value, p)
  {
  }

  lemma PlainMoves(c: Config, s: State, p: Pid, ch: Choice)
    requires p in s.procs && s.procs[p].Adder? && PlainStep(c, s, p, s.procs[p], ch).Some?
    ensures Moves(s, PlainStep(c, s, p, s.procs[p], ch).value, p)
  {
  }

  lemma AddMoves(c: Config, s: State, p: Pid, ch: Choice)
    requires p in s.procs && s.procs[p].Adder? && AddStep(c, s, p, s.procs[p], ch).Some?
    ensures Moves(s, AddStep(c, s, p, s.procs[p], ch).value, p)
  {
    if FillsStage(s.procs[p].apc) {
      FillMoves(s, p, ch);
    } else if Publishes(s.procs[p].apc) {
      PublishMoves(s, p, ch);
    } else if s.procs[p].apc.Clear? {
      ClearMoves(s, p, ch);
    } else {
      PlainMoves(c, s, p, ch);
    }
  }

  lemma EraseMoves(c: Config, s: State, p: Pid, ch: Choice)
    requires p in s.procs && s.procs[p].Eraser? && EraseStep(c, s, p, s.procs[p], ch).Some?
    ensures Moves(s, EraseStep(c, s, p, s.procs[p], ch).value, p)
  {
  }

  lemma StepMoves(c: Config, s: State, p: Pid, ch: Choice)
    requires LockInv(s) && Step(c, s, p, ch).Some? && !ch.Start?
    ensures Moves(s, Step(c, s, p, ch).value, p)
  {
    if !ch.Crash? && !ch.Fail? {
      if s.procs[p].Adder? { AddMoves(c, s, p, ch); }
      if s.procs[p].Eraser? { EraseMoves(c, s, p, ch); }
    }
  }

  lemma LockStep(c: Config, s: State, p: Pid, ch: Choice)
    requires LockInv(s) && Step(c, s, p, ch).Some?
    ensures LockInv(Step(c, s, p, ch).value)
  {
    if !ch.Start? { StepMoves(c, s, p, ch); }
  }

  // ---- What a running Add knows ----

  predicate Staging(pc: AddPc) {
    pc.PutLabels? || pc.StatShare? || pc.LinkFrom? || pc.CreateBlob? || pc.CopyBlob? || pc.LinkTo? || Staged(pc)
  }

  // The staged directory is complete.
  predicate Staged(pc: AddPc) {
    pc.Rename? || pc.StatRepo? || pc.Clear?
  }

  ghost predicate StageInv(c: Config, s: State, p: Pid)
    requires p in s.procs && s.procs[p].Adder?
  {
    var a := s.procs[p];
    match a.apc
    case PreCheck | Verify | AddDone(_) | AddCrashed => true
    case WantLock | Recheck | Discard(_) | Unlock(_) => c.hash(a.content) == c.digest
    case MkStage => c.hash(a.content) == c.digest && !HasBlob(s, a.id)
    case PutLabels | StatShare => EmptyStage(c, s, p, a)
    case LinkFrom => EmptyStage(c, s, p, a) && s.share.Some?
    case CreateBlob => EmptyStage(c, s, p, a) && s.share.None?
    case CopyBlob =>
      && FilledStage(c, s, p, a) && s.share.None?
      && s.files[s.stages[p].blob.value] <= a.content && Private(s, p, s.stages[p].blob.value)
    case LinkTo => FilledStage(c, s, p, a) && s.share.None? && s.files[s.stages[p].blob.value] == a.content
    case Rename(_) | StatRepo(_) | Clear(_, _) => FilledStage(c, s, p, a) && Good(c, s, s.stages[p].blob.value)
  }

  ghost predicate EmptyStage(c: Config, s: State, p: Pid, a: Proc)
    requires a.Adder?
  {
    c.hash(a.content) == c.digest && !HasBlob(s, a.id) && p in s.stages && s.stages[p].blob.None?
  }

  ghost predicate FilledStage(c: Config, s: State, p: Pid, a: Proc)
    requires a.Adder?
  {
    && c.hash(a.content) == c.digest && !HasBlob(s, a.id)
    && p in s.stages && s.stages[p].blob.Some? && s.stages[p].blob.value in s.files
  }

  // Nobody but p's staging directory can name inode i.
  ghost predicate Private(s: State, p: Pid, i: Inode) {
    && s.share != Some(i)
    && (forall id :: id in s.repos ==> s.repos[id].blob != Some(i))
    && (forall q :: q in s.stages && q != p ==> s.stages[q].blob != Some(i))
    && (forall q :: q in s.procs && s.procs[q].Opener? && s.procs[q].opc.Reading? ==> s.procs[q].opc.fd != i)
  }

  ghost predicate AddInv(c: Config, s: State) {
    forall p :: p in s.procs && s.procs[p].Adder? ==> StageInv(c, s, p)
  }

  // Every name that outlives its Add points at an allocated inode.
  ghost predicate NamesInv(c: Config, s: State) {
    && GoodOpt(c, s, s.share)
    && (forall id :: id in s.repos ==> GoodOpt(c, s, s.repos[id].blob))
    && (forall q :: q in s.stages && s.stages[q].blob.Some? ==> s.stages[q].blob.value in s.files)
    && (forall q :: q in s.procs && s.procs[q].Opener? && s.procs[q].opc.Reading? ==> Good(c, s, s.procs[q].opc.fd))
  }

  ghost predicate Inv(c: Config, s: State) {
    LockInv(s) && AddInv(c, s) && NamesInv(c, s)
  }

  // A sweep only takes names away, and only from its own path.
  lemma SweepShrinks(repos: map<StoreId, Dir>, id: StoreId, sw: Sweep, ch: Choice)
    ensures var o := SweepStep(repos, id, sw, ch);
            o.SwNext? || o.SwFinished? ==>
              && o.repos.Keys <= repos.Keys
              && (forall x :: x in o.repos ==> o.repos[x].blob.None? || o.repos[x].blob == repos[x].blob)
              && (forall x :: x in repos && x != id ==> x in o.repos && o.repos[x] == repos[x])
  {
  }

  // Only the lock holder is committing, so what it does cannot disturb another Add.
  lemma HolderFrame(c: Config, s: State, s': State, p: Pid)
    requires Inv(c, s) && s.lock == Some(p) && Moves(s, s', p)
    requires s'.procs[p].Adder? ==> StageInv(c, s', p)
    ensures AddInv(c, s')
  {
    forall q | q in s'.procs && s'.procs[q].Adder? ensures StageInv(c, s', q) {
      if q != p { assert StageInv(c, s, q) && !Holds(s.procs[q]); }
    }
  }

  // A step outside the lock takes names away from the repos at most.
  ghost predicate Outside(s: State, s': State) {
    && s'.share == s.share && s'.stages == s.stages && s'.files == s.files
    && s'.repos.Keys <= s.repos.Keys
    && (forall id :: id in s'.repos ==> s'.repos[id].blob.None? || s'.repos[id].blob == s.repos[id].blob)
  }

  lemma OutsideFrame(c: Config, s: State, s': State, p: Pid)
    requires Inv(c, s) && Moves(s, s', p) && Outside(s, s')
    requires s'.procs[p].Adder? ==> StageInv(c, s', p)
    requires s'.procs[p].Opener? && s'.procs[p].opc.Reading? ==>
      exists id :: id in s.repos && s.repos[id].blob == Some(s'.procs[p].opc.fd)
    ensures AddInv(c, s') && NamesInv(c, s')
  {
    forall q | q in s'.procs && s'.procs[q].Adder? ensures StageInv(c, s', q) {
      if q != p {
        assert StageInv(c, s, q);
        if s.procs[q].apc.CopyBlob? { assert Private(s', q, s.stages[q].blob.value); }
      }
    }
  }

  lemma PlainKeepsOwn(c: Config, s: State, p: Pid, ch: Choice)
    requires p in s.procs && s.procs[p].Adder? && StageInv(c, s, p) && PlainStep(c, s, p, s.procs[p], ch).Some?
    ensures var s' := PlainStep(c, s, p, s.procs[p], ch).value;
            && s'.share == s.share && s'.stages == s.stages && s'.files == s.files && s'.repos == s.repos
            && p in s'.procs && s'.procs[p].Adder? && StageInv(c, s', p)
  {
  }

  lemma PlainKeepsInv(c: Config, s: State, p: Pid, ch: Choice)
    requires Inv(c, s) && p in s.procs && s.procs[p].Adder? && PlainStep(c, s, p, s.procs[p], ch).Some?
    ensures var s' := PlainStep(c, s, p, s.procs[p], ch).value; AddInv(c, s') && NamesInv(c, s')
  {
    PlainMoves(c, s, p, ch);
    assert StageInv(c, s, p);
    PlainKeepsOwn(c, s, p, ch);
    OutsideFrame(c, s, PlainStep(c, s, p, s.procs[p], ch).value, p);
  }

  lemma ClearKeepsInv(c: Config, s: State, p: Pid, ch: Choice)
    requires Inv(c, s) && p in s.procs && s.procs[p].Adder? && ClearStep(s, p, s.procs[p], ch).Some?
    ensures var s' := ClearStep(s, p, s.procs[p], ch).value; AddInv(c, s') && NamesInv(c, s')
  {
    var a := s.procs[p];
    ClearMoves(s, p, ch);
    assert StageInv(c, s, p);
    SweepShrinks(s.repos, a.id, a.apc.sweep, ch);
    OutsideFrame(c, s, ClearStep(s, p, a, ch).value, p);
  }

  lemma CopyStep(c: Config, s: State, p: Pid, ch: Choice)
    requires Inv(c, s) && p in s.procs && s.procs[p].Adder? && FillStep(s, p, s.procs[p], ch).Some?
    requires s.procs[p].apc.CopyBlob?
    ensures var s' := FillStep(s, p, s.procs[p], ch).value; StageInv(c, s', p) && NamesInv(c, s')
  {
    assert StageInv(c, s, p);
    var i := s.stages[p].blob.value;
    assert Private(s, p, i);
    var s' := FillStep(s, p, s.procs[p], ch).value;
    assert Private(s', p, i);
  }

  lemma CreateStep(c: Config, s: State, p: Pid, ch: Choice)
    requires Inv(c, s) && p in s.procs && s.procs[p].Adder? && FillStep(s, p, s.procs[p], ch).Some?
    requires s.procs[p].apc.CreateBlob?
    ensures var s' := FillStep(s, p, s.procs[p], ch).value; StageInv(c, s', p) && NamesInv(c, s')
  {
    assert StageInv(c, s, p);
    var s' := FillStep(s, p, s.procs[p], ch).value;
    assert Private(s', p, ch.inode);
  }

  lemma FillKeepsOwn(c: Config, s: State, p: Pid, ch: Choice)
    requires Inv(c, s) && p in s.procs && s.procs[p].Adder? && FillStep(s, p, s.procs[p], ch).Some?
    ensures var s' := FillStep(s, p, s.procs[p], ch).value; StageInv(c, s', p) && NamesInv(c, s')
  {
    assert StageInv(c, s, p);
    if s.procs[p].apc.CopyBlob? {
      CopyStep(c, s, p, ch);
    } else if s.procs[p].apc.CreateBlob? {
      CreateStep(c, s, p, ch);
    }
  }

  lemma FillKeepsInv(c: Config, s: State, p: Pid, ch: Choice)
    requires Inv(c, s) && p in s.procs && s.procs[p].Adder? && FillStep(s, p, s.procs[p], ch).Some?
    ensures var s' := FillStep(s, p, s.procs[p], ch).value; AddInv(c, s') && NamesInv(c, s')
  {
    FillMoves(s, p, ch);
    FillKeepsOwn(c, s, p, ch);
    HolderFrame(c, s, FillStep(s, p, s.procs[p], ch).value, p);
  }

  lemma PublishKeepsOwn(c: Config, s: State, p: Pid, ch: Choice)
    requires Inv(c, s) && p in s.procs && s.procs[p].Adder? && PublishStep(s, p, s.procs[p], ch).Some?
    ensures var s' := PublishStep(s, p, s.procs[p], ch).value; StageInv(c, s', p) && NamesInv(c, s')
  {
    assert StageInv(c, s, p);
  }

  lemma PublishKeepsInv(c: Config, s: State, p: Pid, ch: Choice)
    requires Inv(c, s) && p in s.procs && s.procs[p].Adder? && PublishStep(s, p, s.procs[p], ch).Some?
    ensures var s' := PublishStep(s, p, s.procs[p], ch).value; AddInv(c, s') && NamesInv(c, s')
  {
    PublishMoves(s, p, ch);
    PublishKeepsOwn(c, s, p, ch);
    HolderFrame(c, s, PublishStep(s, p, s.procs[p], ch).value, p);
  }

  lemma EraseStepKeepsInv(c: Config, s: State, p: Pid, ch: Choice)
    requires Inv(c, s) && p in s.procs && s.procs[p].Eraser? && EraseStep(c, s, p, s.procs[p], ch).Some?
    ensures var s' := EraseStep(c, s, p, s.procs[p], ch).value; AddInv(c, s') && NamesInv(c, s')
  {
    var a := s.procs[p];
    var s' := EraseStep(c, s, p, a, ch).value;
    EraseMoves(c, s, p, ch);
    if a.epc.RemoveShare? {
      HolderFrame(c, s, s', p);
    } else {
      if a.epc.Wipe? { SweepShrinks(s.repos, a.id, a.epc.sweep, ch); }
      OutsideFrame(c, s, s', p);
    }
  }

  lemma FaultStepKeepsInv(c: Config, s: State, p: Pid, ch: Choice)
    requires Inv(c, s) && Step(c, s, p, ch).Some? && (ch.Crash? || ch.Fail?)
    ensures var s' := Step(c, s, p, ch).value; AddInv(c, s') && NamesInv(c, s')
  {
    var s' := Step(c, s, p, ch).value;
    StepMoves(c, s, p, ch);
    assert s.procs[p].Adder? ==> StageInv(c, s, p);
    OutsideFrame(c, s, s', p);
  }

  lemma LabelStepKeepsInv(c: Config, s: State, p: Pid, ch: Choice)
    requires Inv(c, s) && p in s.procs && s.procs[p].Labeler? && LabelStep(s, p, s.procs[p], ch).Some?
    ensures var s' := LabelStep(s, p, s.procs[p], ch).value; AddInv(c, s') && NamesInv(c, s')
  {
    OutsideFrame(c, s, LabelStep(s, p, s.procs[p], ch).value, p);
  }

  lemma OpenOnlyReads(s: State, p: Pid, ch: Choice)
    requires p in s.procs && s.procs[p].Opener? && OpenStep(s, p, s.procs[p], ch).Some?
    ensures var s' := OpenStep(s, p, s.procs[p], ch).value;
            && p in s'.procs && s'.procs[p].Opener? && s' == s.(procs := s.procs[p := s'.procs[p]])
            && (s'.procs[p].opc.Reading? ==> exists id :: id in s.repos && s.repos[id].blob == Some(s'.procs[p].opc.fd))
  {
  }

  lemma OpenStepKeepsInv(c: Config, s: State, p: Pid, ch: Choice)
    requires Inv(c, s) && p in s.procs && s.procs[p].Opener? && OpenStep(s, p, s.procs[p], ch).Some?
    ensures var s' := OpenStep(s, p, s.procs[p], ch).value; AddInv(c, s') && NamesInv(c, s')
  {
    OpenOnlyReads(s, p, ch);
    OutsideFrame(c, s, OpenStep(s, p, s.procs[p], ch).value, p);
  }

  lemma StepKeepsInv(c: Config, s: State, p: Pid, ch: Choice)
    requires Inv(c, s) && Step(c, s, p, ch).Some?
    ensures Inv(c, Step(c, s, p, ch).value)
  {
    LockStep(c, s, p, ch);
    if ch.Start? {
      StartKeepsInv(c, s, p, ch);
    } else if ch.Crash? || ch.Fail? {
      FaultStepKeepsInv(c, s, p, ch);
    } else if s.procs[p].Labeler? {
      LabelStepKeepsInv(c, s, p, ch);
    } else if s.procs[p].Opener? {
      OpenStepKeepsInv(c, s, p, ch);
    } else if s.procs[p].Eraser? {
      EraseStepKeepsInv(c, s, p, ch);
    } else {
      AddKeepsInv(c, s, p, ch);
    }
  }

  lemma AddKeepsInv(c: Config, s: State, p: Pid, ch: Choice)
    requires Inv(c, s) && p in s.procs && s.procs[p].Adder? && AddStep(c, s, p, s.procs[p], ch).Some?
    ensures var s' := AddStep(c, s, p, s.procs[p], ch).value; AddInv(c, s') && NamesInv(c, s')
  {
    if FillsStage(s.procs[p].apc) {
      FillKeepsInv(c, s, p, ch);
    } else if Publishes(s.procs[p].apc) {
      PublishKeepsInv(c, s, p, ch);
    } else if s.procs[p].apc.Clear? {
      ClearKeepsInv(c, s, p, ch);
    } else {
      PlainKeepsInv(c, s, p, ch);
    }
  }

  lemma StartKeepsInv(c: Config, s: State, p: Pid, ch: Choice)
    requires Inv(c, s) && Step(c, s, p, ch).Some? && ch.Start?
    ensures var s' := Step(c, s, p, ch).value; AddInv(c, s') && NamesInv(c, s')
  {
    var s' := Step(c, s, p, ch).value;
    forall q | q in s'.procs && s'.procs[q].Adder? ensures StageInv(c, s', q) {
      if q != p { assert StageInv(c, s, q); }
    }
  }
}
