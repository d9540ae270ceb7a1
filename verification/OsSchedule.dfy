/** When the file-system store leaks nothing and refuses nothing: in every run without
    crashes and I/O errors in which no Add or Label of a store runs at the same time
    as an Erase of that store, on one digest. Calls of different stores, Adds with
    Adds and Labels, and Erases with Erases may race as they like. OsWitness has the
    two runs that break this condition. */
module OsSchedule {
  import opened Base
  import opened OsProtocol
  import opened OsInvariant
  import opened OsSafety
  import opened OsOutcomes
  import opened OsRefcount

  // ---- The schedules ----

  predicate Running(s: State, p: Pid) {
    p in s.procs && !Finished(s.procs[p])
  }

  // No unfinished Erase coexists with an unfinished Add or Label of its store.
  ghost predicate Separate(s: State) {
    forall p, q {:trigger Running(s, p), Running(s, q)} ::
      Running(s, p) && s.procs[p].Eraser? && Running(s, q) && (s.procs[q].Adder? || s.procs[q].Labeler?) ==>
        s.procs[p].id != s.procs[q].id
  }

  ghost predicate OrderlyStep(c: Config, s: State, s': State, p: Pid, ch: Choice) {
    !ch.Crash? && !ch.Fail? && Step(c, s, p, ch) == Some(s') && Separate(s')
  }

  ghost predicate OrderlyNext(c: Config, s: State, s': State) {
    exists p, ch :: OrderlyStep(c, s, s', p, ch)
  }

  ghost predicate OrderlyRun(c: Config, t: seq<State>) {
    |t| > 0 && t[0] == INITIAL && forall k :: 0 <= k < |t| - 1 ==> OrderlyNext(c, t[k], t[k + 1])
  }

  ghost predicate OrderlyReachable(c: Config, s: State) {
    exists t :: OrderlyRun(c, t) && t[|t| - 1] == s
  }

  // ---- What they keep ----

  predicate Wiping(s: State, p: Pid, id: StoreId) {
    p in s.procs && s.procs[p].Eraser? && s.procs[p].epc.Wipe? && s.procs[p].id == id
  }

  predicate Whole(d: Dir) {
    d.blob.Some? && d.labels.Some?
  }

  // A directory that lacks something is being erased.
  ghost predicate WholeOrWiped(s: State, id: StoreId)
    requires id in s.repos
  {
    Whole(s.repos[id]) || exists p :: Wiping(s, p, id)
  }

  // A sweep has listed every name that is still there.
  predicate Covers(repos: map<StoreId, Dir>, id: StoreId, sw: Sweep) {
    id in repos ==>
      match sw {
        case SwOpen => true
        case SwList(dir) => repos[id].owner == dir
        case SwUnlink(dir, names) => repos[id].owner == dir && repos[id].Names() <= names
        case SwRmdir => repos[id].Names() == {}
      }
  }

  // The call is on no failing path.
  predicate OnCourse(s: State, a: Proc) {
    match a
    case Adder(_, _, _, pc) =>
      && !pc.StatRepo? && !pc.Clear? && !pc.Discard? && !pc.AddCrashed? && (pc.Rename? ==> pc.attempt == 0)
      && (pc.Unlock? ==> pc.out == Ok || pc.out == AlreadyExists)
      && (pc.AddDone? ==> pc.res == Ok || pc.res == AlreadyExists || pc.res == DigestMismatch)
    case Eraser(id, pc) => (pc.Wipe? ==> Covers(s.repos, id, pc.sweep)) && (pc.EraseDone? ==> pc.res == Ok) && !pc.EraseCrashed?
    case Labeler(id, _, pc) => (pc.LabelRename? ==> HasBlob(s, id)) && (pc.LabelDone? ==> pc.res == Ok || pc.res == NotExist)
    case Opener(_, _, _) => true
  }

  ghost predicate CleanInv(s: State) {
    && s.faults == {}
    && (forall id {:trigger WholeOrWiped(s, id)} :: id in s.repos ==> WholeOrWiped(s, id))
    && (forall p {:trigger OnCourse(s, s.procs[p])} :: p in s.procs ==> OnCourse(s, s.procs[p]))
  }

  // An Add or Label that is running sees no incomplete directory.
  lemma RunningSeesWhole(s: State, p: Pid)
    requires Separate(s) && CleanInv(s) && Running(s, p) && (s.procs[p].Adder? || s.procs[p].Labeler?)
    ensures s.procs[p].id in s.repos ==> Whole(s.repos[s.procs[p].id])
  {
    var id := s.procs[p].id;
    if id in s.repos && !Whole(s.repos[id]) {
      assert WholeOrWiped(s, id);
      var e :| Wiping(s, e, id);
      assert Running(s, e);
    }
  }

  // ---- Steps that change no directory ----

  ghost predicate SameRepos(s: State, s': State, p: Pid) {
    && s'.repos == s.repos && s'.faults == s.faults && p in s'.procs && s'.procs == s.procs[p := s'.procs[p]]
    && (p in s.procs && s.procs[p].Eraser? && s.procs[p].epc.Wipe? ==>
          Wiping(s', p, s.procs[p].id) || s.procs[p].id !in s.repos)
  }

  lemma SameReposStaysClean(s: State, s': State, p: Pid)
    requires CleanInv(s) && SameRepos(s, s', p) && OnCourse(s', s'.procs[p])
    ensures CleanInv(s')
  {
    forall id | id in s'.repos ensures WholeOrWiped(s', id) {
      assert WholeOrWiped(s, id);
      if !Whole(s.repos[id]) {
        var e :| Wiping(s, e, id);
        assert Wiping(s', e, id);
      }
    }
    forall q | q in s'.procs ensures OnCourse(s', s'.procs[q]) {
      if q != p { assert OnCourse(s, s.procs[q]); }
    }
  }

  lemma StartStaysClean(c: Config, s: State, p: Pid, ch: Choice)
    requires CleanInv(s) && ch.Start? && Step(c, s, p, ch).Some?
    ensures CleanInv(Step(c, s, p, ch).value)
  {
    SameReposStaysClean(s, Step(c, s, p, ch).value, p);
  }

  // ---- Add ----

  lemma FillStaysOnCourse(c: Config, s: State, p: Pid, ch: Choice)
    requires p in s.procs && s.procs[p].Adder? && OnCourse(s, s.procs[p]) && StageInv(c, s, p)
    requires FillsStage(s.procs[p].apc) && FillStep(s, p, s.procs[p], ch).Some?
    ensures var s' := FillStep(s, p, s.procs[p], ch).value; SameRepos(s, s', p) && OnCourse(s', s'.procs[p])
  {
  }

  lemma PlainStaysOnCourse(c: Config, s: State, p: Pid, ch: Choice)
    requires p in s.procs && s.procs[p].Adder? && OnCourse(s, s.procs[p])
    requires PlainStep(c, s, p, s.procs[p], ch).Some?
    ensures var s' := PlainStep(c, s, p, s.procs[p], ch).value; SameRepos(s, s', p) && OnCourse(s', s'.procs[p])
  {
  }

  lemma LinkStaysOnCourse(c: Config, s: State, p: Pid, ch: Choice)
    requires p in s.procs && s.procs[p].Adder? && OnCourse(s, s.procs[p]) && StageInv(c, s, p)
    requires s.procs[p].apc.LinkTo? && PublishStep(s, p, s.procs[p], ch).Some?
    ensures var s' := PublishStep(s, p, s.procs[p], ch).value; SameRepos(s, s', p) && OnCourse(s', s'.procs[p])
  {
  }

  // The path is free, so the first rename succeeds.
  lemma RenameStaysClean(c: Config, s: State, p: Pid, ch: Choice)
    requires Separate(s) && CleanInv(s) && p in s.procs && s.procs[p].Adder? && s.procs[p].apc.Rename?
    requires StageInv(c, s, p) && OwnLabels(s, p) && PublishStep(s, p, s.procs[p], ch).Some?
    ensures CleanInv(PublishStep(s, p, s.procs[p], ch).value)
  {
    var a := s.procs[p];
    var s' := PublishStep(s, p, a, ch).value;
    assert OnCourse(s, a) && Running(s, p);
    RunningSeesWhole(s, p);
    assert a.id !in s.repos;
    forall id | id in s'.repos ensures WholeOrWiped(s', id) {
      if id != a.id {
        assert WholeOrWiped(s, id);
        if !Whole(s.repos[id]) {
          var e :| Wiping(s, e, id);
          assert Wiping(s', e, id);
        }
      }
    }
    forall q | q in s'.procs ensures OnCourse(s', s'.procs[q]) {
      if q != p {
        assert OnCourse(s, s.procs[q]);
        if s.procs[q].Eraser? && s.procs[q].epc.Wipe? { assert Running(s, q); }
      }
    }
  }

  lemma AddStaysClean(c: Config, s: State, p: Pid, ch: Choice)
    requires Inv(c, s) && LabelsInv(s) && Separate(s) && CleanInv(s)
    requires p in s.procs && s.procs[p].Adder? && !Finished(s.procs[p]) && AddStep(c, s, p, s.procs[p], ch).Some?
    ensures CleanInv(AddStep(c, s, p, s.procs[p], ch).value)
  {
    var a := s.procs[p];
    assert StageInv(c, s, p) && OwnLabels(s, p) && OnCourse(s, a);
    var s' := AddStep(c, s, p, a, ch).value;
    if a.apc.Rename? {
      RenameStaysClean(c, s, p, ch);
    } else {
      if FillsStage(a.apc) {
        FillStaysOnCourse(c, s, p, ch);
      } else if Publishes(a.apc) {
        LinkStaysOnCourse(c, s, p, ch);
      } else {
        PlainStaysOnCourse(c, s, p, ch);
      }
      SameReposStaysClean(s, s', p);
    }
  }

  // ---- Erase ----

  // What a step of a sweep that covers its directory does.
  ghost predicate Swept(repos: map<StoreId, Dir>, repos': map<StoreId, Dir>, id: StoreId) {
    && (forall x :: x != id ==> (x in repos' <==> x in repos) && (x in repos ==> repos'[x] == repos[x]))
    && (id in repos' ==> id in repos && repos'[id].owner == repos[id].owner && repos'[id].Names() <= repos[id].Names())
  }

  lemma SweepStaysCovered(repos: map<StoreId, Dir>, id: StoreId, sw: Sweep, ch: Choice)
    requires Covers(repos, id, sw)
    ensures match SweepStep(repos, id, sw, ch) {
              case SwNext(repos', sw') => Covers(repos', id, sw') && Swept(repos, repos', id)
              case SwFinished(repos') => id !in repos' && Swept(repos, repos', id)
              case SwNotEmpty => false
              case SwDisabled => true
            }
  {
  }

  lemma SweptStaysCovered(repos: map<StoreId, Dir>, repos': map<StoreId, Dir>, id: StoreId, x: StoreId, sw: Sweep)
    requires Swept(repos, repos', id) && Covers(repos, x, sw)
    ensures Covers(repos', x, sw)
  {
  }

  lemma WipeStaysClean(c: Config, s: State, p: Pid, ch: Choice)
    requires Separate(s) && CleanInv(s) && p in s.procs && s.procs[p].Eraser? && s.procs[p].epc.Wipe?
    requires EraseStep(c, s, p, s.procs[p], ch).Some?
    ensures CleanInv(EraseStep(c, s, p, s.procs[p], ch).value)
  {
    var a := s.procs[p];
    assert OnCourse(s, a) && Running(s, p);
    SweepStaysCovered(s.repos, a.id, a.epc.sweep, ch);
    var s' := EraseStep(c, s, p, a, ch).value;
    EraseMoves(c, s, p, ch);
    forall id | id in s'.repos ensures WholeOrWiped(s', id) {
      assert WholeOrWiped(s, id);
      if id == a.id {
        assert Wiping(s', p, id);
      } else if !Whole(s.repos[id]) {
        var e :| Wiping(s, e, id);
        assert Wiping(s', e, id);
      }
    }
    forall q | q in s'.procs ensures OnCourse(s', s'.procs[q]) {
      if q != p {
        assert OnCourse(s, s.procs[q]);
        OthersStayOnCourse(s, s', p, q);
      }
    }
  }

  lemma OthersStayOnCourse(s: State, s': State, p: Pid, q: Pid)
    requires Separate(s) && Running(s, p) && s.procs[p].Eraser? && Swept(s.repos, s'.repos, s.procs[p].id)
    requires q in s.procs && OnCourse(s, s.procs[q])
    ensures OnCourse(s', s.procs[q])
  {
    var a := s.procs[q];
    if a.Eraser? && a.epc.Wipe? { SweptStaysCovered(s.repos, s'.repos, s.procs[p].id, a.id, a.epc.sweep); }
    if a.Labeler? && a.lpc.LabelRename? { assert Running(s, q); }
  }

  lemma EraseStaysClean(c: Config, s: State, p: Pid, ch: Choice)
    requires Separate(s) && CleanInv(s) && p in s.procs && s.procs[p].Eraser? && EraseStep(c, s, p, s.procs[p], ch).Some?
    ensures CleanInv(EraseStep(c, s, p, s.procs[p], ch).value)
  {
    assert OnCourse(s, s.procs[p]);
    if s.procs[p].epc.Wipe? {
      WipeStaysClean(c, s, p, ch);
    } else {
      CleanupChangesNoRepo(c, s, p, ch);
      SameReposStaysClean(s, EraseStep(c, s, p, s.procs[p], ch).value, p);
    }
  }

  lemma CleanupChangesNoRepo(c: Config, s: State, p: Pid, ch: Choice)
    requires p in s.procs && s.procs[p].Eraser? && !s.procs[p].epc.Wipe? && EraseStep(c, s, p, s.procs[p], ch).Some?
    requires OnCourse(s, s.procs[p])
    ensures var s' := EraseStep(c, s, p, s.procs[p], ch).value; SameRepos(s, s', p) && OnCourse(s', s'.procs[p])
  {
  }

  // ---- Label and Open ----

  lemma LabelStaysClean(s: State, p: Pid, ch: Choice)
    requires Separate(s) && CleanInv(s) && p in s.procs && s.procs[p].Labeler? && LabelStep(s, p, s.procs[p], ch).Some?
    ensures CleanInv(LabelStep(s, p, s.procs[p], ch).value)
  {
    var a := s.procs[p];
    var s' := LabelStep(s, p, a, ch).value;
    assert OnCourse(s, a) && Running(s, p);
    RunningSeesWhole(s, p);
    forall id | id in s'.repos ensures WholeOrWiped(s', id) {
      assert WholeOrWiped(s, id);
      if !Whole(s.repos[id]) {
        var e :| Wiping(s, e, id);
        assert Wiping(s', e, id);
      }
    }
    forall q | q in s'.procs ensures OnCourse(s', s'.procs[q]) {
      if q != p {
        assert OnCourse(s, s.procs[q]);
        if s.procs[q].Eraser? && s.procs[q].epc.Wipe? { assert Running(s, q); }
      }
    }
  }

  lemma OpenStaysClean(s: State, p: Pid, ch: Choice)
    requires CleanInv(s) && p in s.procs && s.procs[p].Opener? && OpenStep(s, p, s.procs[p], ch).Some?
    ensures CleanInv(OpenStep(s, p, s.procs[p], ch).value)
  {
    SameReposStaysClean(s, OpenStep(s, p, s.procs[p], ch).value, p);
  }

  lemma StepStaysClean(c: Config, s: State, p: Pid, ch: Choice)
    requires Inv(c, s) && LabelsInv(s) && Separate(s) && CleanInv(s) && Step(c, s, p, ch).Some? && !ch.Crash? && !ch.Fail?
    ensures CleanInv(Step(c, s, p, ch).value)
  {
    if ch.Start? {
      StartStaysClean(c, s, p, ch);
    } else {
      match s.procs[p]
      case Adder(_, _, _, _) => AddStaysClean(c, s, p, ch);
      case Eraser(_, _) => EraseStaysClean(c, s, p, ch);
      case Labeler(_, _, _) => LabelStaysClean(s, p, ch);
      case Opener(_, _, _) => OpenStaysClean(s, p, ch);
    }
  }

  // ---- Runs ----

  lemma OrderlyIsRun(c: Config, t: seq<State>)
    requires OrderlyRun(c, t)
    ensures Run(c, t)
  {
    forall k | 0 <= k < |t| - 1 ensures Next(c, t[k], t[k + 1]) {
      assert OrderlyNext(c, t[k], t[k + 1]);
      var p, ch :| OrderlyStep(c, t[k], t[k + 1], p, ch);
    }
  }

  lemma {:induction false} OrderlyRunStaysClean(c: Config, t: seq<State>, k: nat)
    requires OrderlyRun(c, t) && k < |t|
    ensures Inv(c, t[k]) && LabelsInv(t[k]) && Separate(t[k]) && CleanInv(t[k])
    decreases k
  {
    OrderlyIsRun(c, t);
    RunKeepsInv(c, t, k);
    RunKeepsLabels(c, t, k);
    if k > 0 {
      OrderlyRunStaysClean(c, t, k - 1);
      assert OrderlyNext(c, t[k - 1], t[k - 1 + 1]);
      var p, ch :| OrderlyStep(c, t[k - 1], t[k], p, ch);
      StepStaysClean(c, t[k - 1], p, ch);
    }
  }

  // ---- Main results ----

  // An orderly schedule keeps every call off its failing exits.
  lemma OrderlyRunsAreClean(c: Config, s: State)
    requires OrderlyReachable(c, s)
    ensures Reachable(c, s) && CleanInv(s) && Separate(s) && Inv(c, s) && LabelsInv(s)
  {
    var t :| OrderlyRun(c, t) && t[|t| - 1] == s;
    OrderlyIsRun(c, t);
    OrderlyRunStaysClean(c, t, |t| - 1);
  }

  // So every Erase succeeds, and every Add unless the entry is there or the content
  // is not the one named; no Add needs a second rename.
  lemma OrderlyCallsSucceed(c: Config, s: State, p: Pid)
    requires OrderlyReachable(c, s) && p in s.procs
    ensures var a := s.procs[p];
            && (a.Eraser? && Finished(a) ==> a.epc == EraseDone(Ok))
            && (a.Adder? && Finished(a) ==> a.apc.AddDone? && (a.apc.res == Ok || a.apc.res == AlreadyExists || a.apc.res == DigestMismatch))
            && (a.Adder? && a.apc.Rename? ==> a.apc.attempt == 0 && a.id !in s.repos)
  {
    OrderlyRunsAreClean(c, s);
    assert OnCourse(s, s.procs[p]);
    if s.procs[p].Adder? && s.procs[p].apc.Rename? {
      assert StageInv(c, s, p) && Running(s, p);
      RunningSeesWhole(s, p);
    }
  }

  // And when all calls have returned, the shared blob exists exactly if some store has
  // it, every directory is a whole entry, and nothing is left in stage/.
  lemma OrderlyNoLeak(c: Config, s: State)
    requires c.exact && OrderlyReachable(c, s) && forall p :: p in s.procs ==> Finished(s.procs[p])
    ensures s.share.Some? <==> exists id :: HasBlob(s, id)
    ensures s.stages == map[] && forall id :: id in s.repos ==> Whole(s.repos[id])
  {
    OrderlyRunsAreClean(c, s);
    NoLeak(c, s);
    forall id | id in s.repos ensures Whole(s.repos[id]) {
      assert WholeOrWiped(s, id);
    }
  }

  // Meanwhile, a shared blob that nobody links to has an Erase on its way to it.
  lemma OrderlyOrphanHasCleaner(c: Config, s: State)
    requires c.exact && OrderlyReachable(c, s) && s.share.Some? && LinkCount(s, s.share.value) == 1
    ensures exists e :: e in s.procs && Cleaning(s.procs[e])
  {
    OrderlyRunsAreClean(c, s);
    OrphanHasCleaner(c, s);
  }
}
