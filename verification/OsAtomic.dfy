/** When an Erase of a store runs at the same time as no other kind of call of that
    store on the digest, the file-system store acts at single steps like a map from
    stores to entries: each call has one step at which it reads or changes the map,
    and its answer is what the map says there. */
module OsAtomic {
  import opened Base
  import opened OsProtocol
  import opened OsInvariant
  import opened OsSafety
  import opened OsOutcomes
  import opened OsSchedule
  import StoreSpec

  // No unfinished Erase coexists with any other unfinished call but Erases of its store.
  ghost predicate Alone(s: State) {
    forall p, q {:trigger Running(s, p), Running(s, q)} ::
      Running(s, p) && s.procs[p].Eraser? && Running(s, q) && !s.procs[q].Eraser? ==> s.procs[p].id != s.procs[q].id
  }

  ghost predicate AloneRun(c: Config, t: seq<State>) {
    OrderlyRun(c, t) && forall k :: 0 <= k < |t| ==> Alone(t[k])
  }

  ghost predicate AloneReachable(c: Config, s: State) {
    exists t :: AloneRun(c, t) && t[|t| - 1] == s
  }

  // The entries, as callers see them.
  function View(s: State): map<StoreId, StoreSpec.Entry> {
    map id | id in s.repos && Whole(s.repos[id]) && s.repos[id].blob.value in s.files ::
      StoreSpec.Entry(s.files[s.repos[id].blob.value], s.repos[id].labels.value)
  }

  // ---- Readers ----

  ghost predicate ReaderSees(s: State, p: Pid)
    requires p in s.procs && s.procs[p].Opener?
  {
    s.procs[p].opc.OpenLabels? || s.procs[p].opc.OpenFile? ==> HasBlob(s, s.procs[p].id)
  }

  ghost predicate ReadersInv(s: State) {
    forall p {:trigger ReaderSees(s, p)} :: p in s.procs && s.procs[p].Opener? ==> ReaderSees(s, p)
  }

  lemma OwnReaderSees(s: State, p: Pid, ch: Choice)
    requires p in s.procs && s.procs[p].Opener? && ReaderSees(s, p) && OpenStep(s, p, s.procs[p], ch).Some?
    ensures var s' := OpenStep(s, p, s.procs[p], ch).value; p in s'.procs && s'.procs[p].Opener? && ReaderSees(s', p)
  {
  }

  lemma StepKeepsReaders(c: Config, s: State, p: Pid, ch: Choice)
    requires Reachable(c, s) && Inv(c, s) && Alone(s) && ReadersInv(s) && Step(c, s, p, ch).Some? && !ch.Crash? && !ch.Fail?
    ensures ReadersInv(Step(c, s, p, ch).value)
  {
    var s' := Step(c, s, p, ch).value;
    if !ch.Start? { StepMoves(c, s, p, ch); }
    forall q | q in s'.procs && s'.procs[q].Opener? ensures ReaderSees(s', q) {
      if q == p {
        if !ch.Start? && s.procs[p].Opener? {
          assert ReaderSees(s, p);
          OwnReaderSees(s, p, ch);
        } else if !ch.Start? {
          CallsKeepKind(c, s, p, ch);
        }
      } else {
        assert ReaderSees(s, q);
        if Running(s, q) && HasBlob(s, s.procs[q].id) {
          OnlyEraseUnlinks(c, s, p, ch, s.procs[q].id);
          assert p in s.procs && s.procs[p].Eraser? && s.procs[p].epc.Wipe? ==> Running(s, p);
        }
      }
    }
  }

  lemma CallsKeepKind(c: Config, s: State, p: Pid, ch: Choice)
    requires p in s.procs && !s.procs[p].Opener? && Step(c, s, p, ch).Some? && !ch.Start?
    ensures p in Step(c, s, p, ch).value.procs && !Step(c, s, p, ch).value.procs[p].Opener?
  {
    if s.procs[p].Adder? && !ch.Crash? && !ch.Fail? { AddStaysAdder(c, s, p, ch); }
    if s.procs[p].Eraser? && !ch.Crash? && !ch.Fail? { EraseKeepsStages(c, s, p, ch); }
  }

  lemma AddStaysAdder(c: Config, s: State, p: Pid, ch: Choice)
    requires p in s.procs && s.procs[p].Adder? && AddStep(c, s, p, s.procs[p], ch).Some?
    ensures var s' := AddStep(c, s, p, s.procs[p], ch).value; p in s'.procs && s'.procs[p].Adder?
  {
    if FillsStage(s.procs[p].apc) {
      FillStaysAdder(s, p, ch);
    } else if Publishes(s.procs[p].apc) {
      PublishStaysAdder(s, p, ch);
    } else if !s.procs[p].apc.Clear? {
      PlainAdvances(c, s, p, ch);
    }
  }

  lemma FillStaysAdder(s: State, p: Pid, ch: Choice)
    requires p in s.procs && s.procs[p].Adder? && FillStep(s, p, s.procs[p], ch).Some?
    ensures var s' := FillStep(s, p, s.procs[p], ch).value; p in s'.procs && s'.procs[p].Adder?
  {
  }

  lemma PublishStaysAdder(s: State, p: Pid, ch: Choice)
    requires p in s.procs && s.procs[p].Adder? && PublishStep(s, p, s.procs[p], ch).Some?
    ensures var s' := PublishStep(s, p, s.procs[p], ch).value; p in s'.procs && s'.procs[p].Adder?
  {
  }

  lemma {:induction false} AloneRunKeepsReaders(c: Config, t: seq<State>, k: nat)
    requires AloneRun(c, t) && k < |t|
    ensures ReadersInv(t[k]) && Reachable(c, t[k])
    decreases k
  {
    OrderlyRunStaysClean(c, t, k);
    if k == 0 {
      InitialReachable(c);
    } else {
      AloneRunKeepsReaders(c, t, k - 1);
      OrderlyRunStaysClean(c, t, k - 1);
      assert OrderlyNext(c, t[k - 1], t[k - 1 + 1]);
      var p, ch :| OrderlyStep(c, t[k - 1], t[k], p, ch);
      StepKeepsReaders(c, t[k - 1], p, ch);
      StepReachable(c, t[k - 1], p, ch);
    }
  }

  lemma AloneFacts(c: Config, s: State)
    requires AloneReachable(c, s)
    ensures Reachable(c, s) && Inv(c, s) && LabelsInv(s) && CleanInv(s) && Separate(s) && Alone(s) && ReadersInv(s)
  {
    var t :| AloneRun(c, t) && t[|t| - 1] == s;
    OrderlyRunStaysClean(c, t, |t| - 1);
    AloneRunKeepsReaders(c, t, |t| - 1);
  }

  // ---- The map at each step ----

  // A reader finds a whole entry.
  lemma ReaderSeesWhole(c: Config, s: State, p: Pid)
    requires Inv(c, s) && CleanInv(s) && Alone(s) && ReadersInv(s) && Running(s, p) && s.procs[p].Opener? && HasBlob(s, s.procs[p].id)
    ensures s.procs[p].id in View(s) && s.repos[s.procs[p].id].labels == Some(View(s)[s.procs[p].id].labels)
  {
    var id := s.procs[p].id;
    assert WholeOrWiped(s, id);
    if !Whole(s.repos[id]) {
      var e :| Wiping(s, e, id);
      assert Running(s, e);
    }
  }

  lemma SameFilesSameView(s: State, s': State)
    requires s'.repos == s.repos && forall id :: HasBlob(s, id) && s.repos[id].blob.value in s.files ==>
               s.repos[id].blob.value in s'.files && s'.files[s.repos[id].blob.value] == s.files[s.repos[id].blob.value]
    requires forall id :: HasBlob(s, id) ==> s.repos[id].blob.value in s.files
    ensures View(s') == View(s)
  {
  }

  // Add changes the map exactly when it decides Ok, and answers by it.
  lemma AddActsOnTheMap(c: Config, s: State, p: Pid, ch: Choice)
    requires Injective(c.hash) && AloneReachable(c, s) && Running(s, p) && s.procs[p].Adder?
    requires Step(c, s, p, ch).Some? && !ch.Start? && !ch.Crash? && !ch.Fail?
    ensures var a := s.procs[p]; var s' := Step(c, s, p, ch).value;
            if Decides(c, s, p, ch, Ok) then a.id !in View(s) && View(s') == View(s)[a.id := StoreSpec.Entry(a.content, a.labels)]
            else View(s') == View(s) && (Decides(c, s, p, ch, AlreadyExists) ==> a.id in View(s))
    // At both checks it says AlreadyExists exactly if the map has the entry.
    ensures s.procs[p].apc.PreCheck? || s.procs[p].apc.Recheck? ==>
              (Decides(c, s, p, ch, AlreadyExists) <==> s.procs[p].id in View(s))
  {
    AloneFacts(c, s);
    var a := s.procs[p];
    assert StageInv(c, s, p) && OnCourse(s, a) && OwnLabels(s, p);
    RunningSeesWhole(s, p);
    AddStaysAdder(c, s, p, ch);
    if a.apc.PreCheck? || a.apc.Recheck? { ChecksByTheMap(c, s, p, ch); }
    if a.apc.Rename? {
      CommitShows(c, s, p, ch);
    } else {
      OtherAddStepsKeepView(c, s, p, ch);
    }
  }

  lemma ChecksByTheMap(c: Config, s: State, p: Pid, ch: Choice)
    requires Inv(c, s) && p in s.procs && s.procs[p].Adder? && (s.procs[p].apc.PreCheck? || s.procs[p].apc.Recheck?)
    requires s.procs[p].id in s.repos ==> Whole(s.repos[s.procs[p].id])
    requires PlainStep(c, s, p, s.procs[p], ch).Some?
    ensures Decided(s.procs[p]).None?
    ensures var s' := PlainStep(c, s, p, s.procs[p], ch).value;
            p in s'.procs && (Decided(s'.procs[p]) == Some(AlreadyExists) <==> s.procs[p].id in View(s))
  {
  }

  lemma CommitShows(c: Config, s: State, p: Pid, ch: Choice)
    requires Injective(c.hash) && Inv(c, s) && p in s.procs && s.procs[p].Adder? && s.procs[p].apc == Rename(0)
    requires StageInv(c, s, p) && OwnLabels(s, p) && (s.procs[p].id in s.repos ==> Whole(s.repos[s.procs[p].id]))
    requires PublishStep(s, p, s.procs[p], ch).Some?
    ensures var a := s.procs[p]; var s' := PublishStep(s, p, a, ch).value;
            && p in s'.procs && s'.procs[p] == a.(apc := Unlock(Ok))
            && a.id !in View(s) && View(s') == View(s)[a.id := StoreSpec.Entry(a.content, a.labels)]
  {
    var a := s.procs[p];
    assert a.id !in s.repos;
    assert s.files[s.stages[p].blob.value] == a.content;
  }

  lemma OtherAddStepsKeepView(c: Config, s: State, p: Pid, ch: Choice)
    requires Inv(c, s) && p in s.procs && s.procs[p].Adder? && OnCourse(s, s.procs[p]) && !s.procs[p].apc.Rename?
    requires AddStep(c, s, p, s.procs[p], ch).Some? && StageInv(c, s, p)
    requires s.procs[p].id in s.repos ==> Whole(s.repos[s.procs[p].id])
    ensures View(AddStep(c, s, p, s.procs[p], ch).value) == View(s)
    ensures !Decides(c, s, p, ch, Ok) && (Decides(c, s, p, ch, AlreadyExists) ==> s.procs[p].id in View(s))
  {
    var a := s.procs[p];
    var s' := AddStep(c, s, p, a, ch).value;
    if FillsStage(a.apc) {
      FillKeepsFiles(c, s, p, ch);
      FillDecidesNothing(s, p, ch);
    } else if Publishes(a.apc) {
      LinkStaysOnCourse(c, s, p, ch);
      LinkDecidesNothing(s, p, ch);
    } else {
      PlainStaysOnCourse(c, s, p, ch);
      PlainKeepsOwn(c, s, p, ch);
      PlainDecidesByTheMap(c, s, p, ch);
    }
    SameFilesSameView(s, s');
  }

  lemma FillKeepsFiles(c: Config, s: State, p: Pid, ch: Choice)
    requires Inv(c, s) && p in s.procs && s.procs[p].Adder? && OnCourse(s, s.procs[p]) && FillsStage(s.procs[p].apc)
    requires FillStep(s, p, s.procs[p], ch).Some? && StageInv(c, s, p)
    ensures var s' := FillStep(s, p, s.procs[p], ch).value;
            && s'.repos == s.repos
            && forall id :: HasBlob(s, id) ==>
                 s.repos[id].blob.value in s'.files && s'.files[s.repos[id].blob.value] == s.files[s.repos[id].blob.value]
  {
    var s' := FillStep(s, p, s.procs[p], ch).value;
    FillStaysOnCourse(c, s, p, ch);
    forall id | HasBlob(s, id) ensures s.repos[id].blob.value in s'.files && s'.files[s.repos[id].blob.value] == s.files[s.repos[id].blob.value] {
      FillKeepsFile(c, s, p, ch, s.repos[id].blob.value);
    }
  }

  lemma FillDecidesNothing(s: State, p: Pid, ch: Choice)
    requires p in s.procs && s.procs[p].Adder? && FillsStage(s.procs[p].apc) && FillStep(s, p, s.procs[p], ch).Some?
    ensures var s' := FillStep(s, p, s.procs[p], ch).value;
            p in s'.procs && (Decided(s.procs[p]).None? ==> Decided(s'.procs[p]).None? || Decided(s'.procs[p]) == Some(OtherError))
  {
  }

  lemma LinkDecidesNothing(s: State, p: Pid, ch: Choice)
    requires p in s.procs && s.procs[p].Adder? && s.procs[p].apc.LinkTo? && PublishStep(s, p, s.procs[p], ch).Some?
    ensures var s' := PublishStep(s, p, s.procs[p], ch).value;
            p in s'.procs && (Decided(s'.procs[p]).None? || Decided(s'.procs[p]) == Some(OtherError)) && s'.files == s.files
  {
  }

  lemma PlainDecidesByTheMap(c: Config, s: State, p: Pid, ch: Choice)
    requires p in s.procs && s.procs[p].Adder? && PlainStep(c, s, p, s.procs[p], ch).Some?
    requires Inv(c, s) && (s.procs[p].id in s.repos ==> Whole(s.repos[s.procs[p].id]))
    ensures var s' := PlainStep(c, s, p, s.procs[p], ch).value;
            p in s'.procs && (Decided(s.procs[p]).None? && Decided(s'.procs[p]).Some? ==>
              Decided(s'.procs[p]) != Some(Ok) && (Decided(s'.procs[p]) == Some(AlreadyExists) ==> s.procs[p].id in View(s)))
  {
  }

  // Label changes the map exactly when it decides Ok, and answers by it.
  lemma LabelActsOnTheMap(c: Config, s: State, p: Pid, ch: Choice)
    requires AloneReachable(c, s) && Running(s, p) && s.procs[p].Labeler?
    requires Step(c, s, p, ch).Some? && !ch.Start? && !ch.Crash? && !ch.Fail?
    ensures var a := s.procs[p]; var s' := Step(c, s, p, ch).value;
            if Decides(c, s, p, ch, Ok) then a.id in View(s) && View(s') == View(s)[a.id := View(s)[a.id].(labels := a.labels)]
            else View(s') == View(s) && (Decides(c, s, p, ch, NotExist) ==> a.id !in View(s))
    // At its stat it says NotExist exactly if the map has no entry.
    ensures s.procs[p].lpc.LabelStat? ==> (Decides(c, s, p, ch, NotExist) <==> s.procs[p].id !in View(s))
  {
    AloneFacts(c, s);
    assert OnCourse(s, s.procs[p]);
    RunningSeesWhole(s, p);
    LabelShows(s, p, ch);
  }

  lemma LabelShows(s: State, p: Pid, ch: Choice)
    requires p in s.procs && s.procs[p].Labeler? && OnCourse(s, s.procs[p]) && LabelStep(s, p, s.procs[p], ch).Some?
    requires s.procs[p].id in s.repos ==> Whole(s.repos[s.procs[p].id]) && s.repos[s.procs[p].id].blob.value in s.files
    ensures var a := s.procs[p]; var s' := LabelStep(s, p, a, ch).value; var pc := s'.procs[p].lpc;
            && (pc == LabelDone(Ok) ==> a.id in View(s) && View(s') == View(s)[a.id := View(s)[a.id].(labels := a.labels)])
            && (pc != LabelDone(Ok) ==> View(s') == View(s))
            && (pc == LabelDone(NotExist) ==> a.id !in View(s))
  {
  }

  // Get and Open change nothing. At their stat they say NotExist exactly if the map has no
  // entry; they take the labels of the entry in the map, and Open then hands out its content.
  lemma ReadsAreOfTheMap(c: Config, s: State, p: Pid, ch: Choice)
    requires AloneReachable(c, s) && Running(s, p) && s.procs[p].Opener?
    requires Step(c, s, p, ch).Some? && !ch.Start? && !ch.Crash? && !ch.Fail?
    ensures var a := s.procs[p]; var s' := Step(c, s, p, ch).value; var pc := s'.procs[p].opc;
            && View(s') == View(s)
            && (a.opc.OpenStat? ==> pc == if a.id in View(s) then OpenLabels else OpenDone(NotExist, map[]))
            && (a.opc.OpenLabels? ==> a.id in View(s) && (pc.OpenFile? || pc == OpenDone(Ok, pc.labels)) && pc.labels == View(s)[a.id].labels)
            && (a.opc.OpenFile? ==> a.id in View(s) && pc.Reading? && pc.labels == a.opc.labels
                                    && pc.fd in s.files && s.files[pc.fd] == View(s)[a.id].content)
            && (pc.OpenDone? && pc.res == NotExist ==> a.id !in View(s))
  {
    AloneFacts(c, s);
    assert ReaderSees(s, p);
    var a := s.procs[p];
    if HasBlob(s, a.id) { ReaderSeesWhole(c, s, p); }
  }

  // An Erase takes its own entry out of the map in one step, and decides when it is out.
  lemma EraseActsOnTheMap(c: Config, s: State, p: Pid, ch: Choice)
    requires AloneReachable(c, s) && Running(s, p) && s.procs[p].Eraser?
    requires Step(c, s, p, ch).Some? && !ch.Start? && !ch.Crash? && !ch.Fail?
    ensures var a := s.procs[p]; var s' := Step(c, s, p, ch).value;
            && (View(s') == View(s) || (a.epc.Wipe? && View(s') == View(s) - {a.id}))
            && (Decides(c, s, p, ch, Ok) ==> a.id !in View(s'))
  {
    AloneFacts(c, s);
    var a := s.procs[p];
    assert OnCourse(s, a);
    EraseKeepsStages(c, s, p, ch);
    if a.epc.Wipe? {
      SweepShrinks(s.repos, a.id, a.epc.sweep, ch);
      SweepShrinksDir(s.repos, a.id, a.epc.sweep, ch);
      SweepShows(c, s, p, ch);
      EraseDecides(c, s, p, ch);
    } else {
      CleanupChangesNoRepo(c, s, p, ch);
      CleanupKeepsFiles(c, s, p, ch);
    }
  }

  lemma SweepShrinksDir(repos: map<StoreId, Dir>, id: StoreId, sw: Sweep, ch: Choice)
    ensures var o := SweepStep(repos, id, sw, ch);
            o.SwNext? || o.SwFinished? ==> (id in o.repos ==> id in repos && (o.repos[id] == repos[id] || !Whole(o.repos[id])))
  {
  }

  lemma SweepShows(c: Config, s: State, p: Pid, ch: Choice)
    requires Inv(c, s) && p in s.procs && s.procs[p].Eraser? && s.procs[p].epc.Wipe? && EraseStep(c, s, p, s.procs[p], ch).Some?
    ensures var id := s.procs[p].id; var s' := EraseStep(c, s, p, s.procs[p], ch).value;
            View(s') == View(s) || View(s') == View(s) - {id}
  {
    var a := s.procs[p];
    SweepShrinks(s.repos, a.id, a.epc.sweep, ch);
    SweepShrinksDir(s.repos, a.id, a.epc.sweep, ch);
    EraseKeepsOthers(c, s, p, ch);
    OneDirShows(s, EraseStep(c, s, p, a, ch).value, a.id);
  }

  lemma OneDirShows(s: State, s': State, id: StoreId)
    requires s'.files == s.files
    requires forall x :: x != id ==> (x in s'.repos <==> x in s.repos) && (x in s.repos ==> s'.repos[x] == s.repos[x])
    requires id in s'.repos ==> id in s.repos && (s'.repos[id] == s.repos[id] || !Whole(s'.repos[id]))
    ensures View(s') == View(s) || View(s') == View(s) - {id}
  {
  }

  lemma EraseKeepsOthers(c: Config, s: State, p: Pid, ch: Choice)
    requires p in s.procs && s.procs[p].Eraser? && s.procs[p].epc.Wipe? && EraseStep(c, s, p, s.procs[p], ch).Some?
    ensures var id := s.procs[p].id; var s' := EraseStep(c, s, p, s.procs[p], ch).value; var o := SweepStep(s.repos, id, s.procs[p].epc.sweep, ch);
            && s'.files == s.files
            && s'.repos == match o { case SwNext(r, _) => r case SwFinished(r) => r case _ => s.repos }
  {
  }

  lemma CleanupKeepsFiles(c: Config, s: State, p: Pid, ch: Choice)
    requires p in s.procs && s.procs[p].Eraser? && !s.procs[p].epc.Wipe? && EraseStep(c, s, p, s.procs[p], ch).Some?
    ensures var s' := EraseStep(c, s, p, s.procs[p], ch).value;
            s'.files == s.files && p in s'.procs && (Decided(s.procs[p]).None? ==> Decided(s'.procs[p]).None?)
  {
  }
}
