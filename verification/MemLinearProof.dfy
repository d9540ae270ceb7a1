/** The proof that every run of the in-memory protocol has an explaining log. */
module MemLinearProof {
  import opened Base
  import opened MemProtocol
  import opened MemInvariant
  import opened MemSteps
  import opened MemSafety
  import opened MemLinear

  function ItemOf(g: Shared, e: EntryId): Item
    requires e in g.entries && g.entries[e].blob in g.blobs
  {
    Item(g.blobs[g.entries[e].blob].data, g.entries[e].labels)
  }

  ghost predicate IsCut(log: seq<Event>, k: nat, e: EntryId) {
    k < |log| && log[k].cut == Some(e)
  }

  // The Erase at position k detached entry e, which until then looked as it does now.
  ghost predicate CutOk(c: Config, s: State, log: seq<Event>, k: nat, e: EntryId) {
    && e in s.g.entries && s.g.entries[e].blob in s.g.blobs && e in s.procs
    && !Live(s.g, s.procs[e].id, e)
    && k < |log| && log[k].op == OpErase(s.procs[e].id)
    && s.procs[e].id in Replay(c, log[..k]) && Replay(c, log[..k])[s.procs[e].id] == ItemOf(s.g, e)
  }

  ghost predicate CutInv(c: Config, s: State, log: seq<Event>) {
    && (forall k: nat, e {:trigger IsCut(log, k, e)} :: IsCut(log, k, e) ==> CutOk(c, s, log, k, e))
    && (forall k: nat, k': nat, e {:trigger IsCut(log, k, e), IsCut(log, k', e)} :: IsCut(log, k, e) && IsCut(log, k', e) ==> k == k')
    && (forall e {:trigger Detached(s, e)} :: Detached(s, e) ==> exists k: nat :: IsCut(log, k, e))
  }

  predicate Detached(s: State, e: EntryId) {
    e in s.g.entries && e in s.procs && !Live(s.g, s.procs[e].id, e)
  }

  // A loaded entry belongs to the caller's store; if it is detached, that happened
  // after the call began.
  ghost predicate LoadedOk(h: History, p: Pid)
    requires p in h.s.procs
  {
    Loaded(h.s.procs[p]).Some? ==>
      var e := Loaded(h.s.procs[p]).value;
      && e in h.s.g.entries && e in h.s.procs && h.s.procs[e].id == h.s.procs[p].id
      && p in h.began
      && (forall k: nat {:trigger IsCut(h.log, k, e)} :: IsCut(h.log, k, e) ==> h.began[p] <= h.log[k].at)
  }

  ghost predicate TimeInv(h: History) {
    && h.began.Keys == h.s.procs.Keys
    && (forall p :: p in h.began ==> h.began[p] < h.now)
    && (forall p :: p in h.ended ==> p in h.s.procs && Finished(h.s.procs[p]) && h.ended[p] < h.now)
    && (forall i :: 0 <= i < |h.log| ==> h.log[i].at < h.now)
  }

  ghost predicate LinInv(c: Config, h: History) {
    && Inv(c, h.s) && Explains(c, h) && CutInv(c, h.s, h.log) && TimeInv(h)
    && (forall p {:trigger LoadedOk(h, p)} :: p in h.s.procs ==> LoadedOk(h, p))
  }

  // ---- What the specification says at the chosen place ----

  predicate Settling(c: Config, s: State, p: Pid, m: Move) {
    p in s.procs && ProcStep(c, s.g, p, s.procs[p]) == Some(m)
    && Settled(c, s.procs[p]).None? && Settled(c, m.proc).Some?
  }

  // The specification, started from what the store holds, answers like the step
  // and goes where the step goes.
  ghost predicate Agrees(c: Config, s: State, p: Pid, m: Move)
    requires p in s.procs
  {
    Closed(s.g) && Closed(m.g) && SpecStep(c, View(s.g), OpOf(s.procs[p])) == (View(m.g), if Settled(c, m.proc).Some? then Settled(c, m.proc).value else Res(Ok))
  }

  lemma EntriesAreClosed(c: Config, s: State)
    requires EntryInv(c, s)
    ensures Closed(s.g)
  {
    LiveEntriesExist(c, s);
  }

  lemma InsertAgrees(c: Config, s: State, p: Pid, m: Move)
    requires Injective(c.hash) && EntryInv(c, s) && Closed(s.g) && Settling(c, s, p, m)
    requires s.procs[p].Adder? && AddInv(c, s, p) && s.procs[p].apc.Insert?
    ensures Agrees(c, s, p, m)
  {
    var a := s.procs[p];
    if a.id !in s.g.es {
      assert Closed(m.g);
      assert View(m.g) == View(s.g)[a.id := Item(a.content, a.labels)];
    }
  }

  lemma LookupAgrees(c: Config, s: State, p: Pid, m: Move)
    requires Closed(s.g) && Settling(c, s, p, m)
    requires s.procs[p].Adder? && AddInv(c, s, p) && !s.procs[p].apc.Insert?
    ensures Agrees(c, s, p, m)
  {
    assert s.procs[p].apc.PreLoad?;
  }

  lemma EraseAgrees(c: Config, s: State, p: Pid, m: Move)
    requires Closed(s.g) && Settling(c, s, p, m) && s.procs[p].Eraser?
    ensures Agrees(c, s, p, m)
  {
    assert Closed(m.g) && View(m.g) == View(s.g) - {s.procs[p].id};
  }

  lemma LabelAgrees(c: Config, s: State, p: Pid, m: Move)
    requires EntryInv(c, s) && Closed(s.g) && Settling(c, s, p, m) && s.procs[p].Labeler?
    requires s.procs[p].lpc.StoreLabels? ==> Live(s.g, s.procs[p].id, s.procs[p].lpc.entry)
    ensures Agrees(c, s, p, m)
  {
    var a := s.procs[p];
    if a.lpc.StoreLabels? {
      LiveIsUnique(c, s, a.id, a.lpc.entry);
      assert Closed(m.g) && View(m.g) == View(s.g)[a.id := View(s.g)[a.id].(labels := a.labels)];
    }
  }

  lemma GetAgrees(c: Config, s: State, p: Pid, m: Move)
    requires Closed(s.g) && Settling(c, s, p, m) && s.procs[p].Getter?
    requires s.procs[p].gpc.ReadLabels? ==> Live(s.g, s.procs[p].id, s.procs[p].gpc.entry)
    ensures Agrees(c, s, p, m)
  {
  }

  lemma LiveIsUnique(c: Config, s: State, id: StoreId, e: EntryId)
    requires EntryInv(c, s) && Live(s.g, id, e)
    ensures forall x :: x in s.g.es && s.g.es[x] == e ==> x == id
  {
    forall x | x in s.g.es && s.g.es[x] == e ensures x == id {
      assert LiveEntry(s, x) && LiveEntry(s, id);
    }
  }

  // A settling step that is not an access to a detached entry.
  lemma PresentAgrees(c: Config, s: State, p: Pid, m: Move)
    requires Injective(c.hash) && Inv(c, s) && Settling(c, s, p, m)
    requires Loaded(s.procs[p]).Some? ==> Live(s.g, s.procs[p].id, Loaded(s.procs[p]).value)
    ensures Agrees(c, s, p, m)
  {
    EntriesAreClosed(c, s);
    match s.procs[p]
    case Adder(_, _, _, _, pc, _, _) =>
      assert AddInv(c, s, p);
      if pc.Insert? { InsertAgrees(c, s, p, m); } else { LookupAgrees(c, s, p, m); }
    case Eraser(_, _) => EraseAgrees(c, s, p, m);
    case Labeler(_, _, _) => LabelAgrees(c, s, p, m);
    case Getter(_, _) => GetAgrees(c, s, p, m);
  }

  // ---- Steps that settle nothing ----

  ghost predicate Hidden(c: Config, g: Shared, a: Proc, m: Move) {
    && m.g.es == g.es && m.g.entries == g.entries && g.blobs.Keys <= m.g.blobs.Keys
    && (forall b :: b in g.blobs ==> m.g.blobs[b].data == g.blobs[b].data)
    && Settled(c, m.proc) == Settled(c, a)
  }

  lemma UnsettlingAdd(c: Config, g: Shared, p: Pid, a: Proc)
    requires a.Adder? && AddStep(c, g, p, a).Some?
    requires a.apc.ReadAll? ==> p !in g.blobs
    requires Settled(c, a).Some? || Settled(c, AddStep(c, g, p, a).value.proc).None?
    ensures Hidden(c, g, a, AddStep(c, g, p, a).value)
  {
    if Held(p, a).Some? || a.apc.LockNew? || a.apc.WantLock? { UnsettlingLockedAdd(c, g, p, a); }
  }

  lemma UnsettlingLockedAdd(c: Config, g: Shared, p: Pid, a: Proc)
    requires a.Adder? && AddStep(c, g, p, a).Some?
    requires Held(p, a).Some? || a.apc.LockNew? || a.apc.WantLock?
    requires Settled(c, a).Some? || Settled(c, AddStep(c, g, p, a).value.proc).None?
    ensures Hidden(c, g, a, AddStep(c, g, p, a).value)
  {
  }

  lemma UnsettlingErase(c: Config, g: Shared, p: Pid, a: Proc)
    requires a.Eraser? && EraseStep(g, p, a).Some? && !a.epc.Detach?
    ensures Hidden(c, g, a, EraseStep(g, p, a).value)
  {
  }

  lemma UnsettlingStepHidden(c: Config, s: State, p: Pid, m: Move)
    requires Inv(c, s) && p in s.procs && ProcStep(c, s.g, p, s.procs[p]) == Some(m)
    requires !Settling(c, s, p, m)
    ensures Hidden(c, s.g, s.procs[p], m)
  {
    match s.procs[p]
    case Adder(_, _, _, _, _, _, _) =>
      assert AddInv(c, s, p);
      UnsettlingAdd(c, s.g, p, s.procs[p]);
    case Eraser(_, _) => UnsettlingErase(c, s.g, p, s.procs[p]);
    case _ =>
  }

  // ---- The book-keeping, for an event placed anywhere ----

  // ev is p's event, placed at k: at the end, or just before the Erase that cut
  // the entry p had loaded.
  ghost predicate Placed(c: Config, h: History, p: Pid, m: Move, k: nat, ev: Event) {
    && p in h.s.procs && Settling(c, h.s, p, m) && k <= |h.log|
    && ev.pid == p && ev.op == OpOf(h.s.procs[p]) && OpOf(m.proc) == OpOf(h.s.procs[p])
    && Settled(c, m.proc) == Some(ev.out)
    && ev.at == (if k < |h.log| then h.log[k].at else h.now)
    && (k < |h.log| ==> Loaded(h.s.procs[p]).Some? && IsCut(h.log, k, Loaded(h.s.procs[p]).value))
  }

  ghost function After(h: History, p: Pid, m: Move, k: nat, ev: Event): History
    requires k <= |h.log|
  {
    History(Moved(h.s, p, m), PlaceAt(h.log, k, ev), h.now + 1, h.began, if Finished(m.proc) then h.ended[p := h.now] else h.ended)
  }

  lemma PlacedKeepsOrder(h: History, k: nat, ev: Event)
    requires Ordered(h.log) && k <= |h.log| && ev.at == (if k < |h.log| then h.log[k].at else h.now)
    requires forall i :: 0 <= i < |h.log| ==> h.log[i].at < h.now
    ensures Ordered(PlaceAt(h.log, k, ev))
    ensures forall i :: 0 <= i < |h.log| + 1 ==> PlaceAt(h.log, k, ev)[i].at <= h.now
  {
  }

  lemma PlacedKeepsTime(c: Config, h: History, p: Pid, m: Move, k: nat, ev: Event)
    requires TimeInv(h) && Ordered(h.log) && Placed(c, h, p, m, k, ev)
    ensures TimeInv(After(h, p, m, k, ev))
  {
    PlacedKeepsOrder(h, k, ev);
  }

  lemma PlacedIsRecorded(c: Config, h: History, p: Pid, m: Move, k: nat, ev: Event)
    requires TimeInv(h) && Placed(c, h, p, m, k, ev) && LoadedOk(h, p)
    ensures Recorded(c, After(h, p, m, k, ev), k)
  {
    var h' := After(h, p, m, k, ev);
    assert h'.log[k] == ev;
    assert !Finished(h.s.procs[p]);
  }

  lemma OthersStayRecorded(c: Config, h: History, p: Pid, m: Move, k: nat, ev: Event, j: nat)
    requires Placed(c, h, p, m, k, ev) && j < |h.log| && Recorded(c, h, j)
    ensures h.log[j].pid != p
    ensures Recorded(c, After(h, p, m, k, ev), if j < k then j else j + 1)
  {
    var h' := After(h, p, m, k, ev);
    assert h'.log[if j < k then j else j + 1] == h.log[j];
  }

  lemma PlacedKeepsFaith(c: Config, h: History, p: Pid, m: Move, k: nat, ev: Event)
    requires TimeInv(h) && Faithful(c, h) && Placed(c, h, p, m, k, ev) && LoadedOk(h, p)
    ensures Faithful(c, After(h, p, m, k, ev))
  {
    var h' := After(h, p, m, k, ev);
    forall j | 0 <= j < |h.log| ensures h.log[j].pid != p {
      assert Recorded(c, h, j);
      OthersStayRecorded(c, h, p, m, k, ev, j);
    }
    forall i: nat | i < |h'.log| ensures Recorded(c, h', i) {
      if i == k {
        PlacedIsRecorded(c, h, p, m, k, ev);
      } else {
        var j := if i < k then i else i - 1;
        assert Recorded(c, h, j);
        OthersStayRecorded(c, h, p, m, k, ev, j);
      }
    }
  }

  lemma PlacedKeepsComplete(c: Config, h: History, p: Pid, m: Move, k: nat, ev: Event)
    requires Complete(c, h) && Placed(c, h, p, m, k, ev)
    ensures Complete(c, After(h, p, m, k, ev))
  {
    var h' := After(h, p, m, k, ev);
    forall q | q in h'.s.procs && Settled(c, h'.s.procs[q]).Some?
      ensures exists i :: 0 <= i < |h'.log| && h'.log[i].pid == q
    {
      if q == p {
        assert h'.log[k].pid == p;
      } else {
        assert Settled(c, h.s.procs[q]).Some?;
        var j :| 0 <= j < |h.log| && h.log[j].pid == q;
        assert h'.log[if j < k then j else j + 1].pid == q;
      }
    }
  }

  // ---- Detached entries ----

  // The step leaves the detached entries as they are.
  ghost predicate KeepsDetached(s: State, p: Pid, m: Move) {
    var s' := Moved(s, p, m);
    && (forall e {:trigger Detached(s', e)} :: Detached(s', e) <==> Detached(s, e))
    && (forall e {:trigger Detached(s, e)} :: Detached(s, e) && s.g.entries[e].blob in s.g.blobs ==>
          && e in m.g.entries && m.g.entries[e] == s.g.entries[e] && m.g.entries[e].blob in m.g.blobs
          && m.g.blobs[m.g.entries[e].blob].data == s.g.blobs[s.g.entries[e].blob].data)
    && (forall q :: q in s.procs ==> s'.procs[q].id == s.procs[q].id)
  }

  // Every step but a LoadAndDelete that finds something and an access to a
  // detached entry's labels.
  predicate Ordinary(s: State, p: Pid)
    requires p in s.procs
  {
    var a := s.procs[p];
    CutBy(s.g, a).None? && (a.Labeler? && a.lpc.StoreLabels? ==> Live(s.g, a.id, a.lpc.entry))
  }

  lemma AddKeepsDetached(c: Config, s: State, p: Pid, m: Move)
    requires EntryInv(c, s) && p in s.procs && s.procs[p].Adder? && AddInv(c, s, p) && AddStep(c, s.g, p, s.procs[p]) == Some(m)
    requires Gentle(s, p, m)
    ensures KeepsDetached(s, p, m)
  {
    AddTouchesOwnEntry(c, s.g, p, s.procs[p]);
  }

  lemma AddTouchesOwnEntry(c: Config, g: Shared, p: Pid, a: Proc)
    requires a.Adder? && AddStep(c, g, p, a).Some?
    ensures var m := AddStep(c, g, p, a).value;
            || (m.g.es == g.es && m.g.entries == g.entries)
            || (a.apc.Insert? && a.id !in g.es && m.g.es == g.es[a.id := p] && m.g.entries == g.entries[p := Entry(a.apc.blob, a.labels)])
  {
  }

  lemma OrdinaryKeepsDetached(c: Config, s: State, p: Pid, m: Move)
    requires Inv(c, s) && p in s.procs && ProcStep(c, s.g, p, s.procs[p]) == Some(m) && Ordinary(s, p)
    ensures KeepsDetached(s, p, m)
  {
    match s.procs[p]
    case Adder(_, _, _, _, _, _, _) =>
      assert AddInv(c, s, p);
      AddIsGentle(c, s, p);
      AddKeepsDetached(c, s, p, m);
    case Eraser(_, _) => EraseKeepsEntries(s.g, p, s.procs[p]);
    case Labeler(id, _, lpc) =>
      if lpc.StoreLabels? { LiveIsUnique(c, s, id, lpc.entry); assert LiveEntry(s, id); }
    case Getter(_, _) =>
  }

  lemma EraseKeepsEntries(g: Shared, p: Pid, a: Proc)
    requires a.Eraser? && EraseStep(g, p, a).Some? && CutBy(g, a).None?
    ensures var m := EraseStep(g, p, a).value;
            && m.g.es == g.es && m.g.entries == g.entries && m.g.blobs.Keys == g.blobs.Keys
            && (forall b :: b in g.blobs ==> m.g.blobs[b].data == g.blobs[b].data)
  {
  }

  lemma CutStays(c: Config, s: State, p: Pid, m: Move, log: seq<Event>, k: nat, log': seq<Event>, k': nat, e: EntryId)
    requires CutOk(c, s, log, k, e) && p in s.procs && KeepsDetached(s, p, m)
    requires k' < |log'| && log'[k'] == log[k] && Replay(c, log'[..k']) == Replay(c, log[..k])
    ensures CutOk(c, Moved(s, p, m), log', k', e)
  {
    assert Detached(s, e) && Detached(Moved(s, p, m), e);
  }

  lemma SameLogKeepsCuts(c: Config, s: State, p: Pid, m: Move, log: seq<Event>)
    requires CutInv(c, s, log) && p in s.procs && KeepsDetached(s, p, m)
    ensures CutInv(c, Moved(s, p, m), log)
  {
    forall k: nat, e | IsCut(log, k, e) ensures CutOk(c, Moved(s, p, m), log, k, e) {
      CutStays(c, s, p, m, log, k, log, k, e);
    }
  }

  lemma AppendKeepsCuts(c: Config, s: State, p: Pid, m: Move, log: seq<Event>, ev: Event)
    requires CutInv(c, s, log) && p in s.procs && KeepsDetached(s, p, m) && ev.cut.None?
    ensures CutInv(c, Moved(s, p, m), PlaceAt(log, |log|, ev))
  {
    var log' := PlaceAt(log, |log|, ev);
    forall k: nat, e | IsCut(log', k, e) ensures IsCut(log, k, e) && CutOk(c, Moved(s, p, m), log', k, e) {
      assert IsCut(log, k, e);
      ReplayBefore(c, log, |log|, ev, k);
      CutStays(c, s, p, m, log, k, log', k, e);
    }
    forall e | Detached(Moved(s, p, m), e) ensures exists k: nat :: IsCut(log', k, e) {
      assert Detached(s, e);
      var k: nat :| IsCut(log, k, e);
      assert IsCut(log', k, e);
    }
  }

  // ---- Erase detaches an entry ----

  lemma DetachKeepsCuts(c: Config, s: State, p: Pid, m: Move, log: seq<Event>, ev: Event)
    requires CutInv(c, s, log) && EntryInv(c, s) && Closed(s.g) && Replay(c, log) == View(s.g)
    requires p in s.procs && s.procs[p].Eraser? && EraseStep(s.g, p, s.procs[p]) == Some(m)
    requires CutBy(s.g, s.procs[p]).Some? && ev.cut == CutBy(s.g, s.procs[p]) && ev.op == OpErase(s.procs[p].id)
    ensures CutInv(c, Moved(s, p, m), PlaceAt(log, |log|, ev))
  {
    var s' := Moved(s, p, m);
    var log' := PlaceAt(log, |log|, ev);
    var id := s.procs[p].id;
    var e0 := s.g.es[id];
    assert LiveEntry(s, id);
    assert log'[..|log|] == log;
    forall k: nat, e | IsCut(log', k, e) ensures (k == |log| && e == e0) || (IsCut(log, k, e) && e != e0) {
      assert k < |log| ==> IsCut(log, k, e) && CutOk(c, s, log, k, e);
    }
    forall k: nat, e | IsCut(log', k, e) ensures CutOk(c, s', log', k, e) {
      if k < |log| {
        assert CutOk(c, s, log, k, e);
        ReplayBefore(c, log, |log|, ev, k);
      }
    }
    forall e | Detached(s', e) ensures exists k: nat :: IsCut(log', k, e) {
      if e == e0 {
        assert IsCut(log', |log|, e);
      } else {
        assert Detached(s, e);
        var k: nat :| IsCut(log, k, e);
        assert IsCut(log', k, e);
      }
    }
  }

  // ---- A Label or Get reaches an entry that was detached after it was loaded ----

  ghost predicate LateAccess(c: Config, s: State, p: Pid, m: Move, log: seq<Event>, k: nat, ev: Event) {
    && p in s.procs && ProcStep(c, s.g, p, s.procs[p]) == Some(m)
    && Loaded(s.procs[p]).Some? && Loaded(s.procs[p]).value in s.procs && s.procs[Loaded(s.procs[p]).value].id == s.procs[p].id
    && IsCut(log, k, Loaded(s.procs[p]).value)
    && ev.op == OpOf(s.procs[p]) && ev.cut.None? && Settled(c, m.proc) == Some(ev.out)
  }

  lemma LateAccessChangesOneEntry(c: Config, s: State, p: Pid, m: Move, log: seq<Event>, k: nat, ev: Event)
    requires LateAccess(c, s, p, m, log, k, ev) && CutInv(c, s, log)
    ensures var e0 := Loaded(s.procs[p]).value;
            && m.g.es == s.g.es && m.g.blobs == s.g.blobs && m.g.entries.Keys == s.g.entries.Keys && e0 in s.g.entries
            && (forall e :: e in s.g.entries && e != e0 ==> m.g.entries[e] == s.g.entries[e])
            && m.g.entries[e0] == s.g.entries[e0].(labels := if s.procs[p].Labeler? then s.procs[p].labels else s.g.entries[e0].labels)
            && m.proc.id == s.procs[p].id
  {
    assert CutOk(c, s, log, k, Loaded(s.procs[p]).value);
  }

  lemma LateAccessIsLegal(c: Config, s: State, p: Pid, m: Move, log: seq<Event>, k: nat, ev: Event)
    requires LateAccess(c, s, p, m, log, k, ev) && CutInv(c, s, log) && Legal(c, log)
    ensures Legal(c, PlaceAt(log, k, ev)) && Replay(c, PlaceAt(log, k, ev)) == Replay(c, log)
  {
    assert CutOk(c, s, log, k, Loaded(s.procs[p]).value);
    CutIsTraceless(c, log, k, ev, s.procs[p].id);
    CutIsLegal(c, log, k, ev, s.procs[p].id);
  }

  lemma LateAccessIsUnseen(c: Config, s: State, p: Pid, m: Move, log: seq<Event>, k: nat, ev: Event)
    requires LateAccess(c, s, p, m, log, k, ev) && CutInv(c, s, log) && EntryInv(c, s) && Closed(s.g)
    ensures Closed(m.g) && View(m.g) == View(s.g)
  {
    LateAccessChangesOneEntry(c, s, p, m, log, k, ev);
    assert CutOk(c, s, log, k, Loaded(s.procs[p]).value);
    forall x | x in s.g.es ensures s.g.es[x] != Loaded(s.procs[p]).value {
      assert LiveEntry(s, x);
    }
  }

  lemma LateAccessKeepsOneCut(c: Config, s: State, p: Pid, m: Move, log: seq<Event>, k: nat, ev: Event, j: nat, e: EntryId)
    requires LateAccess(c, s, p, m, log, k, ev) && CutInv(c, s, log) && IsCut(log, j, e)
    ensures CutOk(c, Moved(s, p, m), PlaceAt(log, k, ev), if j < k then j else j + 1, e)
  {
    LateAccessChangesOneEntry(c, s, p, m, log, k, ev);
    var e0 := Loaded(s.procs[p]).value;
    assert CutOk(c, s, log, k, e0) && CutOk(c, s, log, j, e);
    assert (j == k) <==> (e == e0);
    if j < k {
      ReplayBefore(c, log, k, ev, j);
    } else if j == k {
      ReplayPlaced(c, log, k, ev);
    } else {
      CutIsTraceless(c, log, k, ev, s.procs[p].id);
    }
  }

  lemma LateAccessKeepsCuts(c: Config, s: State, p: Pid, m: Move, log: seq<Event>, k: nat, ev: Event)
    requires LateAccess(c, s, p, m, log, k, ev) && CutInv(c, s, log)
    ensures CutInv(c, Moved(s, p, m), PlaceAt(log, k, ev))
  {
    var s' := Moved(s, p, m);
    var log' := PlaceAt(log, k, ev);
    LateAccessChangesOneEntry(c, s, p, m, log, k, ev);
    forall i: nat, e | IsCut(log', i, e) ensures i != k && IsCut(log, if i < k then i else i - 1, e) && CutOk(c, s', log', i, e) {
      var j := if i < k then i else i - 1;
      assert IsCut(log, j, e);
      LateAccessKeepsOneCut(c, s, p, m, log, k, ev, j, e);
    }
    forall e | Detached(s', e) ensures exists i: nat :: IsCut(log', i, e) {
      assert Detached(s, e);
      var j: nat :| IsCut(log, j, e);
      assert IsCut(log', if j < k then j else j + 1, e);
    }
  }

  // ---- Loaded entries ----

  lemma LoadedStays(h: History, h': History, p: Pid, q: Pid)
    requires TimeInv(h) && q in h.s.procs && q != p && LoadedOk(h, q)
    requires p in h'.s.procs && h'.s.procs == h.s.procs[p := h'.s.procs[p]]
    requires p in h.s.procs ==> h'.s.procs[p].id == h.s.procs[p].id
    requires h.s.g.entries.Keys <= h'.s.g.entries.Keys
    requires q in h'.began && h'.began[q] == h.began[q]
    requires forall k: nat, e :: IsCut(h'.log, k, e) ==> h'.log[k].at == h.now || exists j: nat :: IsCut(h.log, j, e) && h.log[j].at == h'.log[k].at
    ensures LoadedOk(h', q)
  {
  }

  // ---- One step ----

  lemma UnchangedView(c: Config, s: State, p: Pid, m: Move)
    requires Closed(s.g) && p in s.procs && Hidden(c, s.g, s.procs[p], m)
    ensures Closed(m.g) && View(m.g) == View(s.g)
  {
  }

  lemma HiddenIsOrdinary(c: Config, s: State, p: Pid, m: Move)
    requires p in s.procs && ProcStep(c, s.g, p, s.procs[p]) == Some(m) && Hidden(c, s.g, s.procs[p], m)
    ensures Ordinary(s, p)
  {
  }

  lemma OwnLoadedOk(c: Config, h: History, p: Pid, m: Move, h': History)
    requires LinInv(c, h) && p in h.s.procs && ProcStep(c, h.s.g, p, h.s.procs[p]) == Some(m)
    requires h'.s == Moved(h.s, p, m) && h'.log == h.log && h'.began == h.began
    requires Loaded(m.proc).Some?
    ensures LoadedOk(h', p)
  {
    var e := Loaded(m.proc).value;
    var id := h.s.procs[p].id;
    assert LiveEntry(h.s, id);
  }

  lemma ProcKeepsId(c: Config, g: Shared, p: Pid, a: Proc)
    requires ProcStep(c, g, p, a).Some?
    ensures var a' := ProcStep(c, g, p, a).value.proc;
            OpOf(a') == OpOf(a) && a'.id == a.id && (Finished(a) ==> Finished(a')) && (Settled(c, a).Some? ==> Settled(c, a') == Settled(c, a))
            && (Finished(a') ==> Settled(c, a').Some?)
  {
  }

  // p does nothing that the log shows.
  ghost predicate Silent(c: Config, h: History, h': History, p: Pid) {
    && h'.log == h.log && h'.now == h.now + 1
    && p in h'.s.procs && h'.s.procs == h.s.procs[p := h'.s.procs[p]]
    && (p in h.s.procs ==> OpOf(h'.s.procs[p]) == OpOf(h.s.procs[p]) && Settled(c, h'.s.procs[p]) == Settled(c, h.s.procs[p]))
    && (p !in h.s.procs ==> p !in h.began && Settled(c, h'.s.procs[p]).None?)
    && (forall q :: q in h.s.procs && q in h.began ==> q in h'.began && h'.began[q] == h.began[q])
    && (forall q :: q in h'.ended ==> (q in h.ended && h'.ended[q] == h.ended[q]) || h'.ended[q] == h.now)
  }

  lemma StaysRecorded(c: Config, h: History, h': History, p: Pid, i: nat)
    requires i < |h.log| && Recorded(c, h, i) && Silent(c, h, h', p)
    ensures Recorded(c, h', i)
  {
  }

  lemma SilentKeepsFaith(c: Config, h: History, h': History, p: Pid)
    requires Faithful(c, h) && Silent(c, h, h', p)
    ensures Faithful(c, h')
  {
    forall i: nat | i < |h'.log| ensures Recorded(c, h', i) {
      assert Recorded(c, h, i);
      StaysRecorded(c, h, h', p, i);
    }
  }

  lemma SilentKeepsComplete(c: Config, h: History, h': History, p: Pid)
    requires Complete(c, h) && Silent(c, h, h', p)
    ensures Complete(c, h')
  {
    forall q | q in h'.s.procs && Settled(c, h'.s.procs[q]).Some? ensures exists i :: 0 <= i < |h'.log| && h'.log[i].pid == q {
      assert Settled(c, h.s.procs[q]).Some?;
    }
  }

  lemma QuietIsSilent(c: Config, h: History, p: Pid, m: Move)
    requires TimeInv(h) && p in h.s.procs && ProcStep(c, h.s.g, p, h.s.procs[p]) == Some(m) && !Settling(c, h.s, p, m)
    requires Hidden(c, h.s.g, h.s.procs[p], m)
    ensures var h' := Advanced(c, h, p, m); Silent(c, h, h', p) && TimeInv(h') && h'.log == h.log && h'.s == Moved(h.s, p, m)
  {
    ProcKeepsId(c, h.s.g, p, h.s.procs[p]);
  }

  lemma QuietKeepsExplaining(c: Config, h: History, h': History, p: Pid, m: Move)
    requires Explains(c, h) && Silent(c, h, h', p) && h'.s.g == m.g && p in h.s.procs
    requires Hidden(c, h.s.g, h.s.procs[p], m)
    ensures Explains(c, h')
  {
    UnchangedView(c, h.s, p, m);
    SilentKeepsFaith(c, h, h', p);
    SilentKeepsComplete(c, h, h', p);
  }

  lemma QuietKeepsLinInv(c: Config, h: History, p: Pid, m: Move)
    requires LinInv(c, h) && p in h.s.procs && ProcStep(c, h.s.g, p, h.s.procs[p]) == Some(m) && !Settling(c, h.s, p, m)
    requires Inv(c, Moved(h.s, p, m))
    ensures LinInv(c, Advanced(c, h, p, m))
  {
    var h' := Advanced(c, h, p, m);
    ProcKeepsId(c, h.s.g, p, h.s.procs[p]);
    UnsettlingStepHidden(c, h.s, p, m);
    QuietIsSilent(c, h, p, m);
    QuietKeepsExplaining(c, h, h', p, m);
    HiddenIsOrdinary(c, h.s, p, m);
    OrdinaryKeepsDetached(c, h.s, p, m);
    SameLogKeepsCuts(c, h.s, p, m, h.log);
    forall q | q in h'.s.procs ensures LoadedOk(h', q) {
      if q != p {
        assert LoadedOk(h, q);
        LoadedStays(h, h', p, q);
      } else if Loaded(m.proc).Some? {
        OwnLoadedOk(c, h, p, m, h');
      }
    }
  }

  // Where the new event goes, and that the specification agrees there.
  ghost predicate Fits(c: Config, h: History, p: Pid, m: Move, k: nat, ev: Event) {
    && Placed(c, h, p, m, k, ev)
    && Legal(c, PlaceAt(h.log, k, ev)) && Closed(m.g) && Replay(c, PlaceAt(h.log, k, ev)) == View(m.g)
    && CutInv(c, Moved(h.s, p, m), PlaceAt(h.log, k, ev))
    && (ev.cut.Some? ==> k == |h.log|)
  }

  lemma FitKeepsLinInv(c: Config, h: History, p: Pid, m: Move, k: nat, ev: Event)
    requires LinInv(c, h) && Fits(c, h, p, m, k, ev) && Inv(c, Moved(h.s, p, m))
    ensures LinInv(c, After(h, p, m, k, ev))
  {
    var h' := After(h, p, m, k, ev);
    assert LoadedOk(h, p);
    PlacedKeepsOrder(h, k, ev);
    PlacedKeepsTime(c, h, p, m, k, ev);
    PlacedKeepsFaith(c, h, p, m, k, ev);
    PlacedKeepsComplete(c, h, p, m, k, ev);
    ProcKeepsId(c, h.s.g, p, h.s.procs[p]);
    SettledIsNotLoaded(c, m.proc);
    PlacedCuts(h, k, ev);
    EntriesStay(c, h.s, p, m);
    forall q | q in h'.s.procs ensures LoadedOk(h', q) {
      if q != p {
        assert LoadedOk(h, q);
        LoadedStays(h, h', p, q);
      }
    }
  }

  lemma SettledIsNotLoaded(c: Config, a: Proc)
    requires Settled(c, a).Some?
    ensures Loaded(a).None?
  {
  }

  lemma EntriesStay(c: Config, s: State, p: Pid, m: Move)
    requires p in s.procs && ProcStep(c, s.g, p, s.procs[p]) == Some(m)
    ensures s.g.entries.Keys <= m.g.entries.Keys
  {
  }

  lemma PlacedCuts(h: History, k: nat, ev: Event)
    requires k <= |h.log| && (ev.cut.Some? ==> k == |h.log|)
    requires ev.at == (if k < |h.log| then h.log[k].at else h.now)
    ensures var log' := PlaceAt(h.log, k, ev);
            forall i: nat, e :: IsCut(log', i, e) ==> log'[i].at == h.now || exists j: nat :: IsCut(h.log, j, e) && h.log[j].at == log'[i].at
  {
    var log' := PlaceAt(h.log, k, ev);
    forall i: nat, e | IsCut(log', i, e) ensures log'[i].at == h.now || exists j: nat :: IsCut(h.log, j, e) && h.log[j].at == log'[i].at {
      if i != k {
        assert IsCut(h.log, if i < k then i else i - 1, e);
      }
    }
  }

  lemma LateAccessFits(c: Config, h: History, p: Pid, m: Move)
    requires LinInv(c, h) && Settling(c, h.s, p, m) && Place(h, p) < |h.log|
    ensures Fits(c, h, p, m, Place(h, p), NewEvent(h, p, Settled(c, m.proc).value))
  {
    var k := Place(h, p);
    var ev := NewEvent(h, p, Settled(c, m.proc).value);
    assert LoadedOk(h, p);
    ProcKeepsId(c, h.s.g, p, h.s.procs[p]);
    assert IsCut(h.log, k, Loaded(h.s.procs[p]).value);
    LateAccessIsLegal(c, h.s, p, m, h.log, k, ev);
    LateAccessIsUnseen(c, h.s, p, m, h.log, k, ev);
    LateAccessKeepsCuts(c, h.s, p, m, h.log, k, ev);
  }

  // Only an access to a detached entry goes back in the log.
  lemma PlaceIsLast(c: Config, h: History, p: Pid)
    requires LinInv(c, h) && p in h.s.procs && Place(h, p) == |h.log|
    ensures Loaded(h.s.procs[p]).Some? ==> Live(h.s.g, h.s.procs[p].id, Loaded(h.s.procs[p]).value)
  {
    assert LoadedOk(h, p);
    if Loaded(h.s.procs[p]).Some? && !Live(h.s.g, h.s.procs[p].id, Loaded(h.s.procs[p]).value) {
      var e := Loaded(h.s.procs[p]).value;
      assert Detached(h.s, e);
      var k: nat :| IsCut(h.log, k, e);
    }
  }

  lemma PresentFits(c: Config, h: History, p: Pid, m: Move)
    requires Injective(c.hash) && LinInv(c, h) && Settling(c, h.s, p, m) && Place(h, p) == |h.log|
    ensures Fits(c, h, p, m, Place(h, p), NewEvent(h, p, Settled(c, m.proc).value))
  {
    var ev := NewEvent(h, p, Settled(c, m.proc).value);
    ProcKeepsId(c, h.s.g, p, h.s.procs[p]);
    PlaceIsLast(c, h, p);
    PresentAgrees(c, h.s, p, m);
    AppendIsLegal(c, h.log, ev);
    if ev.cut.Some? {
      DetachKeepsCuts(c, h.s, p, m, h.log, ev);
    } else {
      OrdinaryKeepsDetached(c, h.s, p, m);
      AppendKeepsCuts(c, h.s, p, m, h.log, ev);
    }
  }

  lemma SettlingKeepsLinInv(c: Config, h: History, p: Pid, m: Move)
    requires Injective(c.hash) && LinInv(c, h) && Settling(c, h.s, p, m) && Inv(c, Moved(h.s, p, m))
    ensures LinInv(c, Advanced(c, h, p, m))
  {
    var ev := NewEvent(h, p, Settled(c, m.proc).value);
    if Place(h, p) < |h.log| { LateAccessFits(c, h, p, m); } else { PresentFits(c, h, p, m); }
    FitKeepsLinInv(c, h, p, m, Place(h, p), ev);
    UnsettledIsUnfinished(c, h.s.g, p, h.s.procs[p]);
    assert Advanced(c, h, p, m) == After(h, p, m, Place(h, p), ev);
  }

  lemma UnsettledIsUnfinished(c: Config, g: Shared, p: Pid, a: Proc)
    requires Settled(c, a).None?
    ensures !Finished(a)
  {
  }

  lemma StartIsSilent(c: Config, h: History, p: Pid, call: Proc)
    requires TimeInv(h) && Step(c, h.s, p, Start(call)).Some?
    ensures Silent(c, h, Began(h, p, call), p) && TimeInv(Began(h, p, call)) && Loaded(call).None?
  {
  }

  lemma StartKeepsLinInv(c: Config, h: History, p: Pid, call: Proc)
    requires LinInv(c, h) && Step(c, h.s, p, Start(call)).Some? && Inv(c, Step(c, h.s, p, Start(call)).value)
    ensures LinInv(c, Began(h, p, call))
  {
    var h' := Began(h, p, call);
    assert !Named(h.s.g, p);
    StartIsSilent(c, h, p, call);
    SilentKeepsFaith(c, h, h', p);
    SilentKeepsComplete(c, h, h', p);
    StartKeepsCuts(c, h.s, p, call, h.log);
    forall q | q in h'.s.procs ensures LoadedOk(h', q) {
      if q != p {
        assert LoadedOk(h, q);
        LoadedStays(h, h', p, q);
      }
    }
  }

  lemma StartKeepsCuts(c: Config, s: State, p: Pid, call: Proc, log: seq<Event>)
    requires CutInv(c, s, log) && p !in s.procs && !Named(s.g, p)
    ensures CutInv(c, State(s.g, s.procs[p := call]), log)
  {
    var s' := State(s.g, s.procs[p := call]);
    forall k: nat, e | IsCut(log, k, e) ensures CutOk(c, s', log, k, e) {
      assert CutOk(c, s, log, k, e);
    }
    forall e | Detached(s', e) ensures exists k: nat :: IsCut(log, k, e) {
      assert Detached(s, e);
    }
  }

  lemma RecordKeepsLinInv(c: Config, h: History, p: Pid, act: Action)
    requires Injective(c.hash) && LinInv(c, h) && Step(c, h.s, p, act).Some?
    ensures LinInv(c, Record(c, h, p, act))
  {
    StepKeepsInv(c, h.s, p, act);
    match act
    case Start(call) => StartKeepsLinInv(c, h, p, call);
    case Advance =>
      var m := ProcStep(c, h.s.g, p, h.s.procs[p]).value;
      if Settling(c, h.s, p, m) { SettlingKeepsLinInv(c, h, p, m); } else { QuietKeepsLinInv(c, h, p, m); }
  }
}
