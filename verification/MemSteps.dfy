/** The inductive steps of MemInvariant. */
module MemSteps {
  import opened Base
  import opened MemProtocol
  import opened MemInvariant

  // ---- Locks ----

  lemma Acquire(s: State, p: Pid, b: BlobId, a: Proc)
    requires LockInv(s) && p in s.procs && Held(p, s.procs[p]).None?
    requires b in s.g.blobs && s.g.blobs[b].lock.None? && Held(p, a) == Some(b)
    ensures LockInv(Moved(s, p, Move(SetLock(s.g, b, Some(p)), a)))
  {
  }

  lemma Surrender(s: State, p: Pid, b: BlobId, a: Proc)
    requires LockInv(s) && p in s.procs && Held(p, s.procs[p]) == Some(b) && Held(p, a).None?
    requires b in s.g.blobs
    ensures LockInv(Moved(s, p, Move(SetLock(s.g, b, None), a)))
  {
  }

  lemma Keep(s: State, p: Pid, m: Move)
    requires LockInv(s) && p in s.procs && Held(p, m.proc) == Held(p, s.procs[p])
    requires s.g.blobs.Keys <= m.g.blobs.Keys
    requires forall b :: b in m.g.blobs ==> m.g.blobs[b].lock == if b in s.g.blobs then s.g.blobs[b].lock else None
    ensures LockInv(Moved(s, p, m))
  {
  }

  lemma AddLocks(c: Config, s: State, p: Pid)
    requires LockInv(s) && p in s.procs && s.procs[p].Adder? && AddInv(c, s, p) && AddStep(c, s.g, p, s.procs[p]).Some?
    ensures LockInv(Moved(s, p, AddStep(c, s.g, p, s.procs[p]).value))
  {
    var a := s.procs[p];
    var m := AddStep(c, s.g, p, a).value;
    match a.apc
    case LockNew => Acquire(s, p, p, m.proc);
    case ReleaseNew(_) => Surrender(s, p, p, m.proc);
    case WantLock(b) => Acquire(s, p, b, m.proc);
    case Check(b) =>
      if s.g.blobs[b].refs == 0 { Surrender(s, p, b, m.proc); } else { Keep(s, p, m); }
    case Unlock(b, _) => Surrender(s, p, b, m.proc);
    case _ => Keep(s, p, m);
  }

  lemma EraseLocks(s: State, p: Pid)
    requires LockInv(s) && p in s.procs && s.procs[p].Eraser? && EraseInv(s, p) && EraseStep(s.g, p, s.procs[p]).Some?
    ensures LockInv(Moved(s, p, EraseStep(s.g, p, s.procs[p]).value))
  {
    var m := EraseStep(s.g, p, s.procs[p]).value;
    match s.procs[p].epc
    case WantDrop(b) => Acquire(s, p, b, m.proc);
    case Release(b) => Surrender(s, p, b, m.proc);
    case _ => Keep(s, p, m);
  }

  // ---- Counts ----

  lemma SameDroppers(s: State, p: Pid, a: Proc)
    requires forall b :: Dropping(a, b) <==> p in s.procs && Dropping(s.procs[p], b)
    ensures forall b :: Droppers(s.procs[p := a], b) == Droppers(s.procs, b)
  {
  }

  lemma SameHolders(g: Shared, g': Shared)
    requires g'.es == g.es
    requires forall e :: e in g'.entries <==> e in g.entries
    requires forall e :: e in g.entries ==> g'.entries[e].blob == g.entries[e].blob
    ensures forall b :: Holders(g', b) == Holders(g, b)
  {
  }

  lemma HolderJoins(g: Shared, id: StoreId, e: EntryId, en: Entry, b: BlobId)
    requires id !in g.es && e !in g.entries && forall x :: x in g.es ==> g.es[x] in g.entries
    ensures var g' := g.(es := g.es[id := e], entries := g.entries[e := en]);
            Holders(g', b) == Holders(g, b) + (if b == en.blob then {id} else {}) && id !in Holders(g, b)
  {
  }

  lemma HolderLeaves(g: Shared, id: StoreId, b: BlobId)
    requires id in g.es && g.es[id] in g.entries
    ensures Holders(g.(es := g.es - {id}), b) == Holders(g, b) - {id}
    ensures id in Holders(g, b) <==> g.entries[g.es[id]].blob == b
  {
  }

  lemma DropperJoins(procs: map<Pid, Proc>, p: Pid, a: Proc, b0: BlobId, b: BlobId)
    requires p in procs && !Dropping(procs[p], b) && (Dropping(a, b) <==> b == b0)
    ensures Droppers(procs[p := a], b) == Droppers(procs, b) + (if b == b0 then {p} else {}) && p !in Droppers(procs, b)
  {
  }

  lemma DropperLeaves(procs: map<Pid, Proc>, p: Pid, a: Proc, b0: BlobId, b: BlobId)
    requires p in procs && (Dropping(procs[p], b) <==> b == b0) && !Dropping(a, b)
    ensures Droppers(procs[p := a], b) == Droppers(procs, b) - (if b == b0 then {p} else {})
    ensures p in Droppers(procs, b) <==> b == b0
  {
  }

  // Only the blob in the global map has holders or pending decrements.
  lemma UsersAreLive(c: Config, s: State, b: BlobId)
    requires EntryInv(c, s) && ProcInv(c, s) && s.g.bs != Some(b)
    ensures Holders(s.g, b) == {} && Droppers(s.procs, b) == {}
  {
    forall id ensures id !in Holders(s.g, b) {
      if id in s.g.es { assert LiveEntry(s, id); }
    }
    forall q ensures q !in Droppers(s.procs, b) {
      if q in s.procs && s.procs[q].Eraser? { assert EraseInv(s, q); }
    }
  }

  lemma LiveEntriesExist(c: Config, s: State)
    requires EntryInv(c, s)
    ensures forall id :: id in s.g.es ==> s.g.es[id] in s.g.entries
  {
    forall id | id in s.g.es ensures s.g.es[id] in s.g.entries {
      assert LiveEntry(s, id);
    }
  }

  // Whether an entry of b waits to be counted is up to the holder of b's mutex.
  lemma SameCounting(s: State, s': State, p: Pid, b: BlobId)
    requires LockInv(s) && LockInv(s') && p in s.procs && p in s'.procs && s'.procs == s.procs[p := s'.procs[p]]
    requires b in s.g.blobs && b in s'.g.blobs
    requires !(s.procs[p].Adder? && s.procs[p].apc == Inc(b)) && !(s'.procs[p].Adder? && s'.procs[p].apc == Inc(b))
    ensures Counting(s', b) <==> Counting(s, b)
  {
    if s.g.blobs[b].lock.Some? && s.g.blobs[b].lock != Some(p) {
      var q := s.g.blobs[b].lock.value;
      assert Held(q, s'.procs[q]) == Some(b);
    }
    if s'.g.blobs[b].lock.Some? && s'.g.blobs[b].lock != Some(p) {
      var q := s'.g.blobs[b].lock.value;
      assert Held(q, s.procs[q]) == Some(b);
    }
  }

  // A step that moves no entry, no reference and no pending decrement.
  lemma QuietCounts(c: Config, s: State, p: Pid, m: Move)
    requires Inv(c, s) && p in s.procs && LockInv(Moved(s, p, m))
    requires m.g.es == s.g.es && m.g.entries.Keys == s.g.entries.Keys && m.g.blobs.Keys == s.g.blobs.Keys
    requires forall e :: e in s.g.entries ==> m.g.entries[e].blob == s.g.entries[e].blob
    requires forall b :: b in s.g.blobs ==> m.g.blobs[b].refs == s.g.blobs[b].refs
    requires forall b :: Dropping(m.proc, b) <==> Dropping(s.procs[p], b)
    requires !(m.proc.Adder? && m.proc.apc.Inc?) && !(s.procs[p].Adder? && s.procs[p].apc.Inc?)
    ensures CountInv(Moved(s, p, m))
  {
    SameDroppers(s, p, m.proc);
    SameHolders(s.g, m.g);
    var s' := Moved(s, p, m);
    forall b | b in s'.g.blobs ensures Counted(s', b) {
      assert Counted(s, b);
      SameCounting(s, s', p, b);
    }
  }

  lemma NewBlobCounts(c: Config, s: State, p: Pid)
    requires Inv(c, s) && p in s.procs && s.procs[p].Adder? && s.procs[p].apc.ReadAll?
    requires LockInv(Moved(s, p, AddStep(c, s.g, p, s.procs[p]).value))
    ensures CountInv(Moved(s, p, AddStep(c, s.g, p, s.procs[p]).value))
  {
    assert AddInv(c, s, p);
    var m := AddStep(c, s.g, p, s.procs[p]).value;
    var s' := Moved(s, p, m);
    SameDroppers(s, p, m.proc);
    SameHolders(s.g, m.g);
    forall b | b in s'.g.blobs ensures Counted(s', b) {
      if b in s.g.blobs {
        assert Counted(s, b);
        SameCounting(s, s', p, b);
      } else {
        UsersAreLive(c, s, b);
      }
    }
  }

  lemma InsertCounts(c: Config, s: State, p: Pid)
    requires Inv(c, s) && p in s.procs && s.procs[p].Adder? && s.procs[p].apc.Insert? && s.procs[p].id !in s.g.es
    requires LockInv(Moved(s, p, AddStep(c, s.g, p, s.procs[p]).value))
    ensures CountInv(Moved(s, p, AddStep(c, s.g, p, s.procs[p]).value))
  {
    assert AddInv(c, s, p);
    var a := s.procs[p];
    var m := AddStep(c, s.g, p, a).value;
    var s' := Moved(s, p, m);
    SameDroppers(s, p, m.proc);
    LiveEntriesExist(c, s);
    assert Held(p, a) == Some(a.apc.blob);
    forall b | b in s'.g.blobs ensures Counted(s', b) {
      assert Counted(s, b);
      HolderJoins(s.g, a.id, p, Entry(a.apc.blob, a.labels), b);
      if b != a.apc.blob { SameCounting(s, s', p, b); }
    }
  }

  lemma IncCounts(c: Config, s: State, p: Pid)
    requires Inv(c, s) && p in s.procs && s.procs[p].Adder? && s.procs[p].apc.Inc?
    requires AddStep(c, s.g, p, s.procs[p]).Some?
    requires LockInv(Moved(s, p, AddStep(c, s.g, p, s.procs[p]).value))
    ensures CountInv(Moved(s, p, AddStep(c, s.g, p, s.procs[p]).value))
  {
    assert AddInv(c, s, p);
    var a := s.procs[p];
    var m := AddStep(c, s.g, p, a).value;
    var s' := Moved(s, p, m);
    SameDroppers(s, p, m.proc);
    SameHolders(s.g, m.g);
    assert Held(p, a) == Some(a.apc.blob);
    forall b | b in s'.g.blobs ensures Counted(s', b) {
      assert Counted(s, b);
      if b != a.apc.blob { SameCounting(s, s', p, b); }
    }
  }

  lemma DetachCounts(c: Config, s: State, p: Pid)
    requires Inv(c, s) && p in s.procs && s.procs[p].Eraser? && s.procs[p].epc.Detach? && s.procs[p].id in s.g.es
    requires EraseStep(s.g, p, s.procs[p]).Some?
    requires LockInv(Moved(s, p, EraseStep(s.g, p, s.procs[p]).value))
    ensures CountInv(Moved(s, p, EraseStep(s.g, p, s.procs[p]).value))
  {
    var a := s.procs[p];
    assert LiveEntry(s, a.id);
    var m := EraseStep(s.g, p, a).value;
    var s' := Moved(s, p, m);
    var lost := s.g.entries[s.g.es[a.id]].blob;
    forall b | b in s'.g.blobs ensures Counted(s', b) {
      assert Counted(s, b);
      SameCounting(s, s', p, b);
      HolderLeaves(s.g, a.id, b);
      DropperJoins(s.procs, p, m.proc, lost, b);
    }
  }

  // The decrement never meets a zero count, because the caller's own reference is
  // still in it.
  lemma DropCounts(c: Config, s: State, p: Pid)
    requires Inv(c, s) && p in s.procs && s.procs[p].Eraser? && s.procs[p].epc.Drop?
    requires EraseStep(s.g, p, s.procs[p]).Some?
    requires LockInv(Moved(s, p, EraseStep(s.g, p, s.procs[p]).value))
    ensures s.g.blobs[s.procs[p].epc.blob].refs > 0
    ensures CountInv(Moved(s, p, EraseStep(s.g, p, s.procs[p]).value))
  {
    var a := s.procs[p];
    var b0 := a.epc.blob;
    var m := EraseStep(s.g, p, a).value;
    var s' := Moved(s, p, m);
    assert Held(p, a) == Some(b0);
    assert Counted(s, b0) && !Counting(s, b0);
    DropperLeaves(s.procs, p, m.proc, b0, b0);
    SameHolders(s.g, m.g);
    forall b | b in s'.g.blobs ensures Counted(s', b) {
      assert Counted(s, b);
      SameCounting(s, s', p, b);
      DropperLeaves(s.procs, p, m.proc, b0, b);
    }
  }

  lemma AddCounts(c: Config, s: State, p: Pid)
    requires Inv(c, s) && p in s.procs && s.procs[p].Adder? && AddStep(c, s.g, p, s.procs[p]).Some?
    ensures CountInv(Moved(s, p, AddStep(c, s.g, p, s.procs[p]).value))
  {
    assert AddInv(c, s, p);
    AddLocks(c, s, p);
    var a := s.procs[p];
    if a.apc.ReadAll? && c.hash(a.content) == c.digest {
      NewBlobCounts(c, s, p);
    } else if a.apc.Insert? && a.id !in s.g.es {
      InsertCounts(c, s, p);
    } else if a.apc.Inc? {
      IncCounts(c, s, p);
    } else {
      OtherAddStepsAreQuiet(c, s.g, p, a);
      QuietCounts(c, s, p, AddStep(c, s.g, p, a).value);
    }
  }

  lemma OtherAddStepsAreQuiet(c: Config, g: Shared, p: Pid, a: Proc)
    requires a.Adder? && AddStep(c, g, p, a).Some?
    requires !(a.apc.ReadAll? && c.hash(a.content) == c.digest) && !(a.apc.Insert? && a.id !in g.es) && !a.apc.Inc?
    ensures var m := AddStep(c, g, p, a).value;
            && m.g.es == g.es && m.g.entries == g.entries && m.g.blobs.Keys == g.blobs.Keys
            && (forall b :: b in g.blobs ==> m.g.blobs[b].refs == g.blobs[b].refs)
            && m.proc.Adder? && !m.proc.apc.Inc?
  {
  }

  lemma EraseCounts(c: Config, s: State, p: Pid)
    requires Inv(c, s) && p in s.procs && s.procs[p].Eraser? && EraseStep(s.g, p, s.procs[p]).Some?
    ensures CountInv(Moved(s, p, EraseStep(s.g, p, s.procs[p]).value))
  {
    assert EraseInv(s, p);
    EraseLocks(s, p);
    var a := s.procs[p];
    if a.epc.Detach? && a.id in s.g.es {
      DetachCounts(c, s, p);
    } else if a.epc.Drop? {
      DropCounts(c, s, p);
    } else {
      QuietCounts(c, s, p, EraseStep(s.g, p, a).value);
    }
  }

  // ---- What one step may do to the shared maps ----

  ghost predicate Gentle(s: State, p: Pid, m: Move)
    requires p in s.procs
  {
    var g := s.g; var g' := m.g;
    && g.blobs.Keys <= g'.blobs.Keys <= g.blobs.Keys + {p}
    && (forall b :: b in g.blobs ==> g'.blobs[b].data == g.blobs[b].data)
    && (forall b :: b in g.blobs && g'.blobs[b].refs != g.blobs[b].refs ==> Held(p, s.procs[p]) == Some(b) && g.bs == Some(b))
    && g.entries.Keys <= g'.entries.Keys <= g.entries.Keys + {p}
    && (forall e :: e in g.entries ==> g'.entries[e].blob == g.entries[e].blob)
    && (p in g'.entries && p !in g.entries ==> g.bs == Some(g'.entries[p].blob))
    && (forall id :: id in g'.es ==> (id in g.es && g'.es[id] == g.es[id]) || NewLiveEntry(p, m, id))
    && g.dead <= g'.dead
    && (|| (g'.bs == g.bs && g'.dead == g.dead)
        || (g.bs.None? && g'.bs == Some(p) && g'.dead == g.dead && p in g'.blobs && p !in g.dead)
        || (g.bs.Some? && g'.bs.None? && Retires(s, p, m, g.bs.value)))
  }

  predicate NewLiveEntry(p: Pid, m: Move, id: StoreId) {
    && id in m.g.es && m.g.es[id] == p && m.proc.Adder? && m.proc.id == id
    && p in m.g.entries && m.g.bs == Some(m.g.entries[p].blob)
  }

  // b leaves the global map, and nobody uses it any more.
  ghost predicate Retires(s: State, p: Pid, m: Move, b: BlobId)
    requires p in s.procs
  {
    && Held(p, s.procs[p]) == Some(b) && m.g.dead == s.g.dead + {b} && b in s.g.blobs
    && b in m.g.blobs && m.g.blobs[b].refs == 0
    && Holders(s.g, b) == {} && Droppers(s.procs, b) == {}
  }

  lemma UnseenStays(s: State, p: Pid, m: Move, q: Pid)
    requires p in s.procs && Gentle(s, p, m) && q != p && Unseen(s.g, q)
    ensures Unseen(m.g, q)
  {
  }

  // A blob stays usable to the calls that hold it or wait for it.
  lemma BlobStays(s: State, p: Pid, m: Move, b: BlobId)
    requires p in s.procs && Gentle(s, p, m) && b in s.g.blobs
    ensures b in m.g.blobs
    ensures Held(p, s.procs[p]) != Some(b) ==> m.g.blobs[b].refs == s.g.blobs[b].refs && (s.g.bs == Some(b) ==> m.g.bs == Some(b))
    ensures s.g.bs == Some(b) || b in s.g.dead ==> m.g.bs == Some(b) || b in m.g.dead
  {
  }

  lemma GentleToAdds(c: Config, s: State, p: Pid, m: Move, q: Pid)
    requires q in s.procs && s.procs[q].Adder? && q != p
    requires LockInv(s) && AddInv(c, s, q) && p in s.procs && Gentle(s, p, m)
    ensures AddInv(c, Moved(s, p, m), q)
  {
    assert Held(p, s.procs[p]).Some? ==> Held(p, s.procs[p]) != Held(q, s.procs[q]);
    match s.procs[q].apc
    case LockNew | Publish => UnseenStays(s, p, m, q);
    case ReleaseNew(b) => UnseenStays(s, p, m, q); BlobStays(s, p, m, b);
    case WantLock(b) => UnseenStays(s, p, m, q); BlobStays(s, p, m, b);
    case Check(b) => UnseenStays(s, p, m, q); BlobStays(s, p, m, b);
    case Insert(b) => BlobStays(s, p, m, b);
    case Inc(b) => BlobStays(s, p, m, b);
    case Unlock(b, _) => BlobStays(s, p, m, b);
    case _ =>
  }

  lemma GentleToErases(s: State, p: Pid, m: Move, q: Pid)
    requires q in s.procs && s.procs[q].Eraser? && q != p
    requires LockInv(s) && EraseInv(s, q) && p in s.procs && Gentle(s, p, m)
    ensures EraseInv(Moved(s, p, m), q)
  {
    assert Held(p, s.procs[p]).Some? ==> Held(p, s.procs[p]) != Held(q, s.procs[q]);
    if s.g.bs.Some? && s.procs[q].epc == WantDrop(s.g.bs.value) { assert q in Droppers(s.procs, s.g.bs.value); }
    if s.procs[q].epc.Release? { BlobStays(s, p, m, s.procs[q].epc.blob); }
  }

  lemma GentleToLiveEntries(c: Config, s: State, p: Pid, m: Move, id: StoreId)
    requires EntryInv(c, s) && p in s.procs && Gentle(s, p, m) && id in m.g.es
    requires m.proc.Adder? <==> s.procs[p].Adder?
    requires m.proc.Adder? ==> m.proc.id == s.procs[p].id
    ensures LiveEntry(Moved(s, p, m), id)
  {
    if !NewLiveEntry(p, m, id) {
      assert LiveEntry(s, id);
      assert m.g.bs != s.g.bs ==> id !in Holders(s.g, s.g.bs.value);
    }
  }

  lemma GentleToEntries(c: Config, s: State, p: Pid, m: Move)
    requires EntryInv(c, s) && p in s.procs && Gentle(s, p, m)
    requires m.proc.Adder? <==> s.procs[p].Adder?
    requires m.proc.Adder? ==> m.proc.id == s.procs[p].id
    requires p in m.g.blobs && p !in s.g.blobs ==> m.proc.Adder? && c.hash(m.g.blobs[p].data) == c.digest
    requires p in m.g.entries && p !in s.g.entries ==> m.proc.Adder? && s.g.bs.Some?
    ensures EntryInv(c, Moved(s, p, m))
  {
    var s' := Moved(s, p, m);
    forall id | id in s'.g.es ensures LiveEntry(s', id) {
      GentleToLiveEntries(c, s, p, m, id);
    }
    forall q | Named(s'.g, q) ensures q in s'.procs && s'.procs[q].Adder? {
      assert q != p ==> Named(s.g, q);
      assert q == p && s.procs[p].Adder? ==> s'.procs[p].Adder?;
      assert Named(s.g, p) ==> s.procs[p].Adder?;
    }
    forall b | b in s'.g.dead ensures b in s'.g.blobs && s'.g.blobs[b].refs == 0 {
      if b in s.g.dead { BlobStays(s, p, m, b); }
    }
  }

  // p is the one whose half-done work leaves a count of zero.
  predicate OwnZero(a: Proc, b: BlobId) {
    (a.Adder? && (a.apc == Insert(b) || a.apc == Inc(b))) || (a.Eraser? && a.epc == Delete(b))
  }

  ghost predicate ZeroAccounted(s: State, p: Pid, m: Move)
    requires p in s.procs
  {
    m.g.bs.Some? && m.g.bs.value in m.g.blobs && m.g.blobs[m.g.bs.value].refs == 0 ==>
      var b := m.g.bs.value;
      || (OwnZero(m.proc, b) && Held(p, m.proc) == Some(b))
      || (s.g.bs == Some(b) && b in s.g.blobs && s.g.blobs[b].refs == 0 && Held(p, s.procs[p]) != Some(b))
  }

  lemma ZeroStays(s: State, p: Pid, m: Move)
    requires LockInv(s) && ZeroInv(s) && p in s.procs && LockInv(Moved(s, p, m)) && ZeroAccounted(s, p, m)
    ensures ZeroInv(Moved(s, p, m))
  {
    var s' := Moved(s, p, m);
    if m.g.bs.Some? && m.g.bs.value in m.g.blobs && m.g.blobs[m.g.bs.value].refs == 0 {
      var b := m.g.bs.value;
      if OwnZero(m.proc, b) && Held(p, m.proc) == Some(b) {
        assert Held(p, s'.procs[p]) == Some(b);
      } else {
        var q := s.g.blobs[b].lock.value;
        assert Held(q, s.procs[q]) == Some(b);
        assert Held(q, s'.procs[q]) == Some(b);
      }
    }
  }

  // ---- Add ----

  lemma SetLockIsGentle(s: State, p: Pid, b: BlobId, o: Option<Pid>, a: Proc)
    requires p in s.procs && b in s.g.blobs
    ensures Gentle(s, p, Move(SetLock(s.g, b, o), a))
  {
  }

  lemma ReadAllIsGentle(s: State, p: Pid, data: Bytes, a: Proc)
    requires p in s.procs && p !in s.g.blobs
    ensures Gentle(s, p, Move(s.g.(blobs := s.g.blobs[p := Blob(data, 0, None)]), a))
  {
  }

  lemma InsertIsGentle(s: State, p: Pid, b: BlobId, a: Proc)
    requires p in s.procs && a.Adder? && a.id !in s.g.es && p !in s.g.entries && s.g.bs == Some(b)
    ensures Gentle(s, p, Move(s.g.(es := s.g.es[a.id := p], entries := s.g.entries[p := Entry(b, a.labels)]), a))
  {
  }

  lemma AddIsGentle(c: Config, s: State, p: Pid)
    requires Inv(c, s) && p in s.procs && s.procs[p].Adder? && AddStep(c, s.g, p, s.procs[p]).Some?
    ensures Gentle(s, p, AddStep(c, s.g, p, s.procs[p]).value)
  {
    assert AddInv(c, s, p);
    var a := s.procs[p];
    var m := AddStep(c, s.g, p, a).value;
    match a.apc
    case LockNew => SetLockIsGentle(s, p, p, Some(p), m.proc);
    case ReleaseNew(_) => SetLockIsGentle(s, p, p, None, m.proc);
    case WantLock(b) => SetLockIsGentle(s, p, b, Some(p), m.proc);
    case Check(b) => if s.g.blobs[b].refs == 0 { SetLockIsGentle(s, p, b, None, m.proc); }
    case Unlock(b, _) => SetLockIsGentle(s, p, b, None, m.proc);
    case ReadAll => if c.hash(a.content) == c.digest { ReadAllIsGentle(s, p, a.content, m.proc); }
    case Insert(b) => if a.id !in s.g.es { InsertIsGentle(s, p, b, m.proc); }
    case _ =>
  }

  // A count of zero seen under the mutex means the blob has left the global map.
  lemma ZeroMeansDead(c: Config, s: State, p: Pid)
    requires Inv(c, s) && p in s.procs && s.procs[p].Adder? && s.procs[p].apc.Check?
    requires s.procs[p].apc.seen in s.g.blobs && s.g.blobs[s.procs[p].apc.seen].refs == 0
    ensures s.g.bs != Some(s.procs[p].apc.seen) && s.procs[p].apc.seen in s.g.dead
  {
    assert AddInv(c, s, p);
    assert Held(p, s.procs[p]) == Some(s.procs[p].apc.seen);
  }

  // An Add that stored a fresh blob finds no entry of its own store: the count of
  // that blob is still zero, and every live entry points at it.
  lemma FreshInsertSucceeds(c: Config, s: State, p: Pid)
    requires Inv(c, s) && p in s.procs && s.procs[p].Adder? && s.procs[p].apc == Insert(p)
    ensures s.g.es == map[]
  {
    assert AddInv(c, s, p);
    assert Held(p, s.procs[p]) == Some(p);
    assert Counted(s, p) && !Counting(s, p);
    forall id ensures id !in s.g.es {
      assert id !in Holders(s.g, p);
      assert id in s.g.es ==> LiveEntry(s, id);
    }
  }

  lemma AddKeepsOwn(c: Config, s: State, p: Pid)
    requires Inv(c, s) && p in s.procs && s.procs[p].Adder? && AddStep(c, s.g, p, s.procs[p]).Some?
    ensures AddInv(c, Moved(s, p, AddStep(c, s.g, p, s.procs[p]).value), p)
  {
    assert AddInv(c, s, p);
    var a := s.procs[p];
    match a.apc
    case Check(b) =>
      if s.g.blobs[b].refs == 0 { ZeroMeansDead(c, s, p); }
    case Insert(_) =>
    case _ => EarlyAddKeepsOwn(c, s, p);
  }

  lemma EarlyAddKeepsOwn(c: Config, s: State, p: Pid)
    requires Inv(c, s) && p in s.procs && s.procs[p].Adder? && AddStep(c, s.g, p, s.procs[p]).Some?
    requires !s.procs[p].apc.Check? && !s.procs[p].apc.Insert?
    ensures AddInv(c, Moved(s, p, AddStep(c, s.g, p, s.procs[p]).value), p)
  {
    assert AddInv(c, s, p);
  }

  lemma AddAccountsZero(c: Config, s: State, p: Pid)
    requires Inv(c, s) && p in s.procs && s.procs[p].Adder? && AddStep(c, s.g, p, s.procs[p]).Some?
    ensures ZeroAccounted(s, p, AddStep(c, s.g, p, s.procs[p]).value)
  {
    assert AddInv(c, s, p);
    match s.procs[p].apc
    case Insert(b) =>
      if b == p { FreshInsertSucceeds(c, s, p); }
    case Check(b) =>
      if s.g.blobs[b].refs == 0 { ZeroMeansDead(c, s, p); }
    case Unlock(b, _) => HeldAndIdleIsCounted(c, s, p, b);
    case _ => OtherAddsAccountZero(c, s, p);
  }

  lemma OtherAddsAccountZero(c: Config, s: State, p: Pid)
    requires p in s.procs && s.procs[p].Adder? && AddInv(c, s, p) && AddStep(c, s.g, p, s.procs[p]).Some?
    requires !s.procs[p].apc.Insert? && !s.procs[p].apc.Check? && !s.procs[p].apc.Unlock?
    requires EntryInv(c, s)
    ensures ZeroAccounted(s, p, AddStep(c, s.g, p, s.procs[p]).value)
  {
  }

  // A mutex holder that owes nothing sees a positive count in the global map.
  lemma HeldAndIdleIsCounted(c: Config, s: State, p: Pid, b: BlobId)
    requires Inv(c, s) && p in s.procs && Held(p, s.procs[p]) == Some(b) && !OwnZero(s.procs[p], b)
    ensures s.g.bs == Some(b) ==> b in s.g.blobs && s.g.blobs[b].refs > 0
  {
  }

  // ---- Erase ----

  lemma DeleteIsGentle(c: Config, s: State, p: Pid)
    requires Inv(c, s) && p in s.procs && s.procs[p].Eraser? && s.procs[p].epc.Delete?
    ensures Gentle(s, p, EraseStep(s.g, p, s.procs[p]).value)
  {
    assert EraseInv(s, p);
    var b := s.procs[p].epc.blob;
    assert Held(p, s.procs[p]) == Some(b);
    assert Counted(s, b) && !Counting(s, b);
  }

  lemma EraseIsGentle(c: Config, s: State, p: Pid)
    requires Inv(c, s) && p in s.procs && s.procs[p].Eraser? && EraseStep(s.g, p, s.procs[p]).Some?
    ensures Gentle(s, p, EraseStep(s.g, p, s.procs[p]).value)
  {
    assert EraseInv(s, p);
    var m := EraseStep(s.g, p, s.procs[p]).value;
    match s.procs[p].epc
    case WantDrop(b) => SetLockIsGentle(s, p, b, Some(p), m.proc);
    case Release(b) => SetLockIsGentle(s, p, b, None, m.proc);
    case Delete(_) => DeleteIsGentle(c, s, p);
    case _ =>
  }

  lemma EraseKeepsOwn(c: Config, s: State, p: Pid)
    requires Inv(c, s) && p in s.procs && s.procs[p].Eraser? && EraseStep(s.g, p, s.procs[p]).Some?
    ensures EraseInv(Moved(s, p, EraseStep(s.g, p, s.procs[p]).value), p)
  {
    assert EraseInv(s, p);
    var a := s.procs[p];
    if a.epc.Detach? && a.id in s.g.es { assert LiveEntry(s, a.id); }
  }

  lemma EraseAccountsZero(c: Config, s: State, p: Pid)
    requires Inv(c, s) && p in s.procs && s.procs[p].Eraser? && EraseStep(s.g, p, s.procs[p]).Some?
    ensures ZeroAccounted(s, p, EraseStep(s.g, p, s.procs[p]).value)
  {
    assert EraseInv(s, p);
    match s.procs[p].epc
    case Release(b) => HeldAndIdleIsCounted(c, s, p, b);
    case _ =>
  }

  // ---- All steps ----

  lemma GentleKeepsOthers(c: Config, s: State, p: Pid, m: Move)
    requires Inv(c, s) && p in s.procs && Gentle(s, p, m)
    requires m.proc.Adder? ==> AddInv(c, Moved(s, p, m), p)
    requires m.proc.Eraser? ==> EraseInv(Moved(s, p, m), p)
    requires m.proc.Labeler? && m.proc.lpc.StoreLabels? ==> m.proc.lpc.entry in s.g.entries
    requires m.proc.Getter? && m.proc.gpc.ReadLabels? ==> m.proc.gpc.entry in s.g.entries
    ensures ProcInv(c, Moved(s, p, m))
  {
    var s' := Moved(s, p, m);
    forall q | q in s'.procs && s'.procs[q].Adder? ensures AddInv(c, s', q) {
      if q != p {
        assert AddInv(c, s, q);
        GentleToAdds(c, s, p, m, q);
      }
    }
    forall q | q in s'.procs && s'.procs[q].Eraser? ensures EraseInv(s', q) {
      if q != p {
        assert EraseInv(s, q);
        GentleToErases(s, p, m, q);
      }
    }
  }

  lemma AddKeepsInv(c: Config, s: State, p: Pid)
    requires Inv(c, s) && p in s.procs && s.procs[p].Adder? && AddStep(c, s.g, p, s.procs[p]).Some?
    ensures Inv(c, Moved(s, p, AddStep(c, s.g, p, s.procs[p]).value))
  {
    assert AddInv(c, s, p);
    var m := AddStep(c, s.g, p, s.procs[p]).value;
    AddLocks(c, s, p);
    AddCounts(c, s, p);
    AddIsGentle(c, s, p);
    AddKeepsOwn(c, s, p);
    GentleKeepsOthers(c, s, p, m);
    AddAllocates(c, s, p);
    GentleToEntries(c, s, p, m);
    AddAccountsZero(c, s, p);
    ZeroStays(s, p, m);
  }

  lemma AddAllocates(c: Config, s: State, p: Pid)
    requires EntryInv(c, s) && p in s.procs && s.procs[p].Adder? && AddInv(c, s, p) && AddStep(c, s.g, p, s.procs[p]).Some?
    ensures var m := AddStep(c, s.g, p, s.procs[p]).value;
            && (p in m.g.blobs && p !in s.g.blobs ==> c.hash(m.g.blobs[p].data) == c.digest)
            && (p in m.g.entries && p !in s.g.entries ==> s.g.bs.Some?)
  {
  }

  lemma EraseKeepsMaps(c: Config, s: State, p: Pid)
    requires Inv(c, s) && p in s.procs && s.procs[p].Eraser? && EraseStep(s.g, p, s.procs[p]).Some?
    ensures var s' := Moved(s, p, EraseStep(s.g, p, s.procs[p]).value); EntryInv(c, s') && ProcInv(c, s')
  {
    var m := EraseStep(s.g, p, s.procs[p]).value;
    EraseIsGentle(c, s, p);
    EraseKeepsOwn(c, s, p);
    EraseAllocatesNothing(s.g, p, s.procs[p]);
    GentleKeepsOthers(c, s, p, m);
    GentleToEntries(c, s, p, m);
  }

  lemma EraseAllocatesNothing(g: Shared, p: Pid, a: Proc)
    requires a.Eraser? && EraseStep(g, p, a).Some?
    ensures var m := EraseStep(g, p, a).value; m.g.blobs.Keys == g.blobs.Keys && m.g.entries == g.entries
  {
  }

  lemma EraseKeepsInv(c: Config, s: State, p: Pid)
    requires Inv(c, s) && p in s.procs && s.procs[p].Eraser? && EraseStep(s.g, p, s.procs[p]).Some?
    ensures Inv(c, Moved(s, p, EraseStep(s.g, p, s.procs[p]).value))
  {
    assert EraseInv(s, p);
    EraseLocks(s, p);
    EraseCounts(c, s, p);
    EraseKeepsMaps(c, s, p);
    EraseAccountsZero(c, s, p);
    ZeroStays(s, p, EraseStep(s.g, p, s.procs[p]).value);
  }

  // Label and Get touch neither mutexes nor counts.
  lemma LabelKeepsInv(c: Config, s: State, p: Pid)
    requires Inv(c, s) && p in s.procs && s.procs[p].Labeler? && LabelStep(s.g, s.procs[p]).Some?
    ensures Inv(c, Moved(s, p, LabelStep(s.g, s.procs[p]).value))
  {
    var m := LabelStep(s.g, s.procs[p]).value;
    LiveEntriesExist(c, s);
    Keep(s, p, m);
    QuietCounts(c, s, p, m);
    GentleKeepsOthers(c, s, p, m);
    GentleToEntries(c, s, p, m);
    ZeroStays(s, p, m);
  }

  lemma GetKeepsInv(c: Config, s: State, p: Pid)
    requires Inv(c, s) && p in s.procs && s.procs[p].Getter? && GetStep(s.g, s.procs[p]).Some?
    ensures Inv(c, Moved(s, p, GetStep(s.g, s.procs[p]).value))
  {
    var m := GetStep(s.g, s.procs[p]).value;
    LiveEntriesExist(c, s);
    Keep(s, p, m);
    QuietCounts(c, s, p, m);
    GentleKeepsOthers(c, s, p, m);
    GentleToEntries(c, s, p, m);
    ZeroStays(s, p, m);
  }

  lemma StartKeepsInv(c: Config, s: State, p: Pid, call: Proc)
    requires Inv(c, s) && Step(c, s, p, Start(call)).Some?
    ensures Inv(c, Step(c, s, p, Start(call)).value)
  {
    var s' := Step(c, s, p, Start(call)).value;
    SameDroppers(s, p, call);
    assert !Named(s.g, p);
    forall q | q in s'.procs && s'.procs[q].Adder? ensures AddInv(c, s', q) {
      if q != p { assert AddInv(c, s, q); }
    }
    forall q | q in s'.procs && s'.procs[q].Eraser? ensures EraseInv(s', q) {
      if q != p { assert EraseInv(s, q); }
    }
    forall id | id in s'.g.es ensures LiveEntry(s', id) {
      assert LiveEntry(s, id);
    }
    forall b | b in s'.g.blobs ensures Counted(s', b) {
      assert Counted(s, b);
    }
  }

  lemma StepKeepsInv(c: Config, s: State, p: Pid, act: Action)
    requires Inv(c, s) && Step(c, s, p, act).Some?
    ensures Inv(c, Step(c, s, p, act).value)
  {
    if act.Start? {
      StartKeepsInv(c, s, p, act.call);
    } else {
      match s.procs[p]
      case Adder(_, _, _, _, _, _, _) => AddKeepsInv(c, s, p);
      case Eraser(_, _) => EraseKeepsInv(c, s, p);
      case Labeler(_, _, _) => LabelKeepsInv(c, s, p);
      case Getter(_, _) => GetKeepsInv(c, s, p);
    }
  }
}
