/** What callers of the in-memory store can count on in every concurrent run, said without
    a specification: a Get that begins after an Add, Label or Erase of its store has
    returned sees what that call did, if no other call on the entry is running meanwhile.
    Calls of other stores may race as they like. */
module MemLaws {
  import opened Base
  import opened MemProtocol
  import opened MemInvariant
  import opened MemSafety
  import opened MemLinear
  import opened MemLinearProof
  import opened MemLinearizable

  // A call that may take the entry of the store away, or change its labels.
  predicate Disturbs(a: Proc, id: StoreId) {
    (a.Eraser? || a.Labeler?) && a.id == id && !Finished(a)
  }

  ghost predicate Undisturbed(s: State, id: StoreId, p: Pid) {
    forall q :: q in s.procs && q != p ==> !Disturbs(s.procs[q], id)
  }

  // From t[b] to t[k], no such call but p runs.
  ghost predicate Quiet(t: seq<State>, b: nat, k: nat, id: StoreId, p: Pid) {
    forall j: nat :: b <= j <= k && j < |t| ==> Undisturbed(t[j], id, p)
  }

  // ---- Calls keep what they were called with ----

  predicate SameCall(a: Proc, a': Proc) {
    match a
    case Adder(id, content, labels, given, _, _, _) =>
      a'.Adder? && a'.id == id && a'.content == content && a'.labels == labels && a'.given == given
    case Eraser(id, _) => a'.Eraser? && a'.id == id
    case Labeler(id, labels, _) => a'.Labeler? && a'.id == id && a'.labels == labels
    case Getter(id, _) => a'.Getter? && a'.id == id
  }

  lemma StepKeepsCall(c: Config, s: State, p: Pid, act: Action, q: Pid)
    requires Step(c, s, p, act).Some? && q in s.procs
    ensures q in Step(c, s, p, act).value.procs && SameCall(s.procs[q], Step(c, s, p, act).value.procs[q])
  {
    if act.Advance? && q == p && s.procs[p].Adder? { AddKeepsCall(c, s.g, p, s.procs[p]); }
  }

  lemma AddKeepsCall(c: Config, g: Shared, p: Pid, a: Proc)
    requires a.Adder? && AddStep(c, g, p, a).Some?
    ensures SameCall(a, AddStep(c, g, p, a).value.proc)
  {
  }

  // ---- The entry of a store stays, while nobody disturbs it ----

  lemma EntryStays(c: Config, t: seq<State>, j: nat, r: Pid, act: Action, id: StoreId)
    requires Injective(c.hash) && Run(c, t) && j + 1 < |t| && Step(c, t[j], r, act) == Some(t[j + 1])
    requires id in t[j].g.es && (r in t[j].procs ==> !Disturbs(t[j].procs[r], id))
    ensures var g, g' := t[j].g, t[j + 1].g; var e := g.es[id];
            id in g'.es && g'.es[id] == e && e in g.entries && e in g'.entries && g'.entries[e] == g.entries[e]
  {
    RunKeepsInv(c, t, j);
    var s := t[j];
    assert LiveEntry(s, id);
    if act.Advance? {
      var a := s.procs[r];
      match a
      case Adder(_, _, _, _, _, _, _) =>
        AddTouchesOwnEntry(c, s.g, r, a);
        assert AddInv(c, s, r);
      case Eraser(_, _) => EraseKeepsOthers(s.g, r, a);
      case Labeler(_, _, _) =>
        if a.lpc.StoreLabels? { OwnerOfLoaded(c, t, j, r); }
      case Getter(_, _) =>
    }
  }

  lemma EraseKeepsOthers(g: Shared, p: Pid, a: Proc)
    requires a.Eraser? && EraseStep(g, p, a).Some?
    ensures !Finished(a)
    ensures var g' := EraseStep(g, p, a).value.g; g'.entries == g.entries && forall id :: id != a.id && id in g.es ==> id in g'.es && g'.es[id] == g.es[id]
  {
  }

  // What is stored hashes to the digest, so there is only one content.
  lemma OneContent(c: Config, t: seq<State>, j: nat, e: EntryId, content: Bytes)
    requires Injective(c.hash) && Run(c, t) && j < |t| && e in t[j].g.entries && c.hash(content) == c.digest
    ensures t[j].g.entries[e].blob in t[j].g.blobs && t[j].g.blobs[t[j].g.entries[e].blob].data == content
  {
    RunKeepsInv(c, t, j);
  }

  // ---- Add ----

  predicate Inserted(pc: AddPc) {
    pc.Inc? || (pc.Unlock? && pc.out == Ok) || pc == AddDone(Ok)
  }

  // Once it has inserted its entry, the store has it, with the labels given.
  ghost predicate Stored(c: Config, s: State, p: Pid) {
    p in s.procs && s.procs[p].Adder? && Inserted(s.procs[p].apc) ==>
      && c.hash(s.procs[p].content) == c.digest
      && Live(s.g, s.procs[p].id, p) && p in s.g.entries && s.g.entries[p].labels == s.procs[p].labels
  }

  lemma StoredStays(c: Config, t: seq<State>, j: nat, p: Pid, id: StoreId)
    requires Injective(c.hash) && Run(c, t) && j + 1 < |t| && Undisturbed(t[j], id, p)
    requires p in t[j].procs && t[j].procs[p].Adder? && t[j].procs[p].id == id && Stored(c, t[j], p)
    ensures p in t[j + 1].procs && SameCall(t[j].procs[p], t[j + 1].procs[p]) && Stored(c, t[j + 1], p)
  {
    RunKeepsInv(c, t, j);
    assert Next(c, t[j], t[j + 1]);
    var r, act :| Step(c, t[j], r, act) == Some(t[j + 1]);
    StepKeepsCall(c, t[j], r, act, p);
    if r == p && act.Advance? {
      assert AddInv(c, t[j], p);
      AddInserts(c, t[j].g, p, t[j].procs[p]);
    } else if Inserted(t[j].procs[p].apc) {
      EntryStays(c, t, j, r, act, id);
    }
  }

  lemma AddInserts(c: Config, g: Shared, p: Pid, a: Proc)
    requires a.Adder? && AddStep(c, g, p, a).Some?
    ensures var m := AddStep(c, g, p, a).value;
            && (Inserted(m.proc.apc) && !Inserted(a.apc) ==>
                  a.apc.Insert? && m.g.es == g.es[a.id := p] && p in m.g.entries && m.g.entries[p].labels == a.labels)
            && (Inserted(a.apc) ==> m.g.es == g.es && m.g.entries == g.entries)
  {
  }

  lemma {:induction false} AddStaysStored(c: Config, t: seq<State>, b: nat, k: nat, p: Pid, id: StoreId)
    requires Injective(c.hash) && Run(c, t) && b <= k < |t| && Quiet(t, b, k, id, p)
    requires p in t[b].procs && t[b].procs[p].Adder? && t[b].procs[p].id == id && t[b].procs[p].apc == PreLoad
    ensures p in t[k].procs && SameCall(t[b].procs[p], t[k].procs[p]) && Stored(c, t[k], p)
    decreases k
  {
    if b < k {
      AddStaysStored(c, t, b, k - 1, p, id);
      assert Undisturbed(t[k - 1], id, p);
      StoredStays(c, t, k - 1, p, id);
    }
  }

  // What a Get of this store has loaded and read.
  ghost predicate ReadsEntry(s: State, q: Pid, id: StoreId, e: EntryId, got: (Bytes, Labels)) {
    q in s.procs && s.procs[q].Getter? && s.procs[q].id == id ==>
      match s.procs[q].gpc {
        case LoadToGet => true
        case ReadLabels(x) => x == e
        case GetDone(x) => x == Some(got)
      }
  }

  lemma ReadsEntryStays(c: Config, t: seq<State>, j: nat, q: Pid, id: StoreId, e: EntryId, got: (Bytes, Labels))
    requires Injective(c.hash) && Run(c, t) && j + 1 < |t| && ReadsEntry(t[j], q, id, e, got)
    requires c.hash(got.0) == c.digest && Live(t[j].g, id, e) && e in t[j].g.entries && t[j].g.entries[e].labels == got.1
    ensures ReadsEntry(t[j + 1], q, id, e, got)
  {
    assert Next(c, t[j], t[j + 1]);
    var r, act :| Step(c, t[j], r, act) == Some(t[j + 1]);
    OneContent(c, t, j, e, got.0);
    if q in t[j].procs { StepKeepsCall(c, t[j], r, act, q); }
  }

  // A Get that begins after the Add has returned Ok returns what was added.
  lemma {:induction false} GetAfterAdd(c: Config, t: seq<State>, b: nat, i: nat, k: nat, p: Pid, q: Pid)
    requires Injective(c.hash) && Run(c, t) && b <= i <= k < |t|
    requires p in t[b].procs && t[b].procs[p].Adder? && t[b].procs[p].apc == PreLoad
    requires p in t[i].procs && t[i].procs[p].Adder? && t[i].procs[p].apc == AddDone(Ok)
    requires Quiet(t, b, k, t[b].procs[p].id, p)
    requires q !in t[i].procs && q in t[k].procs && t[k].procs[q].Getter? && t[k].procs[q].id == t[b].procs[p].id && Finished(t[k].procs[q])
    ensures t[k].procs[q].gpc.got == Some((t[b].procs[p].content, t[b].procs[p].labels))
  {
    GetReadsAdded(c, t, b, i, k, p, q);
  }

  lemma {:induction false} GetReadsAdded(c: Config, t: seq<State>, b: nat, i: nat, k: nat, p: Pid, q: Pid)
    requires Injective(c.hash) && Run(c, t) && b <= i <= k < |t|
    requires p in t[b].procs && t[b].procs[p].Adder? && t[b].procs[p].apc == PreLoad
    requires p in t[i].procs && t[i].procs[p].Adder? && t[i].procs[p].apc == AddDone(Ok)
    requires Quiet(t, b, k, t[b].procs[p].id, p) && q !in t[i].procs
    ensures p in t[k].procs && t[k].procs[p] == t[i].procs[p]
    ensures ReadsEntry(t[k], q, t[b].procs[p].id, p, (t[b].procs[p].content, t[b].procs[p].labels))
    decreases k
  {
    var a := t[b].procs[p];
    AddStaysStored(c, t, b, i, p, a.id);
    if i < k {
      GetReadsAdded(c, t, b, i, k - 1, p, q);
      AddStaysStored(c, t, b, k - 1, p, a.id);
      DoneStays(c, t, k - 1, p);
      ReadsEntryStays(c, t, k - 1, q, a.id, p, (a.content, a.labels));
    }
  }

  lemma DoneStays(c: Config, t: seq<State>, j: nat, p: Pid)
    requires Run(c, t) && j + 1 < |t| && p in t[j].procs && Finished(t[j].procs[p])
    ensures p in t[j + 1].procs && t[j + 1].procs[p] == t[j].procs[p]
  {
    assert Next(c, t[j], t[j + 1]);
    var r, act :| Step(c, t[j], r, act) == Some(t[j + 1]);
  }

  // ---- Label ----

  // The store has an entry with these labels.
  predicate Shows(g: Shared, id: StoreId, labels: Labels) {
    id in g.es && g.es[id] in g.entries && g.entries[g.es[id]].labels == labels
  }

  ghost predicate Relabeled(s: State, p: Pid)
    requires p in s.procs && s.procs[p].Labeler?
  {
    var a := s.procs[p];
    && (a.lpc.StoreLabels? ==> Live(s.g, a.id, a.lpc.entry))
    && (a.lpc == LabelDone(Ok) ==> Shows(s.g, a.id, a.labels))
  }

  lemma RelabeledStays(c: Config, t: seq<State>, j: nat, p: Pid, id: StoreId)
    requires Injective(c.hash) && Run(c, t) && j + 1 < |t| && Undisturbed(t[j], id, p)
    requires p in t[j].procs && t[j].procs[p].Labeler? && t[j].procs[p].id == id && Relabeled(t[j], p)
    ensures p in t[j + 1].procs && SameCall(t[j].procs[p], t[j + 1].procs[p]) && Relabeled(t[j + 1], p)
  {
    RunKeepsInv(c, t, j);
    assert Next(c, t[j], t[j + 1]);
    var r, act :| Step(c, t[j], r, act) == Some(t[j + 1]);
    StepKeepsCall(c, t[j], r, act, p);
    if id in t[j].g.es {
      assert LiveEntry(t[j], id);
      if r != p { EntryStays(c, t, j, r, act, id); }
    }
  }

  lemma {:induction false} LabelStaysWritten(c: Config, t: seq<State>, b: nat, k: nat, p: Pid, id: StoreId)
    requires Injective(c.hash) && Run(c, t) && b <= k < |t| && Quiet(t, b, k, id, p)
    requires p in t[b].procs && t[b].procs[p].Labeler? && t[b].procs[p].id == id && t[b].procs[p].lpc == LoadToLabel
    ensures p in t[k].procs && SameCall(t[b].procs[p], t[k].procs[p]) && Relabeled(t[k], p)
    decreases k
  {
    if b < k {
      LabelStaysWritten(c, t, b, k - 1, p, id);
      assert Undisturbed(t[k - 1], id, p);
      RelabeledStays(c, t, k - 1, p, id);
    }
  }

  // A Get that has read labels read these, with content of the digest.
  ghost predicate ReadsLabels(c: Config, s: State, q: Pid, id: StoreId, labels: Labels) {
    q in s.procs && s.procs[q].Getter? && s.procs[q].id == id ==>
      match s.procs[q].gpc {
        case LoadToGet => true
        case ReadLabels(x) => Live(s.g, id, x)
        case GetDone(x) => x.Some? && x.value.1 == labels && c.hash(x.value.0) == c.digest
      }
  }

  lemma ReadsLabelsStays(c: Config, t: seq<State>, j: nat, q: Pid, id: StoreId, p: Pid)
    requires Injective(c.hash) && Run(c, t) && j + 1 < |t| && Undisturbed(t[j], id, p)
    requires p in t[j].procs && t[j].procs[p].Labeler? && t[j].procs[p].id == id && t[j].procs[p].lpc == LabelDone(Ok) && Relabeled(t[j], p)
    requires ReadsLabels(c, t[j], q, id, t[j].procs[p].labels)
    ensures ReadsLabels(c, t[j + 1], q, id, t[j].procs[p].labels)
  {
    RunKeepsInv(c, t, j);
    assert Next(c, t[j], t[j + 1]);
    var r, act :| Step(c, t[j], r, act) == Some(t[j + 1]);
    EntryStays(c, t, j, r, act, id);
    assert LiveEntry(t[j], id);
    if q in t[j].procs { StepKeepsCall(c, t[j], r, act, q); }
  }

  lemma ReadsOnceMore(c: Config, t: seq<State>, b: nat, j: nat, p: Pid, q: Pid)
    requires Injective(c.hash) && Run(c, t) && b <= j && j + 1 < |t|
    requires p in t[b].procs && t[b].procs[p].Labeler? && t[b].procs[p].lpc == LoadToLabel
    requires p in t[j].procs && t[j].procs[p].Labeler? && t[j].procs[p].lpc == LabelDone(Ok)
    requires Quiet(t, b, j, t[b].procs[p].id, p) && Undisturbed(t[j], t[b].procs[p].id, p)
    requires ReadsLabels(c, t[j], q, t[b].procs[p].id, t[b].procs[p].labels)
    ensures ReadsLabels(c, t[j + 1], q, t[b].procs[p].id, t[b].procs[p].labels)
  {
    LabelStaysWritten(c, t, b, j, p, t[b].procs[p].id);
    ReadsLabelsStays(c, t, j, q, t[b].procs[p].id, p);
  }

  lemma {:induction false} GetReadsRelabeled(c: Config, t: seq<State>, b: nat, i: nat, k: nat, p: Pid, q: Pid)
    requires Injective(c.hash) && Run(c, t) && b <= i <= k < |t|
    requires p in t[b].procs && t[b].procs[p].Labeler? && t[b].procs[p].lpc == LoadToLabel
    requires p in t[i].procs && t[i].procs[p].Labeler? && t[i].procs[p].lpc == LabelDone(Ok)
    requires Quiet(t, b, k, t[b].procs[p].id, p) && q !in t[i].procs
    ensures p in t[k].procs && t[k].procs[p] == t[i].procs[p]
    ensures ReadsLabels(c, t[k], q, t[b].procs[p].id, t[b].procs[p].labels)
    decreases k
  {
    if i < k {
      GetReadsRelabeled(c, t, b, i, k - 1, p, q);
      DoneStays(c, t, k - 1, p);
      assert Undisturbed(t[k - 1], t[b].procs[p].id, p);
      ReadsOnceMore(c, t, b, k - 1, p, q);
    }
  }

  // A Get that begins after the Label has returned Ok returns content of the digest, with
  // these labels.
  lemma GetAfterLabel(c: Config, t: seq<State>, b: nat, i: nat, k: nat, p: Pid, q: Pid)
    requires Injective(c.hash) && Run(c, t) && b <= i <= k < |t|
    requires p in t[b].procs && t[b].procs[p].Labeler? && t[b].procs[p].lpc == LoadToLabel
    requires p in t[i].procs && t[i].procs[p].Labeler? && t[i].procs[p].lpc == LabelDone(Ok)
    requires Quiet(t, b, k, t[b].procs[p].id, p)
    requires q !in t[i].procs && q in t[k].procs && t[k].procs[q].Getter? && t[k].procs[q].id == t[b].procs[p].id && Finished(t[k].procs[q])
    ensures var got := t[k].procs[q].gpc.got; got.Some? && got.value.1 == t[b].procs[p].labels && c.hash(got.value.0) == c.digest
  {
    GetReadsRelabeled(c, t, b, i, k, p, q);
  }

  // ---- Erase ----

  ghost predicate NoAdds(t: seq<State>, b: nat, k: nat, id: StoreId) {
    forall j: nat, q :: b <= j <= k && j < |t| && q in t[j].procs ==> !Adding(t[j].procs[q], id)
  }

  predicate Adding(a: Proc, id: StoreId) {
    a.Adder? && a.id == id && !Finished(a)
  }

  // The store has no entry, and a Get that has begun since finds none.
  ghost predicate Gone(s: State, p: Pid, id: StoreId) {
    p in s.procs && s.procs[p].Eraser? && s.procs[p].id == id && (s.procs[p].epc.Detach? || id !in s.g.es)
  }

  ghost predicate ReadsNothing(s: State, q: Pid, id: StoreId) {
    q in s.procs && s.procs[q].Getter? && s.procs[q].id == id ==> s.procs[q].gpc == LoadToGet || s.procs[q].gpc == GetDone(None)
  }

  lemma AbsentStays(c: Config, t: seq<State>, j: nat, r: Pid, act: Action, id: StoreId)
    requires Run(c, t) && j + 1 < |t| && Step(c, t[j], r, act) == Some(t[j + 1]) && id !in t[j].g.es
    requires r in t[j].procs ==> !Adding(t[j].procs[r], id)
    ensures id !in t[j + 1].g.es
  {
    if act.Advance? && t[j].procs[r].Adder? { AddTouchesOwnEntry(c, t[j].g, r, t[j].procs[r]); }
  }

  lemma GoneStays(c: Config, t: seq<State>, j: nat, p: Pid, id: StoreId)
    requires Run(c, t) && j + 1 < |t| && Gone(t[j], p, id) && forall q :: q in t[j].procs ==> !Adding(t[j].procs[q], id)
    ensures Gone(t[j + 1], p, id)
  {
    assert Next(c, t[j], t[j + 1]);
    var r, act :| Step(c, t[j], r, act) == Some(t[j + 1]);
    StepKeepsCall(c, t[j], r, act, p);
    if id !in t[j].g.es { AbsentStays(c, t, j, r, act, id); }
  }

  lemma {:induction false} ErasedStaysGone(c: Config, t: seq<State>, b: nat, k: nat, p: Pid, id: StoreId)
    requires Run(c, t) && b <= k < |t| && NoAdds(t, b, k, id)
    requires p in t[b].procs && t[b].procs[p].Eraser? && t[b].procs[p].id == id && t[b].procs[p].epc == Detach
    ensures Gone(t[k], p, id)
    decreases k
  {
    if b < k {
      ErasedStaysGone(c, t, b, k - 1, p, id);
      GoneStays(c, t, k - 1, p, id);
    }
  }

  lemma {:induction false} GetReadsNothing(c: Config, t: seq<State>, b: nat, i: nat, k: nat, p: Pid, q: Pid, id: StoreId)
    requires Run(c, t) && b <= i <= k < |t| && NoAdds(t, b, k, id) && q !in t[i].procs
    requires p in t[b].procs && t[b].procs[p].Eraser? && t[b].procs[p].id == id && t[b].procs[p].epc == Detach
    requires p in t[i].procs && t[i].procs[p].Eraser? && t[i].procs[p].epc == EraseDone
    ensures p in t[k].procs && t[k].procs[p] == t[i].procs[p] && ReadsNothing(t[k], q, id)
    decreases k
  {
    if i < k {
      GetReadsNothing(c, t, b, i, k - 1, p, q, id);
      ErasedStaysGone(c, t, b, k - 1, p, id);
      DoneStays(c, t, k - 1, p);
      assert Next(c, t[k - 1], t[k - 1 + 1]);
      var r, act :| Step(c, t[k - 1], r, act) == Some(t[k]);
      if q in t[k - 1].procs { StepKeepsCall(c, t[k - 1], r, act, q); }
    }
  }

  // A Get that begins after the Erase has returned finds nothing, unless an Add of the
  // store runs.
  lemma GetAfterErase(c: Config, t: seq<State>, b: nat, i: nat, k: nat, p: Pid, q: Pid)
    requires Run(c, t) && b <= i <= k < |t| && q !in t[i].procs
    requires p in t[b].procs && t[b].procs[p].Eraser? && t[b].procs[p].epc == Detach
    requires p in t[i].procs && t[i].procs[p].Eraser? && t[i].procs[p].epc == EraseDone && NoAdds(t, b, k, t[b].procs[p].id)
    requires q in t[k].procs && t[k].procs[q].Getter? && t[k].procs[q].id == t[b].procs[p].id && Finished(t[k].procs[q])
    ensures t[k].procs[q].gpc.got == None
  {
    GetReadsNothing(c, t, b, i, k, p, q, t[b].procs[p].id);
  }
}
