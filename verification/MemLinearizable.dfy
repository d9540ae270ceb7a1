/** Main results of the linearizability proof. */
module MemLinearizable {
  import opened Base
  import opened MemProtocol
  import opened MemInvariant
  import opened MemSafety
  import opened MemLinear
  import opened MemLinearProof

  // The histories of the first states of a run, one for each.
  ghost predicate Tells(c: Config, hs: seq<History>, t: seq<State>) {
    && 0 < |hs| <= |t| && hs[0] == BLANK
    && (forall k :: 0 <= k < |hs| ==> hs[k].s == t[k])
    && (forall k :: 0 <= k < |hs| - 1 ==> Records(c, hs[k], hs[k + 1]))
  }

  ghost predicate Records(c: Config, h: History, h': History) {
    exists p, act :: Step(c, h.s, p, act).Some? && h' == Record(c, h, p, act)
  }

  lemma BlankExplains(c: Config)
    ensures LinInv(c, BLANK)
  {
    BlankInv(c);
    BlankLog(c);
  }

  lemma BlankInv(c: Config)
    ensures Inv(c, INITIAL)
  {
  }

  lemma BlankLog(c: Config)
    ensures Explains(c, BLANK) && CutInv(c, INITIAL, []) && TimeInv(BLANK)
  {
    BlankView(c);
    BlankCuts(c);
  }

  lemma BlankView(c: Config)
    ensures Closed(INITIAL.g) && Replay(c, []) == View(INITIAL.g)
  {
  }

  lemma BlankCuts(c: Config)
    ensures CutInv(c, INITIAL, [])
  {
  }

  lemma RecordedIsExplained(c: Config, h: History, h': History)
    requires Injective(c.hash) && LinInv(c, h) && Records(c, h, h')
    ensures LinInv(c, h')
  {
    var p, act :| Step(c, h.s, p, act).Some? && h' == Record(c, h, p, act);
    RecordKeepsLinInv(c, h, p, act);
  }

  lemma {:induction false} ToldIsExplained(c: Config, hs: seq<History>, t: seq<State>, k: nat)
    requires Injective(c.hash) && Tells(c, hs, t) && k < |hs|
    ensures LinInv(c, hs[k])
    decreases k
  {
    if k == 0 {
      BlankExplains(c);
    } else {
      ToldIsExplained(c, hs, t, k - 1);
      assert Records(c, hs[k - 1], hs[k - 1 + 1]);
      RecordedIsExplained(c, hs[k - 1], hs[k]);
    }
  }

  lemma NextIsTold(c: Config, hs: seq<History>, t: seq<State>) returns (h': History)
    requires Tells(c, hs, t) && |hs| < |t| && Next(c, t[|hs| - 1], t[|hs|])
    ensures Tells(c, hs + [h'], t)
  {
    var h := hs[|hs| - 1];
    var p, act :| Step(c, h.s, p, act) == Some(t[|hs|]);
    h' := Record(c, h, p, act);
    assert Records(c, h, h');
    TellsLonger(c, hs, t, h');
  }

  lemma TellsLonger(c: Config, hs: seq<History>, t: seq<State>, h': History)
    requires Tells(c, hs, t) && |hs| < |t| && Records(c, hs[|hs| - 1], h') && h'.s == t[|hs|]
    ensures Tells(c, hs + [h'], t)
  {
  }

  lemma {:induction false} RunIsTold(c: Config, t: seq<State>, n: nat) returns (hs: seq<History>)
    requires Run(c, t) && n < |t|
    ensures |hs| == n + 1 && Tells(c, hs, t)
  {
    if n == 0 {
      hs := [BLANK];
    } else {
      var before := RunIsTold(c, t, n - 1);
      assert Next(c, t[n - 1], t[n - 1 + 1]);
      var h' := NextIsTold(c, before, t);
      hs := before + [h'];
    }
  }

  // Every concurrent run is explained, at every moment, by a sequential history.
  lemma Linearizable(c: Config, t: seq<State>)
    requires Injective(c.hash) && Run(c, t)
    ensures exists hs :: |hs| == |t| && Tells(c, hs, t) && forall k :: 0 <= k < |hs| ==> Explains(c, hs[k])
  {
    var hs := RunIsTold(c, t, |t| - 1);
    forall k | 0 <= k < |hs| ensures Explains(c, hs[k]) {
      ToldIsExplained(c, hs, t, k);
    }
  }

  // A call that returned before another began comes first in the sequential history.
  lemma RealTimeOrder(c: Config, h: History, i: nat, j: nat)
    requires Explains(c, h) && i < |h.log| && j < |h.log|
    requires h.log[i].pid in h.ended && h.log[j].pid in h.began && h.ended[h.log[i].pid] < h.began[h.log[j].pid]
    ensures i < j
  {
    assert Recorded(c, h, i) && Recorded(c, h, j);
  }

  // A call that has returned is in the history exactly once, with the answer it
  // gave, which is the answer of the specification after the events before it.
  lemma AnswersAreLegal(c: Config, h: History, p: Pid) returns (i: nat)
    requires Legal(c, h.log) && Faithful(c, h) && Complete(c, h) && p in h.s.procs && Finished(h.s.procs[p])
    ensures i < |h.log| && h.log[i].pid == p && h.log[i].op == OpOf(h.s.procs[p])
    ensures Settled(c, h.s.procs[p]) == Some(SpecStep(c, Replay(c, h.log[..i]), h.log[i].op).1)
    ensures forall j: nat :: j < |h.log| && h.log[j].pid == p ==> j == i
  {
    FinishedIsSettled(c, h.s.procs[p]);
    i :| 0 <= i < |h.log| && h.log[i].pid == p;
    assert Recorded(c, h, i);
  }

  lemma FinishedIsSettled(c: Config, a: Proc)
    requires Finished(a)
    ensures Settled(c, a).Some?
  {
  }

  // No store has the entry.
  predicate Detached(g: Shared, e: EntryId) {
    e in g.entries && forall id :: id in g.es ==> g.es[id] != e
  }

  lemma StepKeepsDetached(c: Config, s: State, p: Pid, act: Action, e: EntryId)
    requires Inv(c, s) && Detached(s.g, e) && Step(c, s, p, act).Some?
    ensures Detached(Step(c, s, p, act).value.g, e)
  {
    if act.Advance? {
      match s.procs[p]
      case Adder(_, _, _, _, _, _, _) =>
        AddTouchesOwnEntry(c, s.g, p, s.procs[p]);
        assert AddInv(c, s, p);
      case Eraser(_, _) => EraseKeepsEntries(s.g, p, s.procs[p]);
      case Labeler(_, _, _) =>
      case Getter(_, _) =>
    }
  }

  lemma EraseKeepsEntries(g: Shared, p: Pid, a: Proc)
    requires a.Eraser? && EraseStep(g, p, a).Some?
    ensures var g' := EraseStep(g, p, a).value.g; g'.entries == g.entries && forall id :: id in g'.es ==> id in g.es && g'.es[id] == g.es[id]
  {
  }

  lemma NextKeepsDetached(c: Config, s: State, s': State, e: EntryId)
    requires Inv(c, s) && Detached(s.g, e) && Next(c, s, s')
    ensures Detached(s'.g, e)
  {
    var p, act :| Step(c, s, p, act) == Some(s');
    StepKeepsDetached(c, s, p, act, e);
  }

  lemma {:induction false} DetachedForever(c: Config, t: seq<State>, j: nat, k: nat, e: EntryId)
    requires Run(c, t) && j <= k < |t| && Detached(t[j].g, e)
    ensures Detached(t[k].g, e)
    decreases k
  {
    if j < k {
      DetachedForever(c, t, j, k - 1, e);
      RunKeepsInv(c, t, k - 1);
      assert Next(c, t[k - 1], t[k - 1 + 1]);
      NextKeepsDetached(c, t[k - 1], t[k], e);
    }
  }

  function Relabeled(g: Shared, e: EntryId, labels: Labels): Shared
    requires e in g.entries
  {
    g.(entries := g.entries[e := g.entries[e].(labels := labels)])
  }

  lemma DetachedIsUnseen(c: Config, s: State, e: EntryId, labels: Labels)
    requires EntryInv(c, s) && Detached(s.g, e)
    ensures Closed(s.g) && Closed(Relabeled(s.g, e, labels)) && View(Relabeled(s.g, e, labels)) == View(s.g)
  {
    EntriesAreClosed(c, s);
  }

  // A Label whose entry an Erase has detached writes labels that nobody sees: at every
  // later moment, even when the store holds the digest again, what that entry holds
  // makes no difference.
  lemma LateLabelsNeverShow(c: Config, t: seq<State>, j: nat, k: nat, p: Pid, e: EntryId, labels: Labels)
    requires Injective(c.hash) && Run(c, t) && j <= k < |t| && p in t[j].procs && t[j].procs[p].Labeler?
    requires t[j].procs[p].lpc == StoreLabels(e) && !Live(t[j].g, t[j].procs[p].id, e)
    ensures e in t[k].g.entries && Closed(t[k].g) && Closed(Relabeled(t[k].g, e, labels))
    ensures View(Relabeled(t[k].g, e, labels)) == View(t[k].g)
  {
    OwnerOfLoaded(c, t, j, p);
    RunKeepsInv(c, t, j);
    forall x | x in t[j].g.es ensures t[j].g.es[x] != e {
      assert LiveEntry(t[j], x);
    }
    DetachedForever(c, t, j, k, e);
    RunKeepsInv(c, t, k);
    DetachedIsUnseen(c, t[k], e, labels);
  }

  lemma OwnerOfLoaded(c: Config, t: seq<State>, j: nat, p: Pid)
    requires Injective(c.hash) && Run(c, t) && j < |t| && p in t[j].procs && Loaded(t[j].procs[p]).Some?
    ensures var e := Loaded(t[j].procs[p]).value; e in t[j].g.entries && e in t[j].procs && t[j].procs[e].id == t[j].procs[p].id
  {
    var hs := RunIsTold(c, t, j);
    ToldIsExplained(c, hs, t, j);
    assert LoadedOk(hs[j], p);
  }
}
