/** The in-memory store is linearizable: the log below orders the calls of any
    concurrent run like a sequential history of the map from stores to entries,
    each call at a point inside its own interval.

    Add takes effect at its look-up or insertion in the store's map, Erase at its
    LoadAndDelete, Get and Label at their access to the labels, unless the
    entry has been detached in the meantime: then just before that Erase.
 */
module MemLinear {
  import opened Base
  import opened MemProtocol
  import opened MemInvariant
  import opened MemSteps
  import opened MemSafety

  // ---- The sequential specification ----

  datatype Item = Item(content: Bytes, labels: Labels)
  type Spec = map<StoreId, Item>

  datatype Op =
    | OpAdd(id: StoreId, content: Bytes, labels: Labels, given: bool)
    | OpErase(id: StoreId) | OpLabel(id: StoreId, labels: Labels) | OpGet(id: StoreId)

  datatype Out = Res(res: Result) | Got(item: Option<(Bytes, Labels)>)

  function SpecStep(c: Config, m: Spec, op: Op): (Spec, Out) {
    match op
    case OpAdd(id, content, labels, given) =>
      if given && id in m then (m, Res(AlreadyExists))
      else if c.hash(content) != c.digest then (m, Res(DigestMismatch))
      else if id in m then (m, Res(AlreadyExists))
      else (m[id := Item(content, labels)], Res(Ok))
    case OpErase(id) => (m - {id}, Res(Ok))
    case OpLabel(id, labels) =>
      if id in m then (m[id := m[id].(labels := labels)], Res(Ok)) else (m, Res(NotExist))
    case OpGet(id) =>
      (m, Got(if id in m then Some((m[id].content, m[id].labels)) else None))
  }

  // `at` is when the call takes effect; `cut` names the entry an Erase detached.
  datatype Event = Event(pid: Pid, op: Op, out: Out, at: nat, cut: Option<EntryId>)

  function Replay(c: Config, log: seq<Event>): Spec {
    if log == [] then map[] else SpecStep(c, Replay(c, log[..|log| - 1]), log[|log| - 1].op).0
  }

  ghost predicate Legal(c: Config, log: seq<Event>) {
    forall i :: 0 <= i < |log| ==> log[i].out == SpecStep(c, Replay(c, log[..i]), log[i].op).1
  }

  // ---- Histories ----

  datatype History = History(s: State, log: seq<Event>, now: nat, began: map<Pid, nat>, ended: map<Pid, nat>)

  const BLANK := History(INITIAL, [], 0, map[], map[])

  function OpOf(a: Proc): Op {
    match a
    case Adder(id, content, labels, given, _, _, _) => OpAdd(id, content, labels, given)
    case Eraser(id, _) => OpErase(id)
    case Labeler(id, labels, _) => OpLabel(id, labels)
    case Getter(id, _) => OpGet(id)
  }

  // What a call will answer, once that is settled.
  function Settled(c: Config, a: Proc): Option<Out> {
    match a
    case Adder(_, content, _, _, pc, _, _) =>
      (match pc
       case ReadAll => if c.hash(content) != c.digest then Some(Res(DigestMismatch)) else None
       case Inc(_) => Some(Res(Ok))
       case Unlock(_, out) => Some(Res(out))
       case AddDone(res) => Some(Res(res))
       case _ => None)
    case Eraser(_, pc) => if pc.Detach? then None else Some(Res(Ok))
    case Labeler(_, _, pc) => if pc.LabelDone? then Some(Res(pc.res)) else None
    case Getter(_, pc) => if pc.GetDone? then Some(Got(pc.got)) else None
  }

  // The entry a Label or Get has loaded and not yet accessed.
  function Loaded(a: Proc): Option<EntryId> {
    match a
    case Labeler(_, _, pc) => if pc.StoreLabels? then Some(pc.entry) else None
    case Getter(_, pc) => if pc.ReadLabels? then Some(pc.entry) else None
    case _ => None
  }

  predicate Live(g: Shared, id: StoreId, e: EntryId) {
    id in g.es && g.es[id] == e
  }

  ghost function CutIndex(log: seq<Event>, e: EntryId): (k: nat)
    ensures k <= |log|
  {
    if exists i :: 0 <= i < |log| && log[i].cut == Some(e) then
      var i :| 0 <= i < |log| && log[i].cut == Some(e); i
    else |log|
  }

  // Where the call that settles in this step goes in the log.
  ghost function Place(h: History, p: Pid): (k: nat)
    requires p in h.s.procs
    ensures k <= |h.log|
  {
    var a := h.s.procs[p];
    if Loaded(a).Some? && !Live(h.s.g, a.id, Loaded(a).value) then CutIndex(h.log, Loaded(a).value) else |h.log|
  }

  function CutBy(g: Shared, a: Proc): Option<EntryId> {
    if a.Eraser? && a.epc.Detach? && a.id in g.es then Some(g.es[a.id]) else None
  }

  function PlaceAt(log: seq<Event>, k: nat, ev: Event): seq<Event>
    requires k <= |log|
  {
    log[..k] + [ev] + log[k..]
  }

  ghost function NewEvent(h: History, p: Pid, out: Out): Event
    requires p in h.s.procs
  {
    var k := Place(h, p);
    var a := h.s.procs[p];
    Event(p, OpOf(a), out, if k < |h.log| then h.log[k].at else h.now, CutBy(h.s.g, a))
  }

  ghost function Advanced(c: Config, h: History, p: Pid, m: Move): History
    requires p in h.s.procs
  {
    var a := h.s.procs[p];
    History(
      Moved(h.s, p, m),
      if Settled(c, a).None? && Settled(c, m.proc).Some? then
        PlaceAt(h.log, Place(h, p), NewEvent(h, p, Settled(c, m.proc).value))
      else h.log,
      h.now + 1,
      h.began,
      if Finished(m.proc) && !Finished(a) then h.ended[p := h.now] else h.ended)
  }

  function Began(h: History, p: Pid, call: Proc): History {
    h.(s := State(h.s.g, h.s.procs[p := call]), now := h.now + 1, began := h.began[p := h.now])
  }

  // The history of a step of the protocol; the log only records, it decides nothing.
  ghost function Record(c: Config, h: History, p: Pid, act: Action): (h': History)
    requires Step(c, h.s, p, act).Some?
    ensures h'.s == Step(c, h.s, p, act).value
  {
    match act
    case Start(call) => Began(h, p, call)
    case Advance => Advanced(c, h, p, ProcStep(c, h.s.g, p, h.s.procs[p]).value)
  }

  // ---- Linearizability ----

  predicate Closed(g: Shared) {
    forall id :: id in g.es ==> g.es[id] in g.entries && g.entries[g.es[id]].blob in g.blobs
  }

  function View(g: Shared): Spec
    requires Closed(g)
  {
    map id | id in g.es :: Item(g.blobs[g.entries[g.es[id]].blob].data, g.entries[g.es[id]].labels)
  }

  // The log is a sequential history that explains the run.
  ghost predicate Explains(c: Config, h: History) {
    // It is a history of the specification, and leads to what the store holds now.
    && Legal(c, h.log) && Closed(h.s.g) && Replay(c, h.log) == View(h.s.g)
    // Every call is in it once its answer is settled, once, with that answer.
    && Faithful(c, h) && Complete(c, h)
    // Calls take effect in log order.
    && Ordered(h.log)
  }

  ghost predicate Faithful(c: Config, h: History) {
    && (forall i, j :: 0 <= i < j < |h.log| ==> h.log[i].pid != h.log[j].pid)
    && (forall i: nat {:trigger Recorded(c, h, i)} :: i < |h.log| ==> Recorded(c, h, i))
  }

  ghost predicate Complete(c: Config, h: History) {
    forall p {:trigger Settled(c, h.s.procs[p])} :: p in h.s.procs && Settled(c, h.s.procs[p]).Some? ==>
      exists i :: 0 <= i < |h.log| && h.log[i].pid == p
  }

  ghost predicate Ordered(log: seq<Event>) {
    forall i, j :: 0 <= i < j < |log| ==> log[i].at <= log[j].at
  }

  // The i-th event is a call with its settled answer, and takes effect between its
  // beginning and its end.
  ghost predicate Recorded(c: Config, h: History, i: nat)
    requires i < |h.log|
  {
    var ev := h.log[i];
    && ev.pid in h.s.procs && ev.op == OpOf(h.s.procs[ev.pid])
    && Settled(c, h.s.procs[ev.pid]) == Some(ev.out)
    && ev.pid in h.began && h.began[ev.pid] <= ev.at < h.now
    && (ev.pid in h.ended ==> ev.at <= h.ended[ev.pid])
  }

  // ---- Placing an event in a log ----

  lemma {:induction false} ReplayAfter(c: Config, log: seq<Event>, k: nat, ev: Event, j: nat)
    requires k < j <= |log|
    requires Replay(c, PlaceAt(log, k, ev)[..k + 2]) == Replay(c, log[..k + 1])
    ensures Replay(c, PlaceAt(log, k, ev)[..j + 1]) == Replay(c, log[..j])
    decreases j
  {
    if j > k + 1 {
      ReplayAfter(c, log, k, ev, j - 1);
      var log' := PlaceAt(log, k, ev);
      assert log'[..j + 1][..j] == log'[..j] && log'[..j + 1][j] == log[j - 1];
      assert log[..j][..j - 1] == log[..j - 1];
    }
  }

  lemma ReplayBefore(c: Config, log: seq<Event>, k: nat, ev: Event, j: nat)
    requires j <= k <= |log|
    ensures Replay(c, PlaceAt(log, k, ev)[..j]) == Replay(c, log[..j])
  {
    assert PlaceAt(log, k, ev)[..j] == log[..j];
  }

  lemma ReplayPlaced(c: Config, log: seq<Event>, k: nat, ev: Event)
    requires k <= |log|
    ensures Replay(c, PlaceAt(log, k, ev)[..k + 1]) == SpecStep(c, Replay(c, log[..k]), ev.op).0
  {
    var log' := PlaceAt(log, k, ev);
    assert log'[..k + 1][..k] == log[..k] && log'[..k + 1][k] == ev;
  }

  lemma AppendIsLegal(c: Config, log: seq<Event>, ev: Event)
    requires Legal(c, log) && ev.out == SpecStep(c, Replay(c, log), ev.op).1
    ensures var log' := PlaceAt(log, |log|, ev);
            Legal(c, log') && Replay(c, log') == SpecStep(c, Replay(c, log), ev.op).0
  {
    var log' := PlaceAt(log, |log|, ev);
    assert log[..|log|] == log && log' == log + [ev];
    assert log'[..|log'| - 1] == log;
    forall i | 0 <= i < |log'| ensures log'[i].out == SpecStep(c, Replay(c, log'[..i]), log'[i].op).1 {
      if i < |log| { assert log'[..i] == log[..i]; } else { assert log'[..i] == log; }
    }
  }

  // A Label or Get placed right before the Erase of its entry leaves no trace in
  // what comes after.
  lemma CutIsTraceless(c: Config, log: seq<Event>, k: nat, ev: Event, id: StoreId)
    requires k < |log| && log[k].op == OpErase(id)
    requires (ev.op.OpLabel? || ev.op.OpGet?) && ev.op.id == id
    ensures var log' := PlaceAt(log, k, ev);
            && Replay(c, log') == Replay(c, log)
            && (forall j :: k < j <= |log| ==> Replay(c, log'[..j + 1]) == Replay(c, log[..j]))
  {
    var log' := PlaceAt(log, k, ev);
    var before := Replay(c, log[..k]);
    ReplayPlaced(c, log, k, ev);
    assert log'[..k + 2][..k + 1] == log'[..k + 1] && log'[..k + 2][k + 1] == log[k];
    assert log[..k + 1][..k] == log[..k];
    assert SpecStep(c, before, ev.op).0 - {id} == before - {id};
    forall j | k < j <= |log| ensures Replay(c, log'[..j + 1]) == Replay(c, log[..j]) {
      ReplayAfter(c, log, k, ev, j);
    }
    assert log'[..|log| + 1] == log' && log[..|log|] == log;
  }

  lemma CutIsLegal(c: Config, log: seq<Event>, k: nat, ev: Event, id: StoreId)
    requires Legal(c, log) && k < |log| && log[k].op == OpErase(id)
    requires (ev.op.OpLabel? || ev.op.OpGet?) && ev.op.id == id
    requires ev.out == SpecStep(c, Replay(c, log[..k]), ev.op).1
    ensures Legal(c, PlaceAt(log, k, ev))
  {
    var log' := PlaceAt(log, k, ev);
    CutIsTraceless(c, log, k, ev, id);
    forall i | 0 <= i < |log'| ensures log'[i].out == SpecStep(c, Replay(c, log'[..i]), log'[i].op).1 {
      if i <= k {
        ReplayBefore(c, log, k, ev, i);
      } else if i > k + 1 {
        assert log'[i] == log[i - 1] && log'[..i] == log'[..i - 1 + 1];
      }
    }
  }
}
