/** The in-memory protocol of mem.go, one atomic step at a time: concurrent maps,
    blob mutexes, the optimistic retry of Add and the unserialised Label and Erase.

    As in OsProtocol, a State is everything that concerns one digest; MemSystem
    puts the digests together.
 */
module MemProtocol {
  import opened Base

  type Pid = nat      // one per call
  type BlobId = Pid   // a memBlob is named by the Add that allocated it
  type EntryId = Pid  // so is a memEntry

  datatype Blob = Blob(data: Bytes, refs: nat, lock: Option<Pid>)
  datatype Entry = Entry(blob: BlobId, labels: Labels)

  datatype AddPc =
    | PreLoad | ReadAll | LockNew | Publish | ReleaseNew(seen: BlobId) | WantLock(seen: BlobId) | Check(seen: BlobId)
    | Insert(blob: BlobId) | Inc(blob: BlobId) | Unlock(blob: BlobId, out: Result) | AddDone(res: Result)

  datatype ErasePc =
    | Detach | WantDrop(blob: BlobId) | Drop(blob: BlobId) | Delete(blob: BlobId) | Release(blob: BlobId) | EraseDone

  datatype LabelPc = LoadToLabel | StoreLabels(entry: EntryId) | LabelDone(res: Result)

  datatype GetPc = LoadToGet | ReadLabels(entry: EntryId) | GetDone(got: Option<(Bytes, Labels)>)

  // `given` tells whether the caller supplied the digest. `tried` and `retries`
  // are history: the blobs this Add found dead, and how often it started over.
  datatype Proc =
    | Adder(id: StoreId, content: Bytes, labels: Labels, given: bool, apc: AddPc, tried: set<BlobId>, retries: nat)
    | Eraser(id: StoreId, epc: ErasePc)
    | Labeler(id: StoreId, labels: Labels, lpc: LabelPc)
    | Getter(id: StoreId, gpc: GetPc)

  // `bs` is the global map's entry for the digest, `es` the entry of each store;
  // `dead` is history: the blobs ever deleted from the global map.
  datatype Shared = Shared(
    bs: Option<BlobId>,
    blobs: map<BlobId, Blob>,
    es: map<StoreId, EntryId>,
    entries: map<EntryId, Entry>,
    dead: set<BlobId>)

  datatype State = State(g: Shared, procs: map<Pid, Proc>)

  datatype Config = Config(hash: Hash, digest: Digest)

  datatype Move = Move(g: Shared, proc: Proc)

  const INITIAL := State(Shared(None, map[], map[], map[], {}), map[])

  const MAX_UINT: nat := 0xFFFF_FFFF_FFFF_FFFF

  // refs is a Go uint.
  function Decremented(refs: nat): nat {
    if refs == 0 then MAX_UINT else refs - 1
  }

  function SetLock(g: Shared, b: BlobId, owner: Option<Pid>): Shared
    requires b in g.blobs
  {
    g.(blobs := g.blobs[b := g.blobs[b].(lock := owner)])
  }

  function SetRefs(g: Shared, b: BlobId, refs: nat): Shared
    requires b in g.blobs
  {
    g.(blobs := g.blobs[b := g.blobs[b].(refs := refs)])
  }

  function AddStep(c: Config, g: Shared, p: Pid, a: Proc): (m: Option<Move>)
    requires a.Adder?
    ensures m.Some? ==> m.value.proc.Adder? && m.value.proc.id == a.id
  {
    match a.apc
    case PreLoad =>
      Some(Move(g, a.(apc := if a.given && a.id in g.es then AddDone(AlreadyExists) else ReadAll)))
    case ReadAll =>
      if c.hash(a.content) != c.digest then Some(Move(g, a.(apc := AddDone(DigestMismatch))))
      else Some(Move(g.(blobs := g.blobs[p := Blob(a.content, 0, None)]), a.(apc := LockNew)))
    case LockNew =>
      if p !in g.blobs || g.blobs[p].lock.Some? then None
      else Some(Move(SetLock(g, p, Some(p)), a.(apc := Publish)))
    case Publish =>
      if g.bs.None? then Some(Move(g.(bs := Some(p)), a.(apc := Insert(p))))
      else Some(Move(g, a.(apc := ReleaseNew(g.bs.value))))
    case ReleaseNew(b) =>
      if p !in g.blobs then None
      else Some(Move(SetLock(g, p, None), a.(apc := WantLock(b))))
    case WantLock(b) =>
      if b !in g.blobs || g.blobs[b].lock.Some? then None
      else Some(Move(SetLock(g, b, Some(p)), a.(apc := Check(b))))
    case Check(b) =>
      if b !in g.blobs then None
      else if g.blobs[b].refs == 0 then
        Some(Move(SetLock(g, b, None), a.(apc := LockNew, tried := a.tried + {b}, retries := a.retries + 1)))
      else Some(Move(g, a.(apc := Insert(b))))
    case Insert(b) =>
      if a.id in g.es then Some(Move(g, a.(apc := Unlock(b, AlreadyExists))))
      else Some(Move(g.(es := g.es[a.id := p], entries := g.entries[p := Entry(b, a.labels)]), a.(apc := Inc(b))))
    case Inc(b) =>
      if b !in g.blobs then None
      else Some(Move(SetRefs(g, b, g.blobs[b].refs + 1), a.(apc := Unlock(b, Ok))))
    case Unlock(b, out) =>
      if b !in g.blobs then None
      else Some(Move(SetLock(g, b, None), a.(apc := AddDone(out))))
    case AddDone(_) => None
  }

  function EraseStep(g: Shared, p: Pid, a: Proc): (m: Option<Move>)
    requires a.Eraser?
    ensures m.Some? ==> m.value.proc.Eraser? && m.value.proc.id == a.id
  {
    match a.epc
    case Detach =>
      if a.id !in g.es then Some(Move(g, a.(epc := EraseDone)))
      else if g.es[a.id] !in g.entries then None
      else Some(Move(g.(es := g.es - {a.id}), a.(epc := WantDrop(g.entries[g.es[a.id]].blob))))
    case WantDrop(b) =>
      if b !in g.blobs || g.blobs[b].lock.Some? then None
      else Some(Move(SetLock(g, b, Some(p)), a.(epc := Drop(b))))
    case Drop(b) =>
      if b !in g.blobs then None
      else
        var left := Decremented(g.blobs[b].refs);
        Some(Move(SetRefs(g, b, left), a.(epc := if left > 0 then Release(b) else Delete(b))))
    case Delete(b) =>
      Some(Move(g.(bs := None, dead := g.dead + (if g.bs.Some? then {g.bs.value} else {})), a.(epc := Release(b))))
    case Release(b) =>
      if b !in g.blobs then None
      else Some(Move(SetLock(g, b, None), a.(epc := EraseDone)))
    case EraseDone => None
  }

  function LabelStep(g: Shared, a: Proc): (m: Option<Move>)
    requires a.Labeler?
    ensures m.Some? ==> m.value.proc.Labeler? && m.value.proc.id == a.id
  {
    match a.lpc
    case LoadToLabel =>
      Some(Move(g, a.(lpc := if a.id in g.es then StoreLabels(g.es[a.id]) else LabelDone(NotExist))))
    case StoreLabels(e) =>
      if e !in g.entries then None
      else Some(Move(g.(entries := g.entries[e := g.entries[e].(labels := a.labels)]), a.(lpc := LabelDone(Ok))))
    case LabelDone(_) => None
  }

  // Get and Open: the bytes and the labels are read through the loaded entry.
  function GetStep(g: Shared, a: Proc): (m: Option<Move>)
    requires a.Getter?
    ensures m.Some? ==> m.value.proc.Getter? && m.value.proc.id == a.id
  {
    match a.gpc
    case LoadToGet =>
      Some(Move(g, a.(gpc := if a.id in g.es then ReadLabels(g.es[a.id]) else GetDone(None))))
    case ReadLabels(e) =>
      if e !in g.entries || g.entries[e].blob !in g.blobs then None
      else Some(Move(g, a.(gpc := GetDone(Some((g.blobs[g.entries[e].blob].data, g.entries[e].labels))))))
    case GetDone(_) => None
  }

  function ProcStep(c: Config, g: Shared, p: Pid, a: Proc): Option<Move> {
    match a
    case Adder(_, _, _, _, _, _, _) => AddStep(c, g, p, a)
    case Eraser(_, _) => EraseStep(g, p, a)
    case Labeler(_, _, _) => LabelStep(g, a)
    case Getter(_, _) => GetStep(g, a)
  }

  function Moved(s: State, p: Pid, m: Move): State {
    State(m.g, s.procs[p := m.proc])
  }

  predicate Finished(a: Proc) {
    match a
    case Adder(_, _, _, _, pc, _, _) => pc.AddDone?
    case Eraser(_, pc) => pc.EraseDone?
    case Labeler(_, _, pc) => pc.LabelDone?
    case Getter(_, pc) => pc.GetDone?
  }

  // A call about to begin. Without a supplied digest, the content's own digest is
  // the one of this component.
  predicate IsCall(c: Config, a: Proc) {
    match a
    case Adder(_, content, _, given, pc, tried, retries) =>
      pc == PreLoad && tried == {} && retries == 0 && (given || c.hash(content) == c.digest)
    case Eraser(_, pc) => pc == Detach
    case Labeler(_, _, pc) => pc == LoadToLabel
    case Getter(_, pc) => pc == LoadToGet
  }

  datatype Action = Start(call: Proc) | Advance

  function Step(c: Config, s: State, p: Pid, act: Action): Option<State> {
    match act
    case Start(call) =>
      if p in s.procs || !IsCall(c, call) then None else Some(State(s.g, s.procs[p := call]))
    case Advance =>
      if p !in s.procs || ProcStep(c, s.g, p, s.procs[p]).None? then None
      else Some(Moved(s, p, ProcStep(c, s.g, p, s.procs[p]).value))
  }

  ghost predicate Next(c: Config, s: State, s': State) {
    exists p, act :: Step(c, s, p, act) == Some(s')
  }

  ghost predicate Run(c: Config, t: seq<State>) {
    && |t| > 0
    && t[0] == INITIAL
    && forall k :: 0 <= k < |t| - 1 ==> Next(c, t[k], t[k + 1])
  }

  ghost predicate Reachable(c: Config, s: State) {
    exists t :: Run(c, t) && t[|t| - 1] == s
  }
}
