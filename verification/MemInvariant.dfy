/** What every step of the in-memory protocol keeps. */
module MemInvariant {
  import opened Base
  import opened MemProtocol

  // The blob whose mutex a call holds.
  function Held(p: Pid, a: Proc): Option<BlobId> {
    match a
    case Adder(_, _, _, _, pc, _, _) =>
      (match pc
       case Publish | ReleaseNew(_) => Some(p)
       case Check(b) => Some(b)
       case Insert(b) => Some(b)
       case Inc(b) => Some(b)
       case Unlock(b, _) => Some(b)
       case _ => None)
    case Eraser(_, pc) =>
      (match pc
       case Drop(b) => Some(b)
       case Delete(b) => Some(b)
       case Release(b) => Some(b)
       case _ => None)
    case _ => None
  }

  // A call's program point and the mutexes agree on who holds what.
  ghost predicate LockInv(s: State) {
    && (forall p {:trigger Held(p, s.procs[p])} :: p in s.procs && Held(p, s.procs[p]).Some? ==>
          var b := Held(p, s.procs[p]).value; b in s.g.blobs && s.g.blobs[b].lock == Some(p))
    && (forall b {:trigger s.g.blobs[b].lock} :: b in s.g.blobs && s.g.blobs[b].lock.Some? ==>
          var p := s.g.blobs[b].lock.value; p in s.procs && Held(p, s.procs[p]) == Some(b))
  }

  // ---- Reference counts ----

  // The stores whose live entry points at b.
  function Holders(g: Shared, b: BlobId): set<StoreId> {
    set id | id in g.es && g.es[id] in g.entries && g.entries[g.es[id]].blob == b
  }

  predicate Dropping(a: Proc, b: BlobId) {
    a.Eraser? && (a.epc == WantDrop(b) || a.epc == Drop(b))
  }

  // The Erases that detached an entry of b and have not given its reference back.
  function Droppers(procs: map<Pid, Proc>, b: BlobId): set<Pid> {
    set p | p in procs && Dropping(procs[p], b)
  }

  // An Add has inserted its entry and not yet counted it; it holds the mutex.
  predicate Counting(s: State, b: BlobId)
    requires b in s.g.blobs
  {
    s.g.blobs[b].lock.Some? && s.g.blobs[b].lock.value in s.procs &&
    var a := s.procs[s.g.blobs[b].lock.value];
    a.Adder? && a.apc == Inc(b)
  }

  ghost predicate Counted(s: State, b: BlobId)
    requires b in s.g.blobs
  {
    s.g.blobs[b].refs + (if Counting(s, b) then 1 else 0) == |Holders(s.g, b)| + |Droppers(s.procs, b)|
  }

  ghost predicate CountInv(s: State) {
    forall b {:trigger Counted(s, b)} :: b in s.g.blobs ==> Counted(s, b)
  }

  // ---- Who may point where ----

  ghost predicate EntryInv(c: Config, s: State) {
    && (forall e :: e in s.g.entries ==> s.g.entries[e].blob in s.g.blobs)
    && (forall id {:trigger LiveEntry(s, id)} :: id in s.g.es ==> LiveEntry(s, id))
    && (s.g.bs.Some? ==> s.g.bs.value in s.g.blobs && s.g.bs.value !in s.g.dead)
    && (forall b :: b in s.g.blobs ==> c.hash(s.g.blobs[b].data) == c.digest)
    && (forall b :: b in s.g.dead ==> b in s.g.blobs && s.g.blobs[b].refs == 0)
    && (forall p {:trigger Named(s.g, p)} :: Named(s.g, p) ==> p in s.procs && s.procs[p].Adder?)
  }

  // p allocated something.
  predicate Named(g: Shared, p: Pid) {
    p in g.blobs || p in g.entries
  }

  // A live entry belongs to its store and points at the blob in the global map.
  ghost predicate LiveEntry(s: State, id: StoreId)
    requires id in s.g.es
  {
    var e := s.g.es[id];
    && e in s.g.entries && e in s.procs && s.procs[e].Adder? && s.procs[e].id == id
    && s.g.bs == Some(s.g.entries[e].blob)
  }

  // Nobody has seen p's new blob yet.
  ghost predicate Unseen(g: Shared, p: Pid) {
    && p in g.blobs && p !in g.dead && g.bs != Some(p) && g.blobs[p].refs == 0
    && (forall e :: e in g.entries ==> g.entries[e].blob != p)
  }

  ghost predicate AddInv(c: Config, s: State, p: Pid)
    requires p in s.procs && s.procs[p].Adder?
  {
    var a := s.procs[p];
    var g := s.g;
    && a.tried <= g.dead && |a.tried| == a.retries
    && (a.given || c.hash(a.content) == c.digest)
    && (a.apc.PreLoad? || a.apc.ReadAll? || a.apc.AddDone? || c.hash(a.content) == c.digest)
    && match a.apc {
         case PreLoad | ReadAll => p !in g.blobs && p !in g.entries
         case LockNew | Publish => Unseen(g, p) && p !in g.entries
         case ReleaseNew(b) => Unseen(g, p) && p !in g.entries && Stale(g, a, p, b)
         case WantLock(b) => Unseen(g, p) && p !in g.entries && Stale(g, a, p, b)
         case Check(b) => Unseen(g, p) && p !in g.entries && Stale(g, a, p, b)
         case Insert(b) =>
           && p !in g.entries && g.bs == Some(b) && b in g.blobs
           && (b == p ==> g.blobs[b].refs == 0) && (b != p ==> g.blobs[b].refs > 0)
         case Inc(b) => g.bs == Some(b) && b in g.blobs && p in g.entries
         case Unlock(b, out) => Met(g, b) && (out == Ok || out == AlreadyExists)
         case AddDone(_) => true
       }
  }

  // b is or was in the global map.
  ghost predicate Met(g: Shared, b: BlobId) {
    b in g.blobs && (g.bs == Some(b) || b in g.dead)
  }

  // A blob this Add met in the global map; it may have died since, but it is not
  // one the Add already gave up on.
  ghost predicate Stale(g: Shared, a: Proc, p: Pid, b: BlobId)
    requires a.Adder?
  {
    Met(g, b) && b != p && b !in a.tried
  }

  ghost predicate EraseInv(s: State, p: Pid)
    requires p in s.procs && s.procs[p].Eraser?
  {
    match s.procs[p].epc
    case Detach | EraseDone => true
    case WantDrop(b) => s.g.bs == Some(b)
    case Drop(b) => s.g.bs == Some(b)
    case Delete(b) => s.g.bs == Some(b) && b in s.g.blobs && s.g.blobs[b].refs == 0
    case Release(b) => Met(s.g, b)
  }

  ghost predicate ProcInv(c: Config, s: State) {
    && (forall p {:trigger AddInv(c, s, p)} :: p in s.procs && s.procs[p].Adder? ==> AddInv(c, s, p))
    && (forall p {:trigger EraseInv(s, p)} :: p in s.procs && s.procs[p].Eraser? ==> EraseInv(s, p))
    && (forall p :: p in s.procs && s.procs[p].Labeler? && s.procs[p].lpc.StoreLabels? ==> s.procs[p].lpc.entry in s.g.entries)
    && (forall p :: p in s.procs && s.procs[p].Getter? && s.procs[p].gpc.ReadLabels? ==> s.procs[p].gpc.entry in s.g.entries)
  }

  // A count of zero in the global map is somebody's half-done work.
  ghost predicate ZeroInv(s: State) {
    s.g.bs.Some? && s.g.bs.value in s.g.blobs && s.g.blobs[s.g.bs.value].refs == 0 ==>
      var b := s.g.bs.value;
      s.g.blobs[b].lock.Some? && s.g.blobs[b].lock.value in s.procs &&
      var a := s.procs[s.g.blobs[b].lock.value];
      (a.Adder? && (a.apc == Insert(b) || a.apc == Inc(b))) || (a.Eraser? && a.epc == Delete(b))
  }

  ghost predicate Inv(c: Config, s: State) {
    LockInv(s) && CountInv(s) && EntryInv(c, s) && ProcInv(c, s) && ZeroInv(s)
  }
}
