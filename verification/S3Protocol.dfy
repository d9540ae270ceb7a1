/** The S3 protocol of s3.go: one shared object per digest, one marker per store,
    no locks. Every step is one HTTP request, which the bucket performs
    atomically; a client may crash between requests, and a request whose response
    is lost may or may not have been performed.

    A State is everything that concerns one digest under one bucket prefix.
 */
module S3Protocol {
  import opened Base

  type Pid = nat

  datatype Marker = Marker(labels: Labels, size: nat)

  datatype Bucket = Bucket(blob: Option<Bytes>, refs: map<StoreId, Marker>)

  datatype AddPc = HeadGiven | Buffer | HeadComputed | HeadBlob | PutBlob | PutRef | AddDone(res: Result)
  datatype LabelPc = HeadToLabel | PutLabels(size: nat) | LabelDone(res: Result)
  datatype ErasePc = DeleteRef | EraseDone(res: Result)
  datatype OpenPc = HeadToOpen | Fetch(meta: Marker) | OpenDone(res: Result, got: Option<(Bytes, Marker)>)

  datatype Proc =
    | Adder(id: StoreId, content: Bytes, labels: Labels, given: bool, apc: AddPc)
    | Labeler(id: StoreId, labels: Labels, lpc: LabelPc)
    | Eraser(id: StoreId, epc: ErasePc)
    | Opener(id: StoreId, opc: OpenPc)

  datatype State = State(bucket: Bucket, procs: map<Pid, Proc>)

  datatype Config = Config(hash: Hash, digest: Digest)

  const INITIAL := State(Bucket(None, map[]), map[])

  datatype Move = Move(bucket: Bucket, proc: Proc)

  function AddMove(c: Config, b: Bucket, a: Proc): (m: Move)
    requires a.Adder? && !a.apc.AddDone?
    ensures m.proc.Adder? && m.proc.(apc := a.apc) == a
  {
    match a.apc
    case HeadGiven =>
      // Without a supplied digest there is no request yet.
      Move(b, a.(apc := if a.given && a.id in b.refs then AddDone(AlreadyExists) else Buffer))
    case Buffer =>
      Move(b, a.(apc := if c.hash(a.content) != c.digest then AddDone(DigestMismatch)
                        else if a.given then HeadBlob else HeadComputed))
    case HeadComputed =>
      Move(b, a.(apc := if a.id in b.refs then AddDone(AlreadyExists) else HeadBlob))
    case HeadBlob => Move(b, a.(apc := if b.blob.Some? then PutRef else PutBlob))
    case PutBlob => Move(b.(blob := Some(a.content)), a.(apc := PutRef))
    case PutRef => Move(b.(refs := b.refs[a.id := Marker(a.labels, |a.content|)]), a.(apc := AddDone(Ok)))
  }

  function LabelMove(b: Bucket, a: Proc): (m: Move)
    requires a.Labeler? && !a.lpc.LabelDone?
    ensures m.proc.Labeler? && m.proc.(lpc := a.lpc) == a
  {
    match a.lpc
    case HeadToLabel =>
      Move(b, a.(lpc := if a.id in b.refs then PutLabels(b.refs[a.id].size) else LabelDone(NotExist)))
    case PutLabels(size) => Move(b.(refs := b.refs[a.id := Marker(a.labels, size)]), a.(lpc := LabelDone(Ok)))
  }

  function OpenMove(b: Bucket, a: Proc): (m: Move)
    requires a.Opener? && !a.opc.OpenDone?
    ensures m.proc.Opener? && m.proc.(opc := a.opc) == a && m.bucket == b
  {
    match a.opc
    case HeadToOpen =>
      Move(b, a.(opc := if a.id in b.refs then Fetch(b.refs[a.id]) else OpenDone(NotExist, None)))
    case Fetch(meta) =>
      Move(b, a.(opc := if b.blob.Some? then OpenDone(Ok, Some((b.blob.value, meta))) else OpenDone(NotExist, None)))
  }

  predicate Finished(a: Proc) {
    match a
    case Adder(_, _, _, _, pc) => pc.AddDone?
    case Labeler(_, _, pc) => pc.LabelDone?
    case Eraser(_, pc) => pc.EraseDone?
    case Opener(_, pc) => pc.OpenDone?
  }

  function Performed(c: Config, b: Bucket, a: Proc): (m: Move)
    requires !Finished(a)
    ensures m.proc.id == a.id
  {
    match a
    case Adder(_, _, _, _, _) => AddMove(c, b, a)
    case Labeler(_, _, _) => LabelMove(b, a)
    case Eraser(id, _) => Move(b.(refs := b.refs - {id}), a.(epc := EraseDone(Ok)))
    case Opener(_, _) => OpenMove(b, a)
  }

  // The call gives up with an error.
  function Failed(a: Proc): Proc {
    match a
    case Adder(_, _, _, _, _) => a.(apc := AddDone(OtherError))
    case Labeler(_, _, _) => a.(lpc := LabelDone(OtherError))
    case Eraser(_, _) => a.(epc := EraseDone(OtherError))
    case Opener(_, _) => a.(opc := OpenDone(OtherError, None))
  }

  predicate IsCall(c: Config, a: Proc) {
    match a
    case Adder(_, content, _, given, pc) => pc == HeadGiven && (given || c.hash(content) == c.digest)
    case Labeler(_, _, pc) => pc == HeadToLabel
    case Eraser(_, pc) => pc == DeleteRef
    case Opener(_, pc) => pc == HeadToOpen
  }

  // Lose: the response of the next request is lost, whether it was performed or not.
  datatype Action = Start(call: Proc) | Go | Lose(performed: bool) | Crash

  function Step(c: Config, s: State, p: Pid, act: Action): Option<State> {
    if act.Start? then
      if p in s.procs || !IsCall(c, act.call) then None else Some(s.(procs := s.procs[p := act.call]))
    else if p !in s.procs then None
    else if act.Crash? then Some(s.(procs := s.procs - {p}))
    else if Finished(s.procs[p]) then None
    else
      var m := Performed(c, s.bucket, s.procs[p]);
      if act.Go? then Some(State(m.bucket, s.procs[p := m.proc]))
      else Some(State(if act.performed then m.bucket else s.bucket, s.procs[p := Failed(s.procs[p])]))
  }

  ghost predicate Next(c: Config, s: State, s': State) {
    exists p, act :: Step(c, s, p, act) == Some(s')
  }

  ghost predicate Run(c: Config, t: seq<State>) {
    |t| > 0 && t[0] == INITIAL && forall k :: 0 <= k < |t| - 1 ==> Next(c, t[k], t[k + 1])
  }

  ghost predicate Reachable(c: Config, s: State) {
    exists t :: Run(c, t) && t[|t| - 1] == s
  }
}
