/** The file-system protocol of os.go, one system call at a time.

    A State is everything the store keeps for one digest: the shared name, the
    lock file, the repo directories of every store, the staging directories and
    the inodes behind them, with any number of running calls. Calls on different
    digests touch disjoint paths; OsSystem puts the digests together.
 */
module OsProtocol {
  import opened Base

  type Pid = nat    // one per call of Add, Erase, Label or Open
  type Inode = nat

  datatype Name = BlobName | LabelsName

  // A staged or committed entry directory. `owner` is its identity: each Add
  // stages exactly one directory, and a rename does not change it.
  datatype Dir = Dir(owner: Pid, blob: Option<Inode>, labels: Option<Labels>) {
    function Names(): set<Name> {
      (if blob.Some? then {BlobName} else {}) + (if labels.Some? then {LabelsName} else {})
    }

    function Without(n: Name): Dir {
      match n
      case BlobName => this.(blob := None)
      case LabelsName => this.(labels := None)
    }
  }

  // Where os.RemoveAll is: about to open the path, about to read the opened
  // directory, unlinking the names it read in any order, about to rmdir the path.
  datatype Sweep = SwOpen | SwList(dir: Pid) | SwUnlink(dir: Pid, names: set<Name>) | SwRmdir

  datatype AddPc =
    | PreCheck | Verify | WantLock | Recheck | MkStage | PutLabels
    | StatShare | LinkFrom | CreateBlob | CopyBlob | LinkTo
    | Rename(attempt: nat) | StatRepo(attempt: nat) | Clear(attempt: nat, sweep: Sweep)
    | Discard(why: Result) | Unlock(out: Result) | AddDone(res: Result) | AddCrashed

  datatype ErasePc =
    | Wipe(sweep: Sweep) | Nlink1 | CleanLock | Nlink2 | RemoveShare | CleanUnlock
    | EraseDone(res: Result) | EraseCrashed

  datatype LabelPc = LabelStat | LabelRename | LabelDone(res: Result) | LabelCrashed

  datatype OpenPc =
    | OpenStat | OpenLabels | OpenFile(labels: Labels) | Reading(fd: Inode, labels: Labels)
    | OpenDone(res: Result, labels: Labels) | OpenCrashed

  datatype Proc =
    | Adder(id: StoreId, content: Bytes, labels: Labels, apc: AddPc)
    | Eraser(id: StoreId, epc: ErasePc)
    | Labeler(id: StoreId, labels: Labels, lpc: LabelPc)
    | Opener(id: StoreId, bytes: bool, opc: OpenPc)  // Open, or Get if not for the bytes

  // What went wrong so far, for the statements that only hold of clean runs.
  datatype Fault = Crashed | IoError | AddAborted | EraseNotEmpty

  datatype State = State(
    share: Option<Inode>,
    lock: Option<Pid>,
    repos: map<StoreId, Dir>,
    stages: map<Pid, Dir>,
    files: map<Inode, Bytes>,
    procs: map<Pid, Proc>,
    faults: set<Fault>)

  // `exact` is nlink_linux.go; otherwise any answer is possible, the constant 1
  // of nlink.go among them.
  datatype Config = Config(hash: Hash, digest: Digest, exact: bool)

  datatype Choice =
    | Start(call: Proc) | Go | UnlinkName(name: Name) | Write(upto: nat)
    | NewInode(inode: Inode) | Answer(links: Option<nat>) | Fail | Crash

  const ATTEMPTS: nat := 5

  const INITIAL := State(None, None, map[], map[], map[], map[], {})

  // ---- Link counts ----

  function RepoLinks(s: State, i: Inode): set<StoreId> {
    set id | id in s.repos && s.repos[id].blob == Some(i)
  }

  function StageLinks(s: State, i: Inode): set<Pid> {
    set p | p in s.stages && s.stages[p].blob == Some(i)
  }

  function LinkCount(s: State, i: Inode): nat {
    (if s.share == Some(i) then 1 else 0) + |RepoLinks(s, i)| + |StageLinks(s, i)|
  }

  // The answers nlink may give for the shared path.
  predicate Answers(c: Config, s: State, links: Option<nat>) {
    c.exact ==> links == if s.share.None? then None else Some(LinkCount(s, s.share.value))
  }

  // ---- os.RemoveAll on a repo directory ----

  datatype SweepOut = SwNext(repos: map<StoreId, Dir>, sweep: Sweep) | SwFinished(repos: map<StoreId, Dir>) | SwNotEmpty | SwDisabled

  function SweepStep(repos: map<StoreId, Dir>, id: StoreId, sw: Sweep, ch: Choice): SweepOut {
    match sw
    case SwOpen =>
      if ch != Go then SwDisabled
      else if id !in repos then SwFinished(repos)
      else SwNext(repos, SwList(repos[id].owner))
    case SwList(dir) =>
      if ch != Go then SwDisabled
      else if id in repos && repos[id].owner == dir then SwNext(repos, SwUnlink(dir, repos[id].Names()))
      else SwNext(repos, SwUnlink(dir, {}))
    case SwUnlink(dir, names) =>
      if names == {} then
        if ch == Go then SwNext(repos, SwRmdir) else SwDisabled
      else if ch.UnlinkName? && ch.name in names then
        var left := SwUnlink(dir, names - {ch.name});
        if id in repos && repos[id].owner == dir then
          SwNext(repos[id := repos[id].Without(ch.name)], left)
        else
          SwNext(repos, left)
      else SwDisabled
    case SwRmdir =>
      if ch != Go then SwDisabled
      else if id !in repos then SwFinished(repos)
      else if repos[id].Names() == {} then SwFinished(repos - {id})
      else SwNotEmpty
  }

  // ---- Calls ----

  predicate HasBlob(s: State, id: StoreId) {
    id in s.repos && s.repos[id].blob.Some?
  }

  predicate Holds(a: Proc) {
    match a
    case Adder(_, _, _, pc) =>
      pc.Recheck? || pc.MkStage? || pc.PutLabels? || pc.StatShare? || pc.LinkFrom? || pc.CreateBlob? || pc.CopyBlob?
      || pc.LinkTo? || pc.Rename? || pc.StatRepo? || pc.Clear? || pc.Discard? || pc.Unlock?
    case Eraser(_, pc) => pc.Nlink2? || pc.RemoveShare? || pc.CleanUnlock?
    case _ => false
  }

  predicate Finished(a: Proc) {
    match a
    case Adder(_, _, _, pc) => pc.AddDone? || pc.AddCrashed?
    case Eraser(_, pc) => pc.EraseDone? || pc.EraseCrashed?
    case Labeler(_, _, pc) => pc.LabelDone? || pc.LabelCrashed?
    case Opener(_, _, pc) => pc.OpenDone? || pc.OpenCrashed?
  }

  predicate IsCall(a: Proc) {
    match a
    case Adder(_, _, _, pc) => pc == PreCheck
    case Eraser(_, pc) => pc == Wipe(SwOpen)
    case Labeler(_, _, pc) => pc == LabelStat
    case Opener(_, _, pc) => pc == OpenStat
  }

  function AddTo(s: State, p: Pid, a: Proc, pc: AddPc): State
    requires a.Adder?
  {
    s.(procs := s.procs[p := a.(apc := pc)])
  }

  // The steps that write into the caller's own staging directory.
  predicate FillsStage(pc: AddPc) {
    pc.MkStage? || pc.PutLabels? || pc.LinkFrom? || pc.CreateBlob? || pc.CopyBlob? || pc.Discard?
  }

  // The steps that make an inode visible to others.
  predicate Publishes(pc: AddPc) {
    pc.LinkTo? || pc.Rename?
  }

  // Add and moveStageToRepo. An Adder whose content does not hash to the digest
  // of this component is one that was given the digest by its caller.
  function AddStep(c: Config, s: State, p: Pid, a: Proc, ch: Choice): Option<State>
    requires a.Adder?
  {
    if FillsStage(a.apc) then FillStep(s, p, a, ch)
    else if Publishes(a.apc) then PublishStep(s, p, a, ch)
    else if a.apc.Clear? then ClearStep(s, p, a, ch)
    else PlainStep(c, s, p, a, ch)
  }

  // Checks, the lock, and the decisions between them.
  function PlainStep(c: Config, s: State, p: Pid, a: Proc, ch: Choice): Option<State>
    requires a.Adder?
  {
    if ch != Go then None
    else match a.apc
    case PreCheck => Some(AddTo(s, p, a, if HasBlob(s, a.id) then AddDone(AlreadyExists) else Verify))
    case Verify => Some(AddTo(s, p, a, if c.hash(a.content) != c.digest then AddDone(DigestMismatch) else WantLock))
    case WantLock => if s.lock.Some? then None else Some(AddTo(s, p, a, Recheck).(lock := Some(p)))
    case Recheck => Some(AddTo(s, p, a, if HasBlob(s, a.id) then Unlock(AlreadyExists) else MkStage))
    case StatShare => Some(AddTo(s, p, a, if s.share.Some? then LinkFrom else CreateBlob))
    case StatRepo(k) => Some(if a.id !in s.repos then Aborted(s, p, a) else AddTo(s, p, a, Clear(k, SwOpen)))
    case Unlock(out) => Some(AddTo(s, p, a, AddDone(out)).(lock := None))
    case _ => None
  }

  function FillStep(s: State, p: Pid, a: Proc, ch: Choice): Option<State>
    requires a.Adder?
  {
    match a.apc
    case MkStage =>
      if ch != Go then None
      else Some(AddTo(s, p, a, PutLabels).(stages := s.stages[p := Dir(p, None, None)]))
    case PutLabels =>
      if ch != Go || p !in s.stages then None
      else Some(AddTo(s, p, a, StatShare).(stages := s.stages[p := s.stages[p].(labels := Some(a.labels))]))
    case LinkFrom =>
      if ch != Go || p !in s.stages then None
      else if s.share.None? then Some(Aborted(s, p, a))
      else Some(AddTo(s, p, a, Rename(0)).(stages := s.stages[p := s.stages[p].(blob := s.share)]))
    case CreateBlob =>
      if !ch.NewInode? || ch.inode in s.files || p !in s.stages then None
      else Some(AddTo(s, p, a, CopyBlob).(
                stages := s.stages[p := s.stages[p].(blob := Some(ch.inode))],
                files := s.files[ch.inode := []]))
    case CopyBlob =>
      if p !in s.stages || s.stages[p].blob.None? || s.stages[p].blob.value !in s.files then None
      else
        var i := s.stages[p].blob.value;
        if ch.Write? && |s.files[i]| < ch.upto <= |a.content| then Some(s.(files := s.files[i := a.content[..ch.upto]]))
        else if ch == Go && |s.files[i]| == |a.content| then Some(AddTo(s, p, a, LinkTo))
        else None
    case Discard(why) =>
      if p !in s.stages then
        if ch == Go then Some(AddTo(s, p, a, Unlock(why))) else None
      else if ch.UnlinkName? && ch.name in s.stages[p].Names() then
        Some(s.(stages := s.stages[p := s.stages[p].Without(ch.name)]))
      else if ch == Go && s.stages[p].Names() == {} then
        Some(AddTo(s, p, a, Unlock(why)).(stages := s.stages - {p}))
      else None
    case _ => None
  }

  function PublishStep(s: State, p: Pid, a: Proc, ch: Choice): Option<State>
    requires a.Adder?
  {
    if ch != Go || p !in s.stages then None
    else match a.apc
    case LinkTo =>
      Some(if s.share.Some? then Aborted(s, p, a) else AddTo(s, p, a, Rename(0)).(share := s.stages[p].blob))
    case Rename(k) =>
      Some(if k == ATTEMPTS then Aborted(s, p, a)
           else if a.id in s.repos then AddTo(s, p, a, StatRepo(k))
           else AddTo(s, p, a, Unlock(Ok)).(repos := s.repos[a.id := s.stages[p]], stages := s.stages - {p}))
    case _ => None
  }

  function ClearStep(s: State, p: Pid, a: Proc, ch: Choice): Option<State>
    requires a.Adder?
  {
    match a.apc
    case Clear(k, sw) =>
      (match SweepStep(s.repos, a.id, sw, ch)
       case SwNext(repos, sw') => Some(AddTo(s, p, a, Clear(k, sw')).(repos := repos))
       case SwFinished(repos) => Some(AddTo(s, p, a, Rename(k + 1)).(repos := repos))
       case SwNotEmpty => Some(Aborted(s, p, a))
       case SwDisabled => None)
    case _ => None
  }

  // An Add that gives up after staging and undoes its staging directory.
  function Aborted(s: State, p: Pid, a: Proc): State
    requires a.Adder?
  {
    AddTo(s, p, a, Discard(OtherError)).(faults := s.faults + {AddAborted})
  }

  function EraseTo(s: State, p: Pid, a: Proc, pc: ErasePc): State
    requires a.Eraser?
  {
    s.(procs := s.procs[p := a.(epc := pc)])
  }

  // Erase and tryCleanup.
  function EraseStep(c: Config, s: State, p: Pid, a: Proc, ch: Choice): Option<State>
    requires a.Eraser?
  {
    match a.epc
    case Wipe(sw) =>
      (match SweepStep(s.repos, a.id, sw, ch)
       case SwNext(repos, sw') => Some(EraseTo(s, p, a, Wipe(sw')).(repos := repos))
       case SwFinished(repos) => Some(EraseTo(s, p, a, Nlink1).(repos := repos))
       case SwNotEmpty => Some(EraseTo(s, p, a, EraseDone(OtherError)).(faults := s.faults + {EraseNotEmpty}))
       case SwDisabled => None)
    case Nlink1 =>
      if !ch.Answer? || !Answers(c, s, ch.links) then None
      else Some(EraseTo(s, p, a, if ch.links.None? || ch.links.value > 1 then EraseDone(Ok) else CleanLock))
    case CleanLock =>
      if ch != Go || s.lock.Some? then None
      else Some(EraseTo(s, p, a, Nlink2).(lock := Some(p)))
    case Nlink2 =>
      if !ch.Answer? || !Answers(c, s, ch.links) then None
      else Some(EraseTo(s, p, a, if ch.links.None? || ch.links.value > 1 then CleanUnlock else RemoveShare))
    case RemoveShare =>
      if ch != Go then None
      else Some(EraseTo(s, p, a, CleanUnlock).(share := None))
    case CleanUnlock =>
      if ch != Go then None
      else Some(EraseTo(s, p, a, EraseDone(Ok)).(lock := None))
    case EraseDone(_) => None
    case EraseCrashed => None
  }

  function LabelTo(s: State, p: Pid, a: Proc, pc: LabelPc): State
    requires a.Labeler?
  {
    s.(procs := s.procs[p := a.(lpc := pc)])
  }

  function LabelStep(s: State, p: Pid, a: Proc, ch: Choice): Option<State>
    requires a.Labeler?
  {
    match a.lpc
    case LabelStat =>
      if ch != Go then None
      else Some(LabelTo(s, p, a, if HasBlob(s, a.id) then LabelRename else LabelDone(NotExist)))
    case LabelRename =>
      if ch != Go then None
      else if a.id !in s.repos then Some(LabelTo(s, p, a, LabelDone(NotExist)))
      else Some(LabelTo(s, p, a, LabelDone(Ok)).(
                repos := s.repos[a.id := s.repos[a.id].(labels := Some(a.labels))]))
    case LabelDone(_) => None
    case LabelCrashed => None
  }

  function OpenTo(s: State, p: Pid, a: Proc, pc: OpenPc): State
    requires a.Opener?
  {
    s.(procs := s.procs[p := a.(opc := pc)])
  }

  // A missing labels file reads as no labels.
  function LabelsAt(s: State, id: StoreId): Labels {
    if id in s.repos && s.repos[id].labels.Some? then s.repos[id].labels.value else map[]
  }

  function OpenStep(s: State, p: Pid, a: Proc, ch: Choice): Option<State>
    requires a.Opener?
  {
    match a.opc
    case OpenStat =>
      if ch != Go then None
      else Some(OpenTo(s, p, a, if HasBlob(s, a.id) then OpenLabels else OpenDone(NotExist, map[])))
    case OpenLabels =>
      if ch != Go then None
      else Some(OpenTo(s, p, a, if a.bytes then OpenFile(LabelsAt(s, a.id)) else OpenDone(Ok, LabelsAt(s, a.id))))
    case OpenFile(labels) =>
      if ch != Go then None
      else Some(OpenTo(s, p, a, if HasBlob(s, a.id) then Reading(s.repos[a.id].blob.value, labels) else OpenDone(NotExist, map[])))
    case Reading(_, labels) =>
      if ch != Go then None
      else Some(OpenTo(s, p, a, OpenDone(Ok, labels)))
    case OpenDone(_, _) => None
    case OpenCrashed => None
  }

  // Any system call may fail instead; the deferred clean-up then runs.
  function Failed(a: Proc): Proc {
    match a
    case Adder(_, _, _, pc) =>
      if pc.PreCheck? || pc.Verify? || pc.WantLock? then a.(apc := AddDone(OtherError))
      else if pc.Recheck? || pc.MkStage? then a.(apc := Unlock(OtherError))
      else if pc.Discard? then a.(apc := Unlock(pc.why))
      else if pc.Unlock? || pc.AddDone? || pc.AddCrashed? then a
      else a.(apc := Discard(OtherError))
    case Eraser(_, pc) =>
      if pc.Wipe? then a.(epc := EraseDone(OtherError))
      else if pc.Nlink1? || pc.CleanLock? then a.(epc := EraseDone(Ok))
      else if pc.Nlink2? || pc.RemoveShare? then a.(epc := CleanUnlock)
      else a
    case Labeler(_, _, pc) => if pc.LabelStat? || pc.LabelRename? then a.(lpc := LabelDone(OtherError)) else a
    case Opener(_, _, pc) => if Finished(a) then a else a.(opc := OpenDone(OtherError, map[]))
  }

  function Dead(a: Proc): Proc {
    match a
    case Adder(_, _, _, _) => a.(apc := AddCrashed)
    case Eraser(_, _) => a.(epc := EraseCrashed)
    case Labeler(_, _, _) => a.(lpc := LabelCrashed)
    case Opener(_, _, _) => a.(opc := OpenCrashed)
  }

  function Step(c: Config, s: State, p: Pid, ch: Choice): Option<State> {
    if ch.Start? then
      if p in s.procs || !IsCall(ch.call) then None else Some(s.(procs := s.procs[p := ch.call]))
    else if p !in s.procs || Finished(s.procs[p]) then None
    else if ch.Crash? then
      Some(s.(procs := s.procs[p := Dead(s.procs[p])],
              lock := if s.lock == Some(p) then None else s.lock,
              faults := s.faults + {Crashed}))
    else if ch.Fail? then
      Some(s.(procs := s.procs[p := Failed(s.procs[p])], faults := s.faults + {IoError}))
    else match s.procs[p]
      case Adder(_, _, _, _) => AddStep(c, s, p, s.procs[p], ch)
      case Eraser(_, _) => EraseStep(c, s, p, s.procs[p], ch)
      case Labeler(_, _, _) => LabelStep(s, p, s.procs[p], ch)
      case Opener(_, _, _) => OpenStep(s, p, s.procs[p], ch)
  }

  ghost predicate Next(c: Config, s: State, s': State) {
    exists p, ch :: Step(c, s, p, ch) == Some(s')
  }

  ghost predicate Run(c: Config, t: seq<State>) {
    && |t| > 0
    && t[0] == INITIAL
    && forall k :: 0 <= k < |t| - 1 ==> Next(c, t[k], t[k + 1])
  }

  ghost predicate Reachable(c: Config, s: State) {
    exists t :: Run(c, t) && t[|t| - 1] == s
  }
}
