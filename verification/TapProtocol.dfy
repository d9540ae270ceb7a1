/** The cache tap as two processes: the caller, who reads, seeks and closes as it
    likes, and the goroutine that adds what it reads from the pipe to the primary
    store. A write to the pipe blocks until the reader has taken all of it. */
module TapProtocol {
  import opened Base
  import opened CacheTap
  import opened StoreSpec
  import Digests

  // The caller is between calls, or blocked in a write of `rest`, after which its
  // Read will return `end`.
  datatype Caller = Free | Blocked(rest: Bytes, end: Option<End>)

  datatype Adder = Adding | Returned | Ended

  datatype State = State(
    caller: Caller,
    pos: nat,               // of the origin reader
    tapping: bool,          // w is the pipe, not discardSink
    closed: Option<End>,    // of the writing end
    adder: Adder,
    got: Bytes,             // read from the pipe so far
    returned: Bytes,        // what the caller's reads have returned since the last seek
    start: nat,             // and where that seek went
    primary: Contents)

  // The blob the origin served for (id, digest), with its meta.
  datatype Config = Config(hash: Hash, id: StoreId, meta: Meta, content: Bytes)

  predicate Consistent(c: Config) {
    c.meta.digest == c.hash(c.content) && c.meta.digest != ""
  }

  datatype Event =
    | Read(n: nat, end: Option<End>) | WriteReturns | WriteFails | Seek(to: nat) | Close
    | Take(k: nat) | SeeEnd | ReturnEarly | CloseSink

  function Initial(primary: Contents): State {
    State(Free, 0, true, None, Adding, [], [], 0, primary)
  }

  predicate IsCallerEvent(e: Event) {
    e.Read? || e.WriteReturns? || e.WriteFails? || e.Seek? || e.Close?
  }

  function Stopped(s: State, err: End): State {
    s.(tapping := false, closed := if s.tapping && s.closed.None? then Some(err) else s.closed)
  }

  function Ending(s: State, end: Option<End>): State {
    if end.Some? then Stopped(s, end.value) else s
  }

  function CallerStep(c: Config, s: State, e: Event): Option<State>
    requires IsCallerEvent(e)
  {
    match e
    case Read(n, end) =>
      if !s.caller.Free? || (n > 0 && s.pos + n > |c.content|) || (end == Some(Eof) && s.pos + n < |c.content|) then None
      else
        var b := if n > 0 then c.content[s.pos..s.pos + n] else [];
        var s' := s.(pos := s.pos + n, returned := s.returned + b);
        if n > 0 && s.tapping then Some(s'.(caller := Blocked(b, end))) else Some(Ending(s', end))
    case WriteReturns =>
      if !s.caller.Blocked? || s.caller.rest != [] then None
      else Some(Ending(s.(caller := Free), s.caller.end))
    case WriteFails =>
      if !s.caller.Blocked? || !s.adder.Ended? then None
      else Some(Ending(Stopped(s.(caller := Free), ClosedPipe), s.caller.end))
    case Seek(to) =>
      if !s.caller.Free? then None else Some(Stopped(s, UnexpectedEof).(pos := to, start := to, returned := []))
    case Close =>
      if !s.caller.Free? then None else Some(Stopped(s, UnexpectedEof))
  }

  // Primary.Add reads the pipe to its end and commits only after a clean one; or it
  // returns early, because the entry exists, or for any other reason.
  function AdderStep(c: Config, s: State, e: Event): Option<State>
    requires !IsCallerEvent(e)
  {
    match e
    case Take(k) =>
      if !s.adder.Adding? || !s.caller.Blocked? || !(0 < k <= |s.caller.rest|) then None
      else Some(s.(got := s.got + s.caller.rest[..k], caller := s.caller.(rest := s.caller.rest[k..])))
    case SeeEnd =>
      if !s.adder.Adding? || s.closed.None? then None
      else Some(s.(adder := Returned, primary := if s.closed == Some(Eof) then AfterAdd(c.hash, s.primary, c.id, c.meta, s.got) else s.primary))
    case ReturnEarly => if !s.adder.Adding? then None else Some(s.(adder := Returned))
    case CloseSink => if !s.adder.Returned? then None else Some(s.(adder := Ended))
  }

  function Step(c: Config, s: State, e: Event): Option<State> {
    if IsCallerEvent(e) then CallerStep(c, s, e) else AdderStep(c, s, e)
  }

  ghost predicate Next(c: Config, s: State, s': State) {
    exists e :: Step(c, s, e) == Some(s')
  }

  ghost predicate Run(c: Config, t: seq<State>) {
    |t| > 0 && t[0] == Initial(t[0].primary) && forall k :: 0 <= k < |t| - 1 ==> Next(c, t[k], t[k + 1])
  }

  // ---- What every step keeps ----

  function Pending(s: State): Bytes {
    if s.caller.Blocked? then s.caller.rest else []
  }

  ghost predicate Inv(c: Config, s: State) {
    && (s.tapping ==> s.closed.None? && s.pos <= |c.content| && s.got + Pending(s) == c.content[..s.pos])
    && (!s.tapping ==> s.closed.Some? && s.caller.Free?)
    && s.got <= c.content
    && (s.closed == Some(Eof) ==> s.got == c.content)
    && (s.caller.Blocked? && s.caller.end == Some(Eof) ==> s.pos == |c.content|)
    && (s.returned == [] || (s.start <= s.pos <= |c.content| && s.returned == c.content[s.start..s.pos]))
    && (s.returned == [] ==> s.pos == s.start)
  }

  lemma CallerKeepsInv(c: Config, s: State, e: Event)
    requires Inv(c, s) && IsCallerEvent(e) && CallerStep(c, s, e).Some?
    ensures Inv(c, CallerStep(c, s, e).value)
  {
    match e
    case Read(n, end) =>
      if n > 0 {
        var b := c.content[s.pos..s.pos + n];
        assert c.content[..s.pos] + b == c.content[..s.pos + n];
        if s.returned != [] { assert c.content[s.start..s.pos] + b == c.content[s.start..s.pos + n]; }
        assert s.got + [] == s.got;
      }
    case WriteReturns => assert s.got + [] == s.got;
    case WriteFails =>
    case Seek(_) =>
    case Close =>
  }

  lemma AdderKeepsInv(c: Config, s: State, e: Event)
    requires Inv(c, s) && !IsCallerEvent(e) && AdderStep(c, s, e).Some?
    ensures Inv(c, AdderStep(c, s, e).value)
  {
    if e.Take? {
      var rest := s.caller.rest;
      assert s.got + rest == (s.got + rest[..e.k]) + rest[e.k..];
    }
  }

  // The primary store changes at most once, by exactly the origin's blob.
  ghost predicate PrimaryOk(c: Config, before: Contents, s: State) {
    || s.primary == before
    || (!s.adder.Adding? && (c.id, c.meta.digest) !in before && s.primary == before[(c.id, c.meta.digest) := Entry(c.content, c.meta.labels)])
  }

  lemma StepKeepsPrimaryOk(c: Config, before: Contents, s: State, e: Event)
    requires Consistent(c) && Inv(c, s) && PrimaryOk(c, before, s) && Step(c, s, e).Some?
    ensures PrimaryOk(c, before, Step(c, s, e).value)
  {
  }

  lemma {:induction false} RunIsSafe(c: Config, t: seq<State>, k: nat)
    requires Consistent(c) && Run(c, t) && k < |t|
    ensures Inv(c, t[k]) && PrimaryOk(c, t[0].primary, t[k])
    decreases k
  {
    if k > 0 {
      RunIsSafe(c, t, k - 1);
      assert Next(c, t[k - 1], t[k - 1 + 1]);
      var e :| Step(c, t[k - 1], e) == Some(t[k]);
      if IsCallerEvent(e) { CallerKeepsInv(c, t[k - 1], e); } else { AdderKeepsInv(c, t[k - 1], e); }
      StepKeepsPrimaryOk(c, t[0].primary, t[k - 1], e);
    }
  }

  // However the caller reads, seeks and closes: it sees the origin's bytes, the sink
  // gets a prefix of them, a clean end only after all of them, and the primary store
  // is unchanged or holds exactly the origin's blob.
  lemma TapIsSafe(c: Config, t: seq<State>, k: nat)
    requires Consistent(c) && Run(c, t) && k < |t|
    ensures t[k].got <= c.content && (t[k].closed == Some(Eof) ==> t[k].got == c.content)
    ensures t[k].returned == [] || (t[k].start + |t[k].returned| <= |c.content| && t[k].returned == c.content[t[k].start..t[k].start + |t[k].returned|])
    ensures var key := (c.id, c.meta.digest);
            t[k].primary == t[0].primary
            || (key !in t[0].primary && t[k].primary == t[0].primary[key := Entry(c.content, c.meta.labels)])
  {
    RunIsSafe(c, t, k);
  }

  // ---- What comes to be cached ----

  // es are the events of the run t.
  ghost predicate Events(c: Config, t: seq<State>, es: seq<Event>) {
    && |t| == |es| + 1 && t[0] == Initial(t[0].primary)
    && forall i :: 0 <= i < |es| ==> Step(c, t[i], es[i]) == Some(t[i + 1])
  }

  lemma EventsRun(c: Config, t: seq<State>, es: seq<Event>)
    requires Events(c, t, es)
    ensures Run(c, t)
  {
    forall k | 0 <= k < |t| - 1 ensures Next(c, t[k], t[k + 1]) {
      assert Step(c, t[k], es[k]) == Some(t[k + 1]);
    }
  }

  // The caller reads on: it neither seeks nor closes, and its reads fail at the end only.
  predicate ReadsOn(e: Event) {
    !e.Seek? && !e.Close? && (e.Read? && e.end.Some? ==> e.end == Some(Eof))
  }

  // The origin's blob, in the primary store.
  function Cached(c: Config, before: Contents): Contents {
    if (c.id, c.meta.digest) in before then before
    else before[(c.id, c.meta.digest) := Entry(c.content, c.meta.labels)]
  }

  // While the adder reads, nothing is cached, and a caller that reads on ends the pipe
  // cleanly or not at all.
  ghost predicate ReadingOn(before: Contents, s: State) {
    s.adder.Adding? && s.primary == before && (s.closed.None? || s.closed == Some(Eof)) && (s.caller.Blocked? && s.caller.end.Some? ==> s.caller.end == Some(Eof))
  }

  lemma {:induction false} ReadingOnEndsCleanly(c: Config, t: seq<State>, es: seq<Event>, i: nat)
    requires Consistent(c) && Events(c, t, es) && i < |es| && t[i].adder.Adding?
    requires forall j :: 0 <= j < i ==> ReadsOn(es[j])
    ensures ReadingOn(t[0].primary, t[i])
    decreases i
  {
    if i > 0 {
      assert Step(c, t[i - 1], es[i - 1]) == Some(t[i - 1 + 1]);
      assert ReadsOn(es[i - 1]);
      ReadingOnEndsCleanly(c, t, es, i - 1);
    }
  }

  lemma {:induction false} PrimaryStays(c: Config, t: seq<State>, es: seq<Event>, i: nat, k: nat)
    requires Events(c, t, es) && i <= k < |t| && !t[i].adder.Adding?
    ensures !t[k].adder.Adding? && t[k].primary == t[i].primary
    decreases k
  {
    if i < k {
      PrimaryStays(c, t, es, i, k - 1);
      assert Step(c, t[k - 1], es[k - 1]) == Some(t[k - 1 + 1]);
    }
  }

  lemma {:induction false} NothingBefore(c: Config, t: seq<State>, es: seq<Event>, k: nat)
    requires Events(c, t, es) && k < |t| && forall j :: 0 <= j < k ==> !es[j].SeeEnd?
    ensures t[k].primary == t[0].primary
    decreases k
  {
    if k > 0 {
      NothingBefore(c, t, es, k - 1);
      assert Step(c, t[k - 1], es[k - 1]) == Some(t[k - 1 + 1]);
      assert !es[k - 1].SeeEnd?;
    }
  }

  lemma SeeEndCaches(c: Config, s: State)
    requires Consistent(c) && Digests.Valid(c.meta.digest) && Inv(c, s) && AdderStep(c, s, SeeEnd).Some?
    ensures AdderStep(c, s, SeeEnd).value.primary == if s.closed == Some(Eof) then Cached(c, s.primary) else s.primary
  {
    if s.closed == Some(Eof) { AddAnswers(c.hash, s.primary, c.id, c.meta, s.got); }
  }

  // When the adder comes to the end of the pipe, the blob is cached for good exactly if
  // that end is clean; and it is if the caller has read on.
  lemma CachedIffEndedCleanly(c: Config, t: seq<State>, es: seq<Event>, i: nat, k: nat)
    requires Consistent(c) && Digests.Valid(c.meta.digest) && Events(c, t, es) && i < |es| && es[i].SeeEnd? && i < k < |t|
    ensures t[k].primary == if t[i].closed == Some(Eof) then Cached(c, t[0].primary) else t[0].primary
    ensures (forall j :: 0 <= j < i ==> ReadsOn(es[j])) ==> t[i].closed == Some(Eof)
  {
    EventsRun(c, t, es);
    RunIsSafe(c, t, i);
    assert Step(c, t[i], es[i]) == Some(t[i + 1]);
    SeeEndCaches(c, t[i]);
    OneEndOnly(c, t, es, i);
    NothingBefore(c, t, es, i);
    PrimaryStays(c, t, es, i + 1, k);
    if forall j :: 0 <= j < i ==> ReadsOn(es[j]) { ReadingOnEndsCleanly(c, t, es, i); }
  }

  lemma OneEndOnly(c: Config, t: seq<State>, es: seq<Event>, i: nat)
    requires Events(c, t, es) && i < |es| && es[i].SeeEnd?
    ensures forall j :: 0 <= j < i ==> !es[j].SeeEnd?
  {
    assert Step(c, t[i], es[i]) == Some(t[i + 1]);
    forall j | 0 <= j < i ensures !es[j].SeeEnd? {
      assert Step(c, t[j], es[j]) == Some(t[j + 1]);
      if es[j].SeeEnd? { PrimaryStays(c, t, es, j + 1, i); }
    }
  }

  // And a caller that has read on to the end of the blob has ended the pipe, once its Read
  // has returned, if the adder did not leave early: then the adder can come to that end.
  lemma ReadToTheEndEndsThePipe(c: Config, t: seq<State>, es: seq<Event>, r: nat, k: nat)
    requires Consistent(c) && Events(c, t, es) && r < |es| && es[r].Read? && es[r].end == Some(Eof) && r < k < |t|
    requires (forall j :: 0 <= j < k ==> ReadsOn(es[j])) && t[k].adder.Adding? && t[k].caller.Free?
    ensures t[k].closed == Some(Eof) && t[k].got == c.content && AdderStep(c, t[k], SeeEnd).Some?
  {
    EventsRun(c, t, es);
    WasAdding(c, t, es, r, k);
    WasAdding(c, t, es, r + 1, k);
    RunIsSafe(c, t, r);
    ReadingOnEndsCleanly(c, t, es, r);
    assert Step(c, t[r], es[r]) == Some(t[r + 1]);
    EofIsSeen(c, t[r], es[r]);
    EofStays(c, t, es, r + 1, k);
    RunIsSafe(c, t, k);
  }

  lemma {:induction false} WasAdding(c: Config, t: seq<State>, es: seq<Event>, i: nat, k: nat)
    requires Events(c, t, es) && i <= k < |t| && t[k].adder.Adding?
    ensures t[i].adder.Adding?
  {
    if !t[i].adder.Adding? { PrimaryStays(c, t, es, i, k); }
  }

  lemma {:induction false} EofStays(c: Config, t: seq<State>, es: seq<Event>, r: nat, k: nat)
    requires Consistent(c) && Events(c, t, es) && r <= k < |t| && EofSeen(t[r])
    requires (forall j :: r <= j < k ==> ReadsOn(es[j])) && t[k].adder.Adding?
    ensures EofSeen(t[k])
    decreases k
  {
    if r < k {
      WasAdding(c, t, es, k - 1, k);
      EofStays(c, t, es, r, k - 1);
      EventsRun(c, t, es);
      RunIsSafe(c, t, k - 1);
      assert Step(c, t[k - 1], es[k - 1]) == Some(t[k - 1 + 1]);
      EofStaysSeen(c, t[k - 1], es[k - 1]);
    }
  }

  // The caller has come to the end: the pipe is ended, or will be when its write returns.
  predicate EofSeen(s: State) {
    s.closed == Some(Eof) || (s.caller.Blocked? && s.caller.end == Some(Eof) && s.tapping)
  }

  lemma EofStaysSeen(c: Config, s: State, e: Event)
    requires Inv(c, s) && EofSeen(s) && ReadsOn(e) && Step(c, s, e).Some? && Step(c, s, e).value.adder.Adding?
    ensures EofSeen(Step(c, s, e).value)
  {
  }

  lemma EofIsSeen(c: Config, s: State, e: Event)
    requires Inv(c, s) && ReadingOn(s.primary, s) && e.Read? && e.end == Some(Eof) && Step(c, s, e).Some?
    ensures EofSeen(Step(c, s, e).value)
  {
  }

  // The caller reads from where it last sought, or from the start.
  lemma {:induction false} StartStays(c: Config, t: seq<State>, es: seq<Event>, i: nat, k: nat)
    requires Events(c, t, es) && i <= k < |t| && forall j :: i <= j < k ==> !es[j].Seek?
    ensures t[k].start == t[i].start
    decreases k
  {
    if i < k {
      StartStays(c, t, es, i, k - 1);
      assert Step(c, t[k - 1], es[k - 1]) == Some(t[k - 1 + 1]);
      assert !es[k - 1].Seek?;
    }
  }

  lemma ReadsFromWhereItSought(c: Config, t: seq<State>, es: seq<Event>, i: nat, k: nat)
    requires Consistent(c) && Events(c, t, es) && i < |es| && es[i].Seek? && i < k < |t|
    requires forall j :: i < j < k ==> !es[j].Seek?
    ensures var to, r := es[i].to, t[k].returned; r == [] || (to + |r| <= |c.content| && r == c.content[to..to + |r|])
  {
    assert Step(c, t[i], es[i]) == Some(t[i + 1]);
    StartStays(c, t, es, i + 1, k);
    EventsRun(c, t, es);
    TapIsSafe(c, t, k);
  }

  lemma ReadsFromTheStart(c: Config, t: seq<State>, es: seq<Event>, k: nat)
    requires Consistent(c) && Events(c, t, es) && k < |t| && forall j :: 0 <= j < k ==> !es[j].Seek?
    ensures t[k].returned <= c.content
  {
    StartStays(c, t, es, 0, k);
    EventsRun(c, t, es);
    TapIsSafe(c, t, k);
  }

  // ---- Progress ----

  ghost predicate AdderCanStep(c: Config, s: State) {
    exists e :: !IsCallerEvent(e) && AdderStep(c, s, e).Some?
  }

  // A caller blocked in Read can go on itself, or the adder can; also when the adder
  // returned without draining the pipe.
  lemma NoDeadlock(c: Config, s: State)
    requires s.caller.Blocked?
    ensures AdderCanStep(c, s) || CallerStep(c, s, WriteReturns).Some? || CallerStep(c, s, WriteFails).Some?
  {
    match s.adder
    case Adding => if s.caller.rest != [] { assert AdderStep(c, s, Take(1)).Some?; }
    case Returned => assert AdderStep(c, s, CloseSink).Some?;
    case Ended =>
  }

  // How many steps the adder has left before it ends, or before it waits for more.
  function Fuel(s: State): nat {
    |Pending(s)| + match s.adder { case Adding => 2 case Returned => 1 case Ended => 0 }
  }

  lemma AdderStepsBurnFuel(c: Config, s: State, e: Event)
    requires !IsCallerEvent(e) && AdderStep(c, s, e).Some?
    ensures Fuel(AdderStep(c, s, e).value) < Fuel(s)
  {
  }

  // While the caller is blocked the adder takes at most Fuel steps, and then the Read
  // returns; before that the adder or the caller can go on.
  lemma {:induction false} BlockedReadReturns(c: Config, t: seq<State>, es: seq<Event>, k: nat)
    requires |es| == |t| - 1 && k < |t| && t[0].caller.Blocked?
    requires forall i :: 0 <= i < |es| ==> !IsCallerEvent(es[i]) && Step(c, t[i], es[i]) == Some(t[i + 1])
    ensures t[k].caller.Blocked? && k + Fuel(t[k]) <= Fuel(t[0])
    ensures AdderCanStep(c, t[k]) || CallerStep(c, t[k], WriteReturns).Some? || CallerStep(c, t[k], WriteFails).Some?
    ensures k == Fuel(t[0]) ==> CallerStep(c, t[k], WriteReturns).Some? && CallerStep(c, t[k], WriteFails).Some?
    decreases k
  {
    if k > 0 {
      BlockedReadReturns(c, t, es, k - 1);
      assert Step(c, t[k - 1], es[k - 1]) == Some(t[k - 1 + 1]);
      AdderStepsBurnFuel(c, t[k - 1], es[k - 1]);
    }
    NoDeadlock(c, t[k]);
  }

  // Once the caller has hit the end, sought or closed, the adder can always step
  // until it ends, and nothing the caller does prolongs it.
  lemma AdderEndsAfterClose(c: Config, s: State)
    requires Inv(c, s) && s.closed.Some? && !s.adder.Ended?
    ensures AdderCanStep(c, s)
  {
    if s.adder.Adding? { assert AdderStep(c, s, SeeEnd).Some?; } else { assert AdderStep(c, s, CloseSink).Some?; }
  }

  lemma CallerAddsNoFuelAfterClose(c: Config, s: State, e: Event)
    requires Inv(c, s) && s.closed.Some? && IsCallerEvent(e) && CallerStep(c, s, e).Some?
    ensures Fuel(CallerStep(c, s, e).value) == Fuel(s) && CallerStep(c, s, e).value.closed == s.closed
  {
  }

  // A caller at the end of the blob, one that seeks and one that closes, all close the pipe.
  lemma EndsClose(c: Config, s: State, e: Event)
    requires Inv(c, s) && IsCallerEvent(e) && CallerStep(c, s, e).Some?
    requires e.Seek? || e.Close? || (e.Read? && e.end.Some?) || (e.WriteReturns? && s.caller.end.Some?)
    ensures var s' := CallerStep(c, s, e).value; s'.closed.Some? || (s'.caller.Blocked? && s'.caller.end.Some?)
  {
  }

  // The goroutine ends: in every run there is a bound on its steps after the close.
  lemma {:induction false} AdderStepsAreBounded(c: Config, t: seq<State>, es: seq<Event>, k: nat)
    requires |es| == |t| - 1 && k < |t| && Inv(c, t[0]) && t[0].closed.Some?
    requires forall i :: 0 <= i < |es| ==> Step(c, t[i], es[i]) == Some(t[i + 1])
    ensures Inv(c, t[k]) && t[k].closed.Some? && AdderSteps(es[..k]) + Fuel(t[k]) <= Fuel(t[0])
    decreases k
  {
    if k > 0 {
      AdderStepsAreBounded(c, t, es, k - 1);
      assert es[..k][..k - 1] == es[..k - 1];
      var e := es[k - 1];
      assert Step(c, t[k - 1], e) == Some(t[k - 1 + 1]);
      if IsCallerEvent(e) {
        CallerKeepsInv(c, t[k - 1], e);
        CallerAddsNoFuelAfterClose(c, t[k - 1], e);
      } else {
        AdderKeepsInv(c, t[k - 1], e);
        AdderStepsBurnFuel(c, t[k - 1], e);
      }
    }
  }

  function AdderSteps(es: seq<Event>): nat {
    if es == [] then 0 else AdderSteps(es[..|es| - 1]) + (if IsCallerEvent(es[|es| - 1]) then 0 else 1)
  }
}
