/** The specification that MemLinear's histories follow is StoreSpec, seen at one digest:
    so the in-memory store is linearizable to the specification all backends share. */
module MemSpec {
  import opened Base
  import opened MemProtocol
  import opened MemInvariant
  import opened MemLinear
  import Digests
  import StoreSpec

  // The entries of one digest.
  function AtDigest(s: StoreSpec.Contents, d: Digest): Spec {
    map k | k in s && k.1 == d :: k.0 := Item(s[k].content, s[k].labels)
  }

  lemma AtDigestHas(s: StoreSpec.Contents, d: Digest, id: StoreId)
    ensures id in AtDigest(s, d) <==> (id, d) in s
    ensures id in AtDigest(s, d) ==> AtDigest(s, d)[id] == Item(s[(id, d)].content, s[(id, d)].labels)
  {
    if (id, d) in s {
      var k := (id, d);
      assert k in s && k.1 == d && k.0 == id;
    }
  }

  // The call of the store that an operation is.
  function CallOf(op: Op, d: Digest): StoreSpec.Call {
    match op
    case OpAdd(id, content, labels, given) => StoreSpec.Add(id, StoreSpec.Meta(if given then d else "", labels, 0), content)
    case OpErase(id) => StoreSpec.Erase(id, d)
    case OpLabel(id, labels) => StoreSpec.Label(id, d, labels)
    case OpGet(id) => StoreSpec.Open(id, d)
  }

  // The outcome tells what the reply tells.
  ghost predicate Agrees(out: Out, op: Op, r: StoreSpec.Reply) {
    if op.OpGet? then
      out == Got(if r.err == Ok && r.content.Some? then Some((r.content.value, r.meta.labels)) else None)
      && (r.err == Ok || r.err == NotExist) && (r.err == Ok <==> r.content.Some?)
    else out == Res(r.err)
  }

  // An Add without a digest concerns the digest of its content.
  ghost predicate Concerns(c: Config, op: Op) {
    Digests.Valid(c.digest) && c.digest != "" && (op.OpAdd? && !op.given ==> c.hash(op.content) == c.digest)
  }

  lemma SameSpec(m: Spec, s: StoreSpec.Contents, d: Digest)
    requires forall id :: id in m <==> (id, d) in s
    requires forall id :: id in m ==> m[id] == Item(s[(id, d)].content, s[(id, d)].labels)
    ensures m == AtDigest(s, d)
  {
    forall id ensures (id in m <==> id in AtDigest(s, d)) && (id in m ==> m[id] == AtDigest(s, d)[id]) {
      AtDigestHas(s, d, id);
    }
  }

  // Each operation acts and answers as the store specification does.
  lemma SpecStepIsStoreSpec(c: Config, s: StoreSpec.Contents, op: Op)
    requires Concerns(c, op)
    ensures var (m, out) := SpecStep(c, AtDigest(s, c.digest), op);
            && m == AtDigest(StoreSpec.After(c.hash, s, CallOf(op, c.digest)), c.digest)
            && Agrees(out, op, StoreSpec.Answer(c.hash, s, CallOf(op, c.digest)))
  {
    var d := c.digest;
    forall id ensures (id in AtDigest(s, d) <==> (id, d) in s)
                      && (id in AtDigest(s, d) ==> AtDigest(s, d)[id] == Item(s[(id, d)].content, s[(id, d)].labels)) {
      AtDigestHas(s, d, id);
    }
    SameSpec(SpecStep(c, AtDigest(s, d), op).0, StoreSpec.After(c.hash, s, CallOf(op, d)), d);
  }

  // The calls of a log, in its order.
  function Calls(log: seq<Event>, d: Digest): (r: seq<StoreSpec.Call>)
    ensures |r| == |log| && forall i :: 0 <= i < |log| ==> r[i] == CallOf(log[i].op, d)
  {
    seq(|log|, i requires 0 <= i < |log| => CallOf(log[i].op, d))
  }

  lemma CallsSnoc(log: seq<Event>, d: Digest)
    requires log != []
    ensures Calls(log, d)[..|log| - 1] == Calls(log[..|log| - 1], d)
  {
  }

  lemma {:induction false} ReplayIsOutcome(c: Config, log: seq<Event>)
    requires forall i :: 0 <= i < |log| ==> Concerns(c, log[i].op)
    ensures Replay(c, log) == AtDigest(StoreSpec.Outcome(c.hash, map[], Calls(log, c.digest)).0, c.digest)
    decreases |log|
  {
    if log == [] {
      SameSpec(map[], map[], c.digest);
    } else {
      var init := log[..|log| - 1];
      ReplayIsOutcome(c, init);
      CallsSnoc(log, c.digest);
      SpecStepIsStoreSpec(c, StoreSpec.Outcome(c.hash, map[], Calls(init, c.digest)).0, log[|log| - 1].op);
    }
  }

  // A legal log is a history of the store: each event's outcome is what the store, after
  // the calls before it, replies.
  lemma LegalIsStoreHistory(c: Config, log: seq<Event>, i: nat)
    requires Legal(c, log) && i < |log| && forall j :: 0 <= j < |log| ==> Concerns(c, log[j].op)
    ensures var s := StoreSpec.Outcome(c.hash, map[], Calls(log[..i], c.digest)).0;
            Agrees(log[i].out, log[i].op, StoreSpec.Answer(c.hash, s, CallOf(log[i].op, c.digest)))
  {
    ReplayIsOutcome(c, log[..i]);
    SpecStepIsStoreSpec(c, StoreSpec.Outcome(c.hash, map[], Calls(log[..i], c.digest)).0, log[i].op);
  }

  lemma CallsConcern(c: Config, s: State, p: Pid)
    requires Digests.Valid(c.digest) && Inv(c, s) && p in s.procs
    ensures Concerns(c, OpOf(s.procs[p]))
  {
    if s.procs[p].Adder? { assert AddInv(c, s, p); }
  }

  // A history that explains a run is one of the store: it leads to what the maps hold, and
  // every call has given the reply of the store to the calls before it.
  lemma ExplainedByStore(c: Config, h: History)
    requires Digests.Valid(c.digest) && Inv(c, h.s) && Explains(c, h)
    ensures View(h.s.g) == AtDigest(StoreSpec.Outcome(c.hash, map[], Calls(h.log, c.digest)).0, c.digest)
    ensures forall i: nat :: i < |h.log| ==> RepliesAsStore(c, h.log, i)
  {
    forall i | 0 <= i < |h.log| ensures Concerns(c, h.log[i].op) {
      assert Recorded(c, h, i);
      CallsConcern(c, h.s, h.log[i].pid);
    }
    ReplayIsOutcome(c, h.log);
    forall i: nat | i < |h.log| ensures RepliesAsStore(c, h.log, i) {
      LegalIsStoreHistory(c, h.log, i);
    }
  }

  ghost predicate RepliesAsStore(c: Config, log: seq<Event>, i: nat)
    requires i < |log|
  {
    var s := StoreSpec.Outcome(c.hash, map[], Calls(log[..i], c.digest)).0;
    Agrees(log[i].out, log[i].op, StoreSpec.Answer(c.hash, s, CallOf(log[i].op, c.digest)))
  }
}
