/** What every store backend means: a map from (store, digest) to content and
    labels, with the answers of store.go's interface. */
module StoreSpec {
  import opened Base
  import opened Digests

  datatype Meta = Meta(digest: Digest, labels: Labels, size: int)

  const NO_META := Meta("", map[], 0)

  datatype Entry = Entry(content: Bytes, labels: Labels)

  type Key = (StoreId, Digest)

  type Contents = map<Key, Entry>

  datatype Call =
    | Add(id: StoreId, meta: Meta, content: Bytes)
    | Get(id: StoreId, digest: Digest)
    | Open(id: StoreId, digest: Digest)
    | Label(id: StoreId, digest: Digest, labels: Labels)
    | Erase(id: StoreId, digest: Digest)

  datatype Reply = Reply(err: Result, meta: Meta, content: Option<Bytes>)

  function Refused(err: Result): Reply {
    Reply(err, NO_META, None)
  }

  // An empty m.digest means that the store is to compute it.
  function AddReply(hash: Hash, s: Contents, id: StoreId, m: Meta, content: Bytes): Reply {
    var d := hash(content);
    var sized := m.(size := |content|);
    if m.digest != "" then
      if !Valid(m.digest) then Reply(OtherError, m, None)
      else if (id, m.digest) in s then Reply(AlreadyExists, m, None)
      else if m.digest != d then Reply(DigestMismatch, sized, None)
      else Reply(Ok, sized, None)
    else if (id, d) in s then Reply(AlreadyExists, sized.(digest := d), None)
    else Reply(Ok, sized.(digest := d), None)
  }

  function Look(s: Contents, id: StoreId, d: Digest, bytes: bool): Reply {
    if (id, d) in s then
      Reply(Ok, Meta(d, s[(id, d)].labels, |s[(id, d)].content|), if bytes then Some(s[(id, d)].content) else None)
    else Refused(NotExist)
  }

  function AfterAdd(hash: Hash, s: Contents, id: StoreId, m: Meta, content: Bytes): Contents {
    if AddReply(hash, s, id, m, content).err == Ok then s[(id, hash(content)) := Entry(content, m.labels)] else s
  }

  function LabelReply(s: Contents, id: StoreId, d: Digest): Reply {
    Refused(if (id, d) in s then Ok else NotExist)
  }

  function AfterLabel(s: Contents, id: StoreId, d: Digest, labels: Labels): Contents {
    if (id, d) in s then s[(id, d) := s[(id, d)].(labels := labels)] else s
  }

  function AfterErase(s: Contents, id: StoreId, d: Digest): Contents {
    s - {(id, d)}
  }

  function Answer(hash: Hash, s: Contents, call: Call): Reply {
    match call
    case Add(id, m, content) => AddReply(hash, s, id, m, content)
    case Get(id, d) => Look(s, id, d, false)
    case Open(id, d) => Look(s, id, d, true)
    case Label(id, d, _) => LabelReply(s, id, d)
    case Erase(_, _) => Refused(Ok)
  }

  function After(hash: Hash, s: Contents, call: Call): Contents {
    match call
    case Add(id, m, content) => AfterAdd(hash, s, id, m, content)
    case Label(id, d, labels) => AfterLabel(s, id, d, labels)
    case Erase(id, d) => AfterErase(s, id, d)
    case _ => s
  }

  // A whole history: the contents it leads to, and the replies.
  function Outcome(hash: Hash, s: Contents, calls: seq<Call>): (r: (Contents, seq<Reply>))
    ensures |r.1| == |calls|
    decreases |calls|
  {
    if calls == [] then (s, [])
    else
      var (s', replies) := Outcome(hash, s, calls[..|calls| - 1]);
      (After(hash, s', calls[|calls| - 1]), replies + [Answer(hash, s', calls[|calls| - 1])])
  }

  // ---- What the answers mean ----

  // Add, whatever digest it is given: when it says what, and what it does.
  lemma AddAnswers(hash: Hash, s: Contents, id: StoreId, m: Meta, content: Bytes)
    requires Valid(hash(content))
    ensures var r, d, given := Answer(hash, s, Add(id, m, content)), hash(content), m.digest;
            && (r.err == Ok <==> (given == "" || given == d) && (id, d) !in s)
            && (r.err == AlreadyExists <==> (given == "" && (id, d) in s) || (given != "" && Valid(given) && (id, given) in s))
            && (r.err == DigestMismatch <==> given != "" && Valid(given) && (id, given) !in s && given != d)
            && (r.err == OtherError <==> given != "" && !Valid(given))
            && r.content == None && r.meta.labels == m.labels
            && (r.err == Ok ==> r.meta.digest == d && r.meta.size == |content|)
            && (r.err == AlreadyExists && given == "" ==> r.meta.digest == d)
            && (given != "" ==> r.meta.digest == given)
    ensures var r, s', k := Answer(hash, s, Add(id, m, content)), After(hash, s, Add(id, m, content)), (id, hash(content));
            && (r.err != Ok ==> s' == s)
            && (r.err == Ok ==> s'.Keys == s.Keys + {k} && s'[k].content == content && s'[k].labels == m.labels
                                && forall e :: e in s && e != k ==> s'[e] == s[e])
  {
  }

  // Get and Open say NotExist exactly if this store has no such entry, and otherwise tell
  // of just that entry. They change nothing.
  lemma ReadAnswers(hash: Hash, s: Contents, id: StoreId, d: Digest)
    ensures var r, k := Answer(hash, s, Get(id, d)), (id, d);
            && (r.err == Ok <==> k in s) && (r.err == NotExist <==> k !in s) && r.content == None
            && (k in s ==> r.meta.digest == d && r.meta.labels == s[k].labels && r.meta.size == |s[k].content|)
    ensures var r, k := Answer(hash, s, Open(id, d)), (id, d);
            && r.err == Answer(hash, s, Get(id, d)).err && r.meta == Answer(hash, s, Get(id, d)).meta
            && r.content == (if k in s then Some(s[k].content) else None)
    ensures After(hash, s, Get(id, d)) == s && After(hash, s, Open(id, d)) == s
  {
  }

  // Label replaces the labels of an entry that is there and keeps its content; and Erase
  // takes the entry away, if it is there, and never fails.
  lemma ChangeAnswers(hash: Hash, s: Contents, id: StoreId, d: Digest, labels: Labels)
    ensures var r, s', k := Answer(hash, s, Label(id, d, labels)), After(hash, s, Label(id, d, labels)), (id, d);
            && (r.err == Ok <==> k in s) && (r.err == NotExist <==> k !in s)
            && s'.Keys == s.Keys && (forall e :: e in s && e != k ==> s'[e] == s[e])
            && (k in s ==> s'[k].labels == labels && s'[k].content == s[k].content)
    ensures var s', k := After(hash, s, Erase(id, d)), (id, d);
            && Answer(hash, s, Erase(id, d)).err == Ok
            && s'.Keys == s.Keys - {k} && forall e :: e in s' ==> s'[e] == s[e]
  {
  }

  // What is stored under a digest has that digest.
  ghost predicate Sound(hash: Hash, s: Contents) {
    forall k :: k in s ==> k.1 == hash(s[k].content)
  }

  lemma {:induction false} OutcomeIsSound(hash: Hash, s: Contents, calls: seq<Call>)
    requires Sound(hash, s)
    ensures Sound(hash, Outcome(hash, s, calls).0)
    decreases |calls|
  {
    if calls != [] {
      OutcomeIsSound(hash, s, calls[..|calls| - 1]);
    }
  }

  // A call on one store is invisible to every other store.
  lemma StoresAreIsolated(hash: Hash, s: Contents, call: Call, id: StoreId, d: Digest)
    requires id != call.id
    ensures (id, d) in After(hash, s, call) <==> (id, d) in s
    ensures (id, d) in s ==> After(hash, s, call)[(id, d)] == s[(id, d)]
  {
  }

  predicate Touches(call: Call, k: Key, hash: Hash) {
    call.id == k.0 && match call {
      case Add(_, _, content) => hash(content) == k.1
      case Erase(_, d) => d == k.1
      case Label(_, d, _) => d == k.1
      case _ => false
    }
  }

  lemma {:induction false} Untouched(hash: Hash, s: Contents, calls: seq<Call>, k: Key)
    requires k in s && forall i :: 0 <= i < |calls| ==> !Touches(calls[i], k, hash)
    ensures k in Outcome(hash, s, calls).0 && Outcome(hash, s, calls).0[k] == s[k]
    decreases |calls|
  {
    if calls != [] {
      Untouched(hash, s, calls[..|calls| - 1], k);
      assert !Touches(calls[|calls| - 1], k, hash);
    }
  }

  // What an Add stores, Open returns under the digest that Add replied, whatever happens
  // to other entries in between.
  lemma AddThenOpen(hash: Hash, s: Contents, id: StoreId, m: Meta, content: Bytes, calls: seq<Call>)
    requires Answer(hash, s, Add(id, m, content)).err == Ok
    requires forall i :: 0 <= i < |calls| ==> !Touches(calls[i], (id, hash(content)), hash)
    ensures var s' := Outcome(hash, After(hash, s, Add(id, m, content)), calls).0;
            var d := Answer(hash, s, Add(id, m, content)).meta.digest;
            d == hash(content) && Answer(hash, s', Open(id, d)) == Reply(Ok, Meta(d, m.labels, |content|), Some(content))
  {
    Untouched(hash, After(hash, s, Add(id, m, content)), calls, (id, hash(content)));
  }

  // ---- What a whole history leaves, without looking at the states in between ----

  predicate Adds(call: Call, k: Key, hash: Hash) {
    call.Add? && call.id == k.0 && hash(call.content) == k.1 && (call.meta.digest == "" || call.meta.digest == k.1)
  }

  predicate Erases(call: Call, k: Key) {
    call.Erase? && (call.id, call.digest) == k
  }

  predicate Relabels(call: Call, k: Key) {
    call.Label? && (call.id, call.digest) == k
  }

  // Some Add of the entry has no Erase after it.
  ghost predicate Kept(hash: Hash, calls: seq<Call>, k: Key) {
    exists i :: 0 <= i < |calls| && Adds(calls[i], k, hash) && NoneErases(calls, i, k)
  }

  ghost predicate NoneErases(calls: seq<Call>, i: int, k: Key) {
    forall j :: 0 <= i < j < |calls| ==> !Erases(calls[j], k)
  }

  lemma KeptSnoc(hash: Hash, calls: seq<Call>, call: Call, k: Key)
    ensures Kept(hash, calls + [call], k) <==> Adds(call, k, hash) || (Kept(hash, calls, k) && !Erases(call, k))
  {
    var all := calls + [call];
    if Kept(hash, all, k) {
      var i :| 0 <= i < |all| && Adds(all[i], k, hash) && NoneErases(all, i, k);
      if i < |calls| {
        assert all[|calls|] == call;
        assert forall j :: 0 <= j < |calls| ==> all[j] == calls[j];
        assert NoneErases(calls, i, k);
      }
    }
    if Adds(call, k, hash) {
      assert all[|calls|] == call && NoneErases(all, |calls|, k);
    }
    if Kept(hash, calls, k) && !Erases(call, k) {
      var i :| 0 <= i < |calls| && Adds(calls[i], k, hash) && NoneErases(calls, i, k);
      assert all[i] == calls[i] && NoneErases(all, i, k);
    }
  }

  // A store has an entry exactly if some Add of it was not followed by an Erase of it.
  lemma {:induction false} PresentIffKept(hash: Hash, calls: seq<Call>, k: Key)
    requires Canonical(hash)
    ensures k in Outcome(hash, map[], calls).0 <==> Kept(hash, calls, k)
    decreases |calls|
  {
    if calls != [] {
      var init, call := calls[..|calls| - 1], calls[|calls| - 1];
      PresentIffKept(hash, init, k);
      KeptSnoc(hash, init, call, k);
      assert calls == init + [call];
      if call.Add? { AddAnswers(hash, Outcome(hash, map[], init).0, call.id, call.meta, call.content); }
    }
  }

  // The call that gave an entry its labels: the last Label of it, or the Add that made it.
  ghost predicate Labelled(hash: Hash, calls: seq<Call>, k: Key, labels: Labels) {
    exists i :: 0 <= i < |calls| && GivesLabels(hash, calls, i, k, labels)
                && forall j :: i < j < |calls| ==> !Erases(calls[j], k) && !Relabels(calls[j], k)
  }

  ghost predicate GivesLabels(hash: Hash, calls: seq<Call>, i: int, k: Key, labels: Labels)
    requires 0 <= i < |calls|
  {
    || (Relabels(calls[i], k) && calls[i].labels == labels)
    || (Adds(calls[i], k, hash) && calls[i].meta.labels == labels && !Kept(hash, calls[..i], k))
  }

  lemma LabelledSnoc(hash: Hash, calls: seq<Call>, call: Call, k: Key, labels: Labels)
    requires Labelled(hash, calls, k, labels) && !Erases(call, k) && !Relabels(call, k)
    ensures Labelled(hash, calls + [call], k, labels)
  {
    var all := calls + [call];
    var i :| 0 <= i < |calls| && GivesLabels(hash, calls, i, k, labels)
             && forall j :: i < j < |calls| ==> !Erases(calls[j], k) && !Relabels(calls[j], k);
    assert all[..i] == calls[..i] && all[i] == calls[i];
    assert GivesLabels(hash, all, i, k, labels);
    assert forall j :: i < j < |calls| ==> all[j] == calls[j];
  }

  // What the entry shows: content of its digest, and the labels that were given last.
  lemma {:induction false} ShowsWhatWasGivenLast(hash: Hash, calls: seq<Call>, k: Key)
    requires Canonical(hash) && k in Outcome(hash, map[], calls).0
    ensures hash(Outcome(hash, map[], calls).0[k].content) == k.1
    ensures Labelled(hash, calls, k, Outcome(hash, map[], calls).0[k].labels)
    decreases |calls|
  {
    var init, call := calls[..|calls| - 1], calls[|calls| - 1];
    var s, s' := Outcome(hash, map[], init).0, Outcome(hash, map[], calls).0;
    assert calls == init + [call];
    if k in s { ShowsWhatWasGivenLast(hash, init, k); }
    if call.Add? { AddAnswers(hash, s, call.id, call.meta, call.content); }
    if k in s && !Relabels(call, k) {
      assert s'[k] == s[k];
      LabelledSnoc(hash, init, call, k, s[k].labels);
    } else {
      PresentIffKept(hash, init, k);
      assert calls[..|init|] == init;
      assert GivesLabels(hash, calls, |init|, k, s'[k].labels);
    }
  }

  // Each reply is the answer to its call on what the calls before it left.
  lemma {:induction false} RepliesInOrder(hash: Hash, calls: seq<Call>, i: nat)
    requires i < |calls|
    ensures Outcome(hash, map[], calls).1[i] == Answer(hash, Outcome(hash, map[], calls[..i]).0, calls[i])
    decreases |calls|
  {
    var init := calls[..|calls| - 1];
    if i < |init| {
      RepliesInOrder(hash, init, i);
      assert init[..i] == calls[..i];
    }
  }

  // Labels matter only to an Add that succeeds.
  lemma RefusalIgnoresLabels(hash: Hash, s: Contents, id: StoreId, m: Meta, labels: Labels, content: Bytes)
    ensures AddReply(hash, s, id, m.(labels := labels), content).err == AddReply(hash, s, id, m, content).err
    ensures AddReply(hash, s, id, m, content).err != Ok || labels == m.labels ==>
      AfterAdd(hash, s, id, m.(labels := labels), content) == AfterAdd(hash, s, id, m, content)
  {
  }
}
