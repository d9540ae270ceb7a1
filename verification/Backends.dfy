/** The three backends have one meaning: on every sequence of calls, on digests valid or
    not, they give the same replies. Store ids are plain path elements, the ones that
    have directories of their own (OsPaths), and labels are portable, the ones that S3's
    headers return unchanged (S3Meta). */
module Backends {
  import opened Base
  import opened Digests
  import opened StoreSpec
  import MemStore
  import OsStore
  import OsPaths
  import S3Meta
  import S3Store

  lemma PrefixOutcome(hash: Hash, calls: seq<Call>, i: nat)
    requires i < |calls|
    ensures var o := Outcome(hash, map[], calls[..i]);
            Outcome(hash, map[], calls[..i + 1]) == (After(hash, o.0, calls[i]), o.1 + [Answer(hash, o.0, calls[i])])
  {
    assert calls[..i + 1][..i] == calls[..i];
  }

  method RunMem(hash: Hash, calls: seq<Call>) returns (replies: seq<Reply>)
    requires Injective(hash)
    ensures replies == Outcome(hash, map[], calls).1
  {
    var stores := new MemStore.MemStores(hash);
    replies := [];
    for i := 0 to |calls|
      invariant stores.Valid() && stores.hash == hash && fresh(stores) && fresh(stores.Repr)
      invariant Outcome(hash, map[], calls[..i]) == (stores.entries, replies)
    {
      PrefixOutcome(hash, calls, i);
      var r := stores.Perform(calls[i]);
      replies := replies + [r];
    }
    assert calls[..|calls|] == calls;
  }

  // `exact` tells whether the operating system can count hard links.
  method RunOs(hash: Hash, exact: bool, root: string, calls: seq<Call>) returns (replies: seq<Reply>)
    requires Injective(hash) && Canonical(hash)
    requires forall i :: 0 <= i < |calls| ==> OsStore.PlainCall(calls[i])
    ensures replies == Outcome(hash, map[], calls).1
  {
    var stores := new OsStore.OsStores(hash, exact, root);
    replies := [];
    for i := 0 to |calls|
      invariant stores.Valid() && stores.AllReadable() && stores.hash == hash && fresh(stores)
      invariant Outcome(hash, map[], calls[..i]) == (stores.entries, replies)
    {
      PrefixOutcome(hash, calls, i);
      var r := stores.Perform(calls[i]);
      replies := replies + [r];
    }
    assert calls[..|calls|] == calls;
  }

  // S3 keeps labels in headers, so here the labels must survive that.
  method RunS3(hash: Hash, prefix: string, calls: seq<Call>) returns (replies: seq<Reply>)
    requires Injective(hash) && Canonical(hash)
    requires forall i :: 0 <= i < |calls| ==> S3Store.PortableCall(calls[i])
    ensures replies == Outcome(hash, map[], calls).1
  {
    var stores := new S3Store.S3Stores(hash, prefix);
    replies := [];
    for i := 0 to |calls|
      invariant stores.Valid() && stores.hash == hash && fresh(stores)
      invariant Outcome(hash, map[], calls[..i]) == (stores.entries, replies)
    {
      PrefixOutcome(hash, calls, i);
      var r := stores.Perform(calls[i]);
      replies := replies + [r];
    }
    assert calls[..|calls|] == calls;
  }

  lemma PortableIsPlainCall(call: Call)
    requires S3Store.PortableCall(call) && OsPaths.Plain(call.id)
    ensures OsStore.PlainCall(call)
  {
    match call
    case Add(_, m, _) => S3Meta.PortableIsPlain(m.labels);
    case Label(_, _, labels) => S3Meta.PortableIsPlain(labels);
    case _ =>
  }

  // A caller cannot tell which backend it talks to.
  method RunAll(hash: Hash, exact: bool, root: string, prefix: string, calls: seq<Call>)
      returns (mem: seq<Reply>, os: seq<Reply>, s3: seq<Reply>)
    requires Injective(hash) && Canonical(hash)
    requires forall i :: 0 <= i < |calls| ==> S3Store.PortableCall(calls[i]) && OsPaths.Plain(calls[i].id)
    ensures mem == os == s3 && |mem| == |calls|
  {
    forall i | 0 <= i < |calls| ensures OsStore.PlainCall(calls[i]) {
      PortableIsPlainCall(calls[i]);
    }
    mem := RunMem(hash, calls);
    os := RunOs(hash, exact, root, calls);
    s3 := RunS3(hash, prefix, calls);
  }
}
