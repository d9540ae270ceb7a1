/** mem.go one call at a time: entries that share reference-counted blobs. The
    concurrent behaviour of the same code is MemProtocol. */
module MemStore {
  import opened Base
  import opened Digests
  import opened StoreSpec

  class MemBlob {
    const data: Bytes
    var refs: nat

    constructor (data: Bytes)
      ensures this.data == data && refs == 0
    {
      this.data := data;
      refs := 0;
    }
  }

  class MemEntry {
    ghost const key: Key
    const blob: MemBlob
    var labels: Labels

    constructor (ghost key: Key, blob: MemBlob, labels: Labels)
      ensures this.key == key && this.blob == blob && this.labels == labels
    {
      this.key := key;
      this.blob := blob;
      this.labels := labels;
    }
  }

  // ---- Counting entries ----

  ghost function Users(keys: set<Key>, d: Digest): set<Key> {
    set k | k in keys && k.1 == d
  }

  ghost function CountOf(counts: map<Digest, nat>, d: Digest): nat {
    if d in counts then counts[d] else 0
  }

  ghost predicate Counted(counts: map<Digest, nat>, keys: set<Key>) {
    forall d {:trigger Users(keys, d)} :: |Users(keys, d)| == CountOf(counts, d)
  }

  lemma UserJoins(keys: set<Key>, k: Key, d: Digest)
    requires k !in keys
    ensures |Users(keys + {k}, d)| == |Users(keys, d)| + (if k.1 == d then 1 else 0)
  {
    assert Users(keys + {k}, d) == if k.1 == d then Users(keys, d) + {k} else Users(keys, d);
  }

  lemma CountedJoins(counts: map<Digest, nat>, keys: set<Key>, k: Key)
    requires Counted(counts, keys) && k !in keys
    ensures Counted(counts[k.1 := CountOf(counts, k.1) + 1], keys + {k})
  {
    forall d ensures |Users(keys + {k}, d)| == CountOf(counts[k.1 := CountOf(counts, k.1) + 1], d) {
      UserJoins(keys, k, d);
    }
  }

  lemma CountedLeaves(counts: map<Digest, nat>, keys: set<Key>, k: Key)
    requires Counted(counts, keys) && k in keys
    ensures CountOf(counts, k.1) > 0 && Counted(counts[k.1 := counts[k.1] - 1], keys - {k})
  {
    var rest := keys - {k};
    assert rest + {k} == keys;
    UserJoins(rest, k, k.1);
    forall d ensures |Users(rest, d)| == CountOf(counts[k.1 := counts[k.1] - 1], d) {
      UserJoins(rest, k, d);
    }
  }

  lemma CountedAtZero(counts: map<Digest, nat>, keys: set<Key>, d: Digest)
    requires Counted(counts, keys) && CountOf(counts, d) == 0
    ensures Counted(counts[d := 0], keys) && Counted(counts - {d}, keys)
    ensures forall k :: k in keys ==> k.1 != d
  {
    forall k | k in keys ensures k.1 != d {
      assert k in Users(keys, k.1);
    }
  }

  // The global map bs, and the maps es of all stores, keyed by store and digest.
  class MemStores {
    const hash: Hash
    var bs: map<Digest, MemBlob>
    var es: map<Key, MemEntry>
    ghost var Repr: set<object>
    ghost var entries: Contents         // what the stores hold, as callers see it
    ghost var counts: map<Digest, nat>  // the refs of the blobs in bs

    // Each digest has one blob that all its entries share.
    ghost predicate Linked()
      reads this, Repr
    {
      && this !in Repr && bs.Keys == counts.Keys
      && (forall d {:trigger bs[d]} :: d in bs ==> bs[d] in Repr && hash(bs[d].data) == d && bs[d].refs == counts[d])
      && entries.Keys == es.Keys
      && (forall k {:trigger es[k]} :: k in es ==>
            && es[k] in Repr && es[k].key == k && k.1 in bs && es[k].blob == bs[k.1]
            && entries[k].content == es[k].blob.data && entries[k].labels == es[k].labels)
    }

    // And the blob counts them exactly.
    ghost predicate Shape()
      reads this, Repr
    {
      Linked() && Counted(counts, es.Keys)
    }

    // Between calls no blob is kept unused.
    ghost predicate Valid()
      reads this, Repr
    {
      Shape() && forall d {:trigger counts[d]} :: d in counts ==> counts[d] > 0
    }

    constructor (hash: Hash)
      ensures Valid() && entries == map[] && this.hash == hash && fresh(Repr)
    {
      this.hash := hash;
      bs := map[];
      es := map[];
      Repr := {};
      entries := map[];
      counts := map[];
    }

    method Add(id: StoreId, m: Meta, content: Bytes) returns (r: Reply)
      requires Valid() && Injective(hash)
      modifies this, Repr
      ensures Valid() && fresh(Repr - old(Repr))
      ensures r == AddReply(hash, old(entries), id, m, content)
      ensures entries == AfterAdd(hash, old(entries), id, m, content)
    {
      var m' := m;
      if m'.digest != "" {
        SanitizeIsIdentity(m'.digest);
        if Sanitize(m'.digest).None? {
          return Reply(OtherError, m', None);
        }
        m' := m'.(digest := Sanitize(m'.digest).value);
        if (id, m'.digest) in es {
          return Reply(AlreadyExists, m', None);
        }
      }
      var d := hash(content);
      m' := m'.(size := |content|);
      if m'.digest == "" {
        m' := m'.(digest := d);
      } else if m'.digest != d {
        return Reply(DigestMismatch, m', None);
      }
      var loaded := Put((id, d), content, m.labels);
      r := Reply(if loaded then AlreadyExists else Ok, m', None);
    }

    method Put(k: Key, content: Bytes, labels: Labels) returns (loaded: bool)
      requires Valid() && Injective(hash) && hash(content) == k.1
      modifies this, Repr
      ensures Valid() && fresh(Repr - old(Repr))
      ensures loaded == (k in old(entries))
      ensures entries == if loaded then old(entries) else old(entries)[k := Entry(content, labels)]
    {
      var b := LoadOrStoreBlob(k.1, content);
      loaded := LoadOrStoreEntry(k, b, labels);
    }

    // The blob of the digest. With no call in between, one that is in the map is in
    // use, so there is nothing to retry.
    method LoadOrStoreBlob(d: Digest, content: Bytes) returns (b: MemBlob)
      requires Valid() && Injective(hash) && hash(content) == d
      modifies this`bs, this`counts, this`Repr
      ensures Shape() && fresh(Repr - old(Repr))
      ensures d in bs && bs[d] == b && b.data == content
      ensures forall x :: x in counts && x != d ==> counts[x] > 0
      ensures d in old(bs) ==> counts[d] > 0
      ensures d !in old(bs) ==> forall k :: k in es ==> k.1 != d
    {
      if d in bs {
        b := bs[d];
        return;
      }
      b := new MemBlob(content);
      CountedAtZero(counts, es.Keys, d);
      Store(d, b);
    }

    method Store(d: Digest, b: MemBlob)
      requires Linked() && d !in bs && b !in Repr && hash(b.data) == d && b.refs == 0
      modifies this`bs, this`counts, this`Repr
      ensures Linked() && Repr == old(Repr) + {b} && bs == old(bs)[d := b] && counts == old(counts)[d := 0]
    {
      bs := bs[d := b];
      counts := counts[d := 0];
      Repr := Repr + {b};
    }

    // Inserts the entry, if there is none, and counts it.
    method LoadOrStoreEntry(k: Key, b: MemBlob, labels: Labels) returns (loaded: bool)
      requires Shape() && k.1 in bs && bs[k.1] == b
      requires forall x :: x in counts && (x != k.1 || k in es) ==> counts[x] > 0
      modifies this, Repr
      ensures Valid() && fresh(Repr - old(Repr))
      ensures loaded == (k in old(entries))
      ensures entries == if loaded then old(entries) else old(entries)[k := Entry(b.data, labels)]
    {
      loaded := k in es;
      if loaded {
        return;
      }
      var e := new MemEntry(k, b, labels);
      Attach(k, e, b);
    }

    // A new entry, and one more reference.
    method Attach(k: Key, e: MemEntry, b: MemBlob)
      requires Shape() && k !in es && k.1 in bs && bs[k.1] == e.blob == b && e.key == k && e !in Repr
      modifies this, b
      ensures Shape() && Repr == old(Repr) + {e}
      ensures entries == old(entries)[k := Entry(b.data, e.labels)] && counts == old(counts)[k.1 := old(counts)[k.1] + 1]
    {
      CountedJoins(counts, es.Keys, k);
      assert es[k := e].Keys == es.Keys + {k};
      Insert(k, e, b);
      Inc(k.1);
    }

    method Insert(k: Key, e: MemEntry, b: MemBlob)
      requires Linked() && k !in es && k.1 in bs && bs[k.1] == e.blob == b && e.key == k && e !in Repr
      modifies this`es, this`entries, this`Repr
      ensures Linked() && Repr == old(Repr) + {e}
      ensures es == old(es)[k := e] && entries == old(entries)[k := Entry(b.data, e.labels)]
    {
      es := es[k := e];
      entries := entries[k := Entry(b.data, e.labels)];
      Repr := Repr + {e};
    }

    method Inc(d: Digest)
      requires Linked() && d in bs
      modifies this`counts, bs[d]
      ensures Linked() && counts == old(counts)[d := old(counts)[d] + 1]
    {
      bs[d].refs := bs[d].refs + 1;
      counts := counts[d := counts[d] + 1];
    }

    method Look(id: StoreId, d: Digest, bytes: bool) returns (r: Reply)
      requires Valid()
      ensures r == StoreSpec.Look(entries, id, d, bytes)
    {
      if (id, d) !in es {
        return Refused(NotExist);
      }
      var e := es[(id, d)];
      r := Reply(Ok, Meta(d, e.labels, |e.blob.data|), if bytes then Some(e.blob.data) else None);
    }

    method Label(id: StoreId, d: Digest, labels: Labels) returns (r: Reply)
      requires Valid()
      modifies this, Repr
      ensures Valid() && Repr == old(Repr)
      ensures r == LabelReply(old(entries), id, d)
      ensures entries == AfterLabel(old(entries), id, d, labels)
    {
      if (id, d) !in es {
        return Refused(NotExist);
      }
      StoreLabels((id, d), labels);
      r := Refused(Ok);
    }

    method StoreLabels(k: Key, labels: Labels)
      requires Valid() && k in es
      modifies this`entries, es[k]
      ensures Valid() && entries == old(entries)[k := old(entries)[k].(labels := labels)]
    {
      es[k].labels := labels;
      entries := entries[k := entries[k].(labels := labels)];
    }

    method Erase(id: StoreId, d: Digest) returns (r: Reply)
      requires Valid()
      modifies this, Repr
      ensures Valid() && Repr == old(Repr)
      ensures r == Refused(Ok)
      ensures entries == AfterErase(old(entries), id, d)
    {
      r := Refused(Ok);
      if (id, d) !in es {
        entries := AfterErase(entries, id, d);
        return;
      }
      var b := LoadAndDelete((id, d));
      if b.refs > 0 {
        return;
      }
      Delete(d);
    }

    // Forgets a blob that nothing uses any more.
    method Delete(d: Digest)
      requires Shape() && d in bs && bs[d].refs == 0
      requires forall x :: x in counts && x != d ==> counts[x] > 0
      modifies this`bs, this`counts
      ensures Valid()
    {
      CountedAtZero(counts, es.Keys, d);
      bs := bs - {d};
      counts := counts - {d};
    }

    // Removes the entry and gives its reference back.
    method LoadAndDelete(k: Key) returns (b: MemBlob)
      requires Valid() && k in es
      modifies this, Repr
      ensures Shape() && Repr == old(Repr)
      ensures k.1 in bs && b == bs[k.1] && es.Keys == old(es.Keys) - {k} && entries == old(entries) - {k}
      ensures forall x :: x in counts && x != k.1 ==> counts[x] > 0
    {
      b := es[k].blob;
      CountedLeaves(counts, es.Keys, k);
      Remove(k);
      Dec(k.1);
    }

    method Remove(k: Key)
      requires Linked() && k in es
      modifies this`es, this`entries
      ensures Linked() && es == old(es) - {k} && entries == old(entries) - {k}
    {
      es := es - {k};
      entries := entries - {k};
    }

    method Dec(d: Digest)
      requires Linked() && d in bs && counts[d] > 0
      modifies this`counts, bs[d]
      ensures Linked() && counts == old(counts)[d := old(counts)[d] - 1]
    {
      bs[d].refs := bs[d].refs - 1;
      counts := counts[d := counts[d] - 1];
    }

    method Perform(call: Call) returns (r: Reply)
      requires Valid() && Injective(hash)
      modifies this, Repr
      ensures Valid() && fresh(Repr - old(Repr))
      ensures r == Answer(hash, old(entries), call) && entries == After(hash, old(entries), call)
    {
      match call
      case Add(id, m, content) => r := Add(id, m, content);
      case Get(id, d) => r := Look(id, d, false);
      case Open(id, d) => r := Look(id, d, true);
      case Label(id, d, labels) => r := Label(id, d, labels);
      case Erase(id, d) => r := Erase(id, d);
    }

    // The blobs kept are exactly those some store still has, with that count.
    lemma KeepsWhatIsUsed(d: Digest)
      requires Valid()
      ensures d in bs <==> exists k :: k in entries && k.1 == d
      ensures d in bs ==> bs[d].refs == |set k | k in entries && k.1 == d|
    {
      assert Users(es.Keys, d) == set k | k in entries && k.1 == d;
      if d in bs {
        assert counts[d] > 0;
        var k :| k in Users(es.Keys, d);
      }
    }
  }
}
