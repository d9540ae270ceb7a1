/** s3.go one call at a time: shared objects and per-store markers in a bucket. The
    concurrent behaviour of the same code is S3Protocol. */
module S3Store {
  import opened Base
  import opened Digests
  import opened StoreSpec
  import opened Headers
  import opened LabelWire
  import opened S3Meta
  import opened S3Keys

  datatype Stored = Stored(body: Bytes, header: Header)

  class S3Stores {
    const hash: Hash
    const prefix: string
    var objects: map<string, Stored>  // the bucket
    ghost var entries: Contents       // what the stores hold, as callers see it

    ghost predicate Valid()
      reads this
    {
      && (forall k {:trigger entries[k]} :: k in entries ==> Digests.Valid(k.1) && MarkerOk(k))
      && (forall d, id {:trigger RefKey(prefix, d, id)} :: Digests.Valid(d) && RefKey(prefix, d, id) in objects ==> (id, d) in entries)
      && (forall d {:trigger BlobKey(prefix, d)} :: Digests.Valid(d) && BlobKey(prefix, d) in objects ==> hash(objects[BlobKey(prefix, d)].body) == d)
    }

    // The marker of an entry, and the blob it stands for.
    ghost predicate MarkerOk(k: Key)
      reads this
      requires k in entries && Digests.Valid(k.1)
    {
      && RefKey(prefix, k.1, k.0) in objects && BlobKey(prefix, k.1) in objects
      && objects[BlobKey(prefix, k.1)].body == entries[k].content
      && var h := objects[RefKey(prefix, k.1, k.0)].header;
         CanonicalHeader(h) && LabelsOf(h) == entries[k].labels && SizeOf(h) == |entries[k].content|
    }

    constructor (hash: Hash, prefix: string)
      ensures Valid() && entries == map[] && objects == map[] && this.hash == hash && this.prefix == prefix
    {
      this.hash := hash;
      this.prefix := prefix;
      objects := map[];
      entries := map[];
    }

    predicate Exists(key: string)
      reads this
    {
      key in objects
    }

    // `stored` are the labels as the marker keeps them; None if the client refused to
    // send them, which Add reports after it has uploaded the content.
    method Add(id: StoreId, m: Meta, content: Bytes) returns (r: Reply, ghost stored: Option<Labels>)
      requires Valid() && Canonical(hash) && Injective(hash)
      modifies this
      ensures Valid()
      ensures var spec := AddReply(hash, old(entries), id, m, content);
              && r == (if spec.err == Ok && stored.None? then spec.(err := OtherError) else spec)
              && (spec.err == Ok ==> Fate(m.labels, stored))
              && entries == (if stored.None? then old(entries) else AfterAdd(hash, old(entries), id, m.(labels := stored.value), content))
      ensures forall key :: key in old(objects) ==> key in objects
    {
      var m' := m;
      stored := None;
      if m'.digest != "" {
        SanitizeIsIdentity(m'.digest);
        if Sanitize(m'.digest).None? {
          return Reply(OtherError, m', None), None;
        }
        m' := m'.(digest := Sanitize(m'.digest).value);
        if Exists(RefKey(prefix, m'.digest, id)) {
          return Reply(AlreadyExists, m', None), None;
        }
        AbsentMarker(id, m'.digest);
      }
      m' := m'.(size := |content|);
      var d := hash(content);
      if m'.digest == "" {
        m' := m'.(digest := d);
        if Exists(RefKey(prefix, d, id)) {
          return Reply(AlreadyExists, m', None), None;
        }
        AbsentMarker(id, d);
      } else if m'.digest != d {
        return Reply(DigestMismatch, m', None), None;
      }
      PutBlob(d, content);
      var ok;
      ok, stored := PutRef(id, d, m.labels, content, |content|);
      r := Reply(if ok then Ok else OtherError, m', None);
    }

    lemma AbsentMarker(id: StoreId, d: Digest)
      requires Valid() && Digests.Valid(d) && RefKey(prefix, d, id) !in objects
      ensures (id, d) !in entries
    {
      if (id, d) in entries { PresentMarker(id, d); }
    }

    lemma PresentMarker(id: StoreId, d: Digest)
      requires Valid() && (id, d) in entries
      ensures Digests.Valid(d) && MarkerOk((id, d))
    {
      var k := (id, d);
      assert entries[k] == entries[k];
    }

    // Uploads the content, unless some store already has.
    method PutBlob(d: Digest, content: Bytes)
      requires Valid() && Digests.Valid(d) && hash(content) == d && Injective(hash)
      modifies this`objects
      ensures Valid() && BlobKey(prefix, d) in objects && objects[BlobKey(prefix, d)].body == content
      ensures forall key :: key in old(objects) ==> key in objects
    {
      if Exists(BlobKey(prefix, d)) {
        return;
      }
      forall e, id | Digests.Valid(e) ensures RefKey(prefix, e, id) != BlobKey(prefix, d) {
        KindsAreDisjoint(prefix, d, e, id);
      }
      forall e | Digests.Valid(e) && BlobKey(prefix, e) == BlobKey(prefix, d) ensures e == d {
        BlobKeyIsInjective(prefix, e, d);
      }
      objects := objects[BlobKey(prefix, d) := Stored(content, map[])];
    }

    // Writes the marker, over any previous one.
    method PutRef(id: StoreId, d: Digest, labels: Labels, ghost content: Bytes, size: nat) returns (ok: bool, ghost stored: Option<Labels>)
      requires Valid() && Digests.Valid(d) && size == |content|
      requires BlobKey(prefix, d) in objects && objects[BlobKey(prefix, d)].body == content
      modifies this
      ensures Valid() && Fate(labels, stored) && ok == stored.Some?
      ensures entries == if ok then old(entries)[(id, d) := Entry(content, stored.value)] else old(entries)
      ensures forall key :: key in old(objects) ==> key in objects
    {
      var h := MarkerHeader(labels, size);
      ok := h.Some?;
      stored := None;
      if ok {
        stored := Some(LabelsOf(h.value));
        PutMarker(id, d, h.value, content);
      }
    }

    method PutMarker(id: StoreId, d: Digest, h: Header, ghost content: Bytes)
      requires Valid() && Digests.Valid(d) && CanonicalHeader(h) && SizeOf(h) == |content|
      requires BlobKey(prefix, d) in objects && objects[BlobKey(prefix, d)].body == content
      modifies this
      ensures Valid()
      ensures entries == old(entries)[(id, d) := Entry(content, LabelsOf(h))]
      ensures forall key :: key in old(objects) ==> key in objects
    {
      forall e ensures Digests.Valid(e) ==> BlobKey(prefix, e) != RefKey(prefix, d, id) {
        if Digests.Valid(e) { KindsAreDisjoint(prefix, e, d, id); }
      }
      forall e, x | Digests.Valid(e) && RefKey(prefix, e, x) == RefKey(prefix, d, id) ensures e == d && x == id {
        RefKeyIsInjective(prefix, e, x, d, id);
      }
      ghost var before := entries;
      objects := objects[RefKey(prefix, d, id) := Stored([], h)];
      entries := entries[(id, d) := Entry(content, LabelsOf(h))];
      forall k | k in entries ensures Digests.Valid(k.1) && MarkerOk(k) {
        if k != (id, d) { assert before[k] == entries[k]; }
      }
    }

    method Look(id: StoreId, d: Digest, bytes: bool) returns (r: Reply)
      requires Valid()
      ensures r == StoreSpec.Look(entries, id, d, bytes)
    {
      SanitizeIsIdentity(d);
      if Sanitize(d).None? {
        return Refused(NotExist);
      }
      if !Exists(RefKey(prefix, d, id)) {
        AbsentMarker(id, d);
        return Refused(NotExist);
      }
      PresentMarker(id, d);
      var labels, size := MetaToLabels(objects[RefKey(prefix, d, id)].header);
      if !bytes {
        return Reply(Ok, Meta(d, labels, size), None);
      }
      if !Exists(BlobKey(prefix, d)) {
        return Refused(NotExist);
      }
      r := Reply(Ok, Meta(d, labels, size), Some(objects[BlobKey(prefix, d)].body));
    }

    method Label(id: StoreId, d: Digest, labels: Labels) returns (r: Reply, ghost stored: Option<Labels>)
      requires Valid()
      modifies this
      ensures Valid()
      ensures var spec := LabelReply(old(entries), id, d);
              && r == (if spec.err == Ok && stored.None? then Refused(OtherError) else spec)
              && (spec.err == Ok ==> Fate(labels, stored))
      ensures entries == if stored.None? then old(entries) else AfterLabel(old(entries), id, d, stored.value)
    {
      stored := None;
      SanitizeIsIdentity(d);
      if Sanitize(d).None? {
        return Refused(NotExist), None;
      }
      if !Exists(RefKey(prefix, d, id)) {
        AbsentMarker(id, d);
        return Refused(NotExist), None;
      }
      PresentMarker(id, d);
      ghost var content := entries[(id, d)].content;
      var _, size := MetaToLabels(objects[RefKey(prefix, d, id)].header);
      var ok;
      ok, stored := PutRef(id, d, labels, content, size);
      r := Refused(if ok then Ok else OtherError);
    }

    // Only the marker goes; the shared object stays.
    method Erase(id: StoreId, d: Digest) returns (r: Reply)
      requires Valid()
      modifies this
      ensures Valid()
      ensures r == Refused(Ok)
      ensures entries == AfterErase(old(entries), id, d)
      ensures Digests.Valid(d) ==> objects == old(objects) - {RefKey(prefix, d, id)}
    {
      r := Refused(Ok);
      SanitizeIsIdentity(d);
      if Sanitize(d).None? {
        entries := AfterErase(entries, id, d);
        return;
      }
      DeleteRef(id, d);
    }

    method DeleteRef(id: StoreId, d: Digest)
      requires Valid() && Digests.Valid(d)
      modifies this
      ensures Valid()
      ensures entries == old(entries) - {(id, d)} && objects == old(objects) - {RefKey(prefix, d, id)}
    {
      forall e ensures Digests.Valid(e) ==> BlobKey(prefix, e) != RefKey(prefix, d, id) {
        if Digests.Valid(e) { KindsAreDisjoint(prefix, e, d, id); }
      }
      forall e, x | Digests.Valid(e) && RefKey(prefix, e, x) == RefKey(prefix, d, id) ensures e == d && x == id {
        RefKeyIsInjective(prefix, e, x, d, id);
      }
      ghost var before := entries;
      objects := objects - {RefKey(prefix, d, id)};
      entries := entries - {(id, d)};
      forall k | k in entries ensures Digests.Valid(k.1) && MarkerOk(k) {
        assert before[k] == entries[k];
      }
    }

    // With portable labels the bucket is an exact copy of the specification.
    method Perform(call: Call) returns (r: Reply)
      requires Valid() && Canonical(hash) && Injective(hash) && PortableCall(call)
      modifies this
      ensures Valid()
      ensures r == Answer(hash, old(entries), call) && entries == After(hash, old(entries), call)
    {
      match call
      case Add(id, m, content) =>
        r := AddPortable(id, m, content);
      case Get(id, d) => r := Look(id, d, false);
      case Open(id, d) => r := Look(id, d, true);
      case Label(id, d, labels) => r := LabelPortable(id, d, labels);
      case Erase(id, d) => r := Erase(id, d);
    }

    method AddPortable(id: StoreId, m: Meta, content: Bytes) returns (r: Reply)
      requires Valid() && Canonical(hash) && Injective(hash) && Portable(m.labels)
      modifies this
      ensures Valid() && r == AddReply(hash, old(entries), id, m, content)
      ensures entries == AfterAdd(hash, old(entries), id, m, content)
    {
      ghost var stored;
      r, stored := Add(id, m, content);
      if AddReply(hash, old(entries), id, m, content).err == Ok { LabelsSurviveIffPortable(m.labels, stored); }
      if stored.Some? { RefusalIgnoresLabels(hash, old(entries), id, m, stored.value, content); }
    }

    method LabelPortable(id: StoreId, d: Digest, labels: Labels) returns (r: Reply)
      requires Valid() && Portable(labels)
      modifies this
      ensures Valid() && r == LabelReply(old(entries), id, d) && entries == AfterLabel(old(entries), id, d, labels)
    {
      ghost var stored;
      r, stored := Label(id, d, labels);
      if (id, d) in old(entries) { LabelsSurviveIffPortable(labels, stored); }
    }
  }

  predicate PortableCall(call: Call) {
    match call
    case Add(_, m, _) => Portable(m.labels)
    case Label(_, _, labels) => Portable(labels)
    case _ => true
  }
}
