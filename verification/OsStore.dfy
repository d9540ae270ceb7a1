/** os.go one call at a time: a shared name and per-store directories that hard-link
    the same inode, in a file system that is a map from paths. The concurrent behaviour
    of the same code is OsProtocol. */
module OsStore {
  import opened Base
  import opened Digests
  import opened StoreSpec
  import opened LabelWire
  import opened OsPaths

  type Inode = nat

  // A directory under repos/. One without a blob is left over from a crash.
  datatype Dir = Dir(blob: Option<Inode>, labels: Option<seq<Line>>)

  const ATTEMPTS: nat := 5

  // Where things are.
  datatype Layout = Layout(repo: Key -> string, share: Digest -> string)

  function LayoutOf(root: string): Layout {
    Layout((k: Key) => if Digests.Valid(k.1) then PathToRepo(root, k.0, k.1) else "",
           d => if Digests.Valid(d) then PathToBlob(root, d) else "")
  }

  ghost predicate Good(k: Key) {
    Plain(k.0) && Digests.Valid(k.1)
  }

  ghost predicate Apart(at: Layout, k: Key, e: Key) {
    && (at.repo(k) == at.repo(e) ==> k == e)
    && (at.share(k.1) == at.share(e.1) ==> k.1 == e.1)
  }

  ghost predicate Faithful(at: Layout) {
    forall k, e {:trigger Apart(at, k, e)} :: Good(k) && Good(e) ==> Apart(at, k, e)
  }

  lemma LayoutIsFaithful(root: string)
    ensures Faithful(LayoutOf(root))
  {
    var at := LayoutOf(root);
    forall k, e | Good(k) && Good(e) ensures Apart(at, k, e) {
      if k != e { PlacesAreApart(root, EntryAt(k.0, k.1), EntryAt(e.0, e.1)); }
      if k.1 != e.1 { PlacesAreApart(root, ShareAt(k.1), ShareAt(e.1)); }
    }
  }

  function LabelsIn(dir: Dir): Labels {
    if dir.labels.Some? then ReadLines(dir.labels.value) else map[]
  }

  class OsStores {
    const hash: Hash
    const exact: bool             // nlink_linux.go, or nlink.go
    const at: Layout
    var share: map<string, Inode> // by path
    var repos: map<string, Dir>   // by path
    var files: map<Inode, Bytes>
    var next: Inode               // inodes from here on are unused
    ghost var entries: Contents   // what the stores hold, as callers see it
    ghost var dirs: map<string, Key>      // whose directory a path is
    ghost var shares: map<string, Digest> // whose shared name a path is

    ghost predicate Valid()
      reads this
    {
      && Faithful(at)
      && (forall i :: i in files ==> i < next)
      && shares.Keys == share.Keys && (forall x {:trigger ShareOk(x)} :: x in share ==> ShareOk(x))
      && dirs.Keys == repos.Keys && (forall x {:trigger DirOk(x)} :: x in repos ==> DirOk(x))
      && (forall k {:trigger EntryOk(k)} :: k in entries ==> EntryOk(k))
    }

    ghost predicate ShareOk(x: string)
      reads this
      requires x in share && x in shares
    {
      && Digests.Valid(shares[x]) && at.share(shares[x]) == x
      && share[x] in files && hash(files[share[x]]) == shares[x]
    }

    ghost predicate DirOk(x: string)
      reads this
      requires x in repos && x in dirs
    {
      var k := dirs[x];
      && Good(k) && at.repo(k) == x
      && (repos[x].blob.Some? ==>
            var i := repos[x].blob.value;
            && i in files && hash(files[i]) == k.1
            && k in entries && entries[k] == Entry(files[i], LabelsIn(repos[x]))
            && (exact ==> at.share(k.1) in share && share[at.share(k.1)] == i))
    }

    ghost predicate EntryOk(k: Key)
      reads this
    {
      Good(k) && HasBlob(at.repo(k))
    }

    // No shared inode is kept for nobody.
    ghost predicate NoLeak()
      reads this
    {
      forall x :: x in shares ==> exists k :: k in entries && k.1 == shares[x]
    }

    // Every labels file can be read.
    ghost predicate AllReadable()
      reads this
    {
      forall k :: k in entries ==> ReadableLabels(entries[k].labels)
    }

    constructor (hash: Hash, exact: bool, root: string)
      ensures Valid() && NoLeak() && entries == map[] && this.hash == hash && this.exact == exact && at == LayoutOf(root)
    {
      this.hash := hash;
      this.exact := exact;
      at := LayoutOf(root);
      LayoutIsFaithful(root);
      share := map[];
      repos := map[];
      files := map[];
      next := 0;
      entries := map[];
      dirs := map[];
      shares := map[];
    }

    predicate HasBlob(x: string)
      reads this
    {
      x in repos && repos[x].blob.Some?
    }

    // checkDup tells whether the entry is there.
    lemma HasBlobIffEntry(k: Key)
      requires Valid() && Good(k)
      ensures HasBlob(at.repo(k)) <==> k in entries
      ensures at.repo(k) in repos ==> dirs[at.repo(k)] == k
    {
      var x := at.repo(k);
      if x in repos {
        assert DirOk(x) && Apart(at, dirs[x], k);
      }
      assert k in entries ==> EntryOk(k);
    }

    // The names of an inode, or always 1 where they cannot be counted. None: no such
    // shared name.
    function Nlink(x: string): Option<nat>
      reads this
    {
      if x !in share then None
      else if !exact then Some(1)
      else Some(|set y | y in share && share[y] == share[x]| + |set y | y in repos && repos[y].blob == Some(share[x])|)
    }

    // `stored` are the labels as the directory's file keeps them.
    method Add(id: StoreId, m: Meta, content: Bytes) returns (r: Reply, ghost stored: Labels)
      requires Valid() && Canonical(hash) && Injective(hash) && Plain(id)
      modifies this
      ensures Valid() && (old(NoLeak()) ==> NoLeak())
      ensures r == AddReply(hash, old(entries), id, m, content)
      ensures r.err == Ok ==> FileFate(m.labels, stored)
      ensures entries == AfterAdd(hash, old(entries), id, m.(labels := stored), content)
    {
      var m' := m;
      stored := map[];
      if m'.digest != "" {
        SanitizeIsIdentity(m'.digest);
        if Sanitize(m'.digest).None? {
          return Reply(OtherError, m', None), map[];
        }
        m' := m'.(digest := Sanitize(m'.digest).value);
        HasBlobIffEntry((id, m'.digest));
        if HasBlob(at.repo((id, m'.digest))) {
          return Reply(AlreadyExists, m', None), map[];
        }
      }
      var d := hash(content);
      m' := m'.(size := |content|);
      HasBlobIffEntry((id, d));
      if m'.digest == "" {
        m' := m'.(digest := d);
        if HasBlob(at.repo((id, d))) {
          return Reply(AlreadyExists, m', None), map[];
        }
      } else if m'.digest != d {
        return Reply(DigestMismatch, m', None), map[];
      }
      stored := Commit((id, d), content, m.labels);
      r := Reply(Ok, m', None);
    }

    // Add under the lock: stage the directory, share its blob, move it into place.
    method Commit(k: Key, content: Bytes, labels: Labels) returns (ghost stored: Labels)
      requires Valid() && Injective(hash) && hash(content) == k.1 && Good(k) && k !in entries
      modifies this
      ensures Valid() && (old(NoLeak()) ==> NoLeak())
      ensures FileFate(labels, stored) && entries == old(entries)[k := Entry(content, stored)]
    {
      var f := WriteLabels(labels);
      stored := ReadLines(f);
      var i := StageBlob(k.1, content);
      Place(k, i, Dir(Some(i), Some(f)), Entry(content, stored));
      forall x | old(NoLeak()) && x in shares ensures exists e :: e in entries && e.1 == shares[x] {
        if shares[x] == k.1 {
          assert k in entries;
        } else {
          var e :| e in old(entries) && e.1 == old(shares)[x];
          assert e in entries;
        }
      }
    }

    // Moves the staged directory into place: the entry is there.
    method Place(k: Key, i: Inode, staged: Dir, ghost entry: Entry)
      requires Valid() && Good(k) && k !in entries && at.share(k.1) in share && i == share[at.share(k.1)]
      requires i in files && hash(files[i]) == k.1 && staged.blob == Some(i) && entry == Entry(files[i], LabelsIn(staged))
      modifies this`repos, this`entries, this`dirs
      ensures Valid() && entries == old(entries)[k := entry]
    {
      HasBlobIffEntry(k);
      Replace(at.repo(k), staged);
      Enter(k, entry);
    }

    // All is well but at one path.
    ghost predicate ValidBut(x: string)
      reads this
    {
      && Faithful(at)
      && (forall i :: i in files ==> i < next)
      && shares.Keys == share.Keys && (forall y {:trigger ShareOk(y)} :: y in share ==> ShareOk(y))
      && dirs.Keys + {x} == repos.Keys + {x}
      && (forall y {:trigger DirOk(y)} :: y in repos && y in dirs && y != x ==> DirOk(y))
      && (forall k {:trigger EntryOk(k)} :: k in entries ==> EntryOk(k))
    }

    method Replace(x: string, staged: Dir)
      requires Valid() && !HasBlob(x)
      modifies this`repos
      ensures ValidBut(x) && repos == old(repos)[x := staged]
    {
      var moved := MoveStageToRepo(staged, x);
      assert moved;
      forall y | y in share ensures ShareOk(y) {
        assert old(ShareOk(y));
      }
      forall y | y in repos && y in dirs && y != x ensures DirOk(y) {
        assert old(DirOk(y));
      }
      forall e | e in entries ensures EntryOk(e) {
        assert old(EntryOk(e));
      }
    }

    ghost method Enter(k: Key, entry: Entry)
      requires var x := at.repo(k); ValidBut(x) && Good(k) && k !in entries && x in repos && repos[x].blob.Some?
      requires at.share(k.1) in share && repos[at.repo(k)].blob.value == share[at.share(k.1)]
      requires var i := share[at.share(k.1)]; i in files && hash(files[i]) == k.1 && entry == Entry(files[i], LabelsIn(repos[at.repo(k)]))
      modifies this`entries, this`dirs
      ensures Valid() && entries == old(entries)[k := entry]
    {
      var x := at.repo(k);
      entries, dirs := entries[k := entry], dirs[x := k];
      forall y | y in share ensures ShareOk(y) {
        assert old(ShareOk(y));
      }
      forall y | y in repos ensures DirOk(y) {
        assert y != x ==> old(DirOk(y));
      }
      forall e | e in entries ensures EntryOk(e) {
        assert e == k || old(EntryOk(e));
      }
    }

    // Links the shared inode, or writes a new one and shares it.
    method StageBlob(d: Digest, content: Bytes) returns (i: Inode)
      requires Valid() && Injective(hash) && hash(content) == d && Digests.Valid(d)
      modifies this`share, this`shares, this`files, this`next
      ensures Valid() && i in files && files[i] == content
      ensures var x := at.share(d);
              && share == old(share)[x := i] && shares == old(shares)[x := d] && (x in old(share) ==> share == old(share))
    {
      var x := at.share(d);
      SharePathsAreDistinct(d);
      if x in share {
        return share[x];
      }
      i := WriteBlob(content);
      ShareIt(x, d, i);
    }

    method ShareIt(x: string, d: Digest, i: Inode)
      requires Valid() && Digests.Valid(d) && x == at.share(d) && x !in share && i in files && hash(files[i]) == d
      modifies this`share, this`shares
      ensures Valid() && share == old(share)[x := i] && shares == old(shares)[x := d]
    {
      share, shares := share[x := i], shares[x := d];
      forall y | y in share ensures ShareOk(y) {
        assert y != x ==> old(y in share && ShareOk(y));
      }
      forall y | y in repos ensures DirOk(y) {
        assert old(DirOk(y)) && Apart(at, dirs[y], ("r", d));
      }
      forall e | e in entries ensures EntryOk(e) {
        assert old(EntryOk(e));
      }
    }

    lemma SharePathsAreDistinct(d: Digest)
      requires Valid() && Digests.Valid(d)
      ensures at.share(d) in share ==> shares[at.share(d)] == d && ShareOk(at.share(d))
    {
      var x := at.share(d);
      assert x in share ==> ShareOk(x) && Apart(at, ("r", shares[x]), ("r", d));
    }

    // Copies the content to a new inode.
    method WriteBlob(content: Bytes) returns (i: Inode)
      requires Valid()
      modifies this`files, this`next
      ensures Valid() && i !in old(files) && files == old(files)[i := content]
    {
      i := next;
      next := next + 1;
      files := files[i := content];
      forall y | y in share ensures ShareOk(y) {
        assert old(ShareOk(y));
      }
      forall y | y in repos ensures DirOk(y) {
        assert old(DirOk(y));
      }
      forall e | e in entries ensures EntryOk(e) {
        assert old(EntryOk(e));
      }
    }

    method MoveStageToRepo(staged: Dir, x: string) returns (moved: bool)
      requires !HasBlob(x)
      modifies this`repos
      ensures moved && repos == old(repos)[x := staged]
    {
      var renames := 0;
      while renames < ATTEMPTS
        invariant repos == old(repos) || repos == old(repos) - {x}
        invariant renames > 0 ==> x !in repos
        invariant renames <= 1
      {
        if x !in repos {
          repos := repos[x := staged];
          return true;
        }
        // The path is occupied: a leftover, which may be removed.
        repos := repos - {x};
        renames := renames + 1;
      }
      moved := false;
    }

    // A labels file that cannot be read makes Get and Open fail.
    method Look(id: StoreId, d: Digest, bytes: bool) returns (r: Reply)
      requires Valid() && Plain(id)
      ensures r == if (id, d) in entries && !ReadableLabels(entries[(id, d)].labels)
                   then Reply(OtherError, Meta(d, map[], |entries[(id, d)].content|), None)
                   else StoreSpec.Look(entries, id, d, bytes)
    {
      SanitizeIsIdentity(d);
      if Sanitize(d).None? {
        InvalidIsAbsent(id, d);
        return Refused(NotExist);
      }
      HasBlobIffEntry((id, d));
      if !HasBlob(at.repo((id, d))) {
        return Refused(NotExist);
      }
      var dir := repos[at.repo((id, d))];
      assert DirOk(at.repo((id, d)));
      var content := files[dir.blob.value];
      var labels := Some(map[]);
      if dir.labels.Some? {
        LegibleIffReadable(dir.labels.value);
        labels := ReadLabels(dir.labels.value);
      }
      if labels.None? {
        return Reply(OtherError, Meta(d, map[], |content|), None);
      }
      r := Reply(Ok, Meta(d, labels.value, |content|), if bytes then Some(content) else None);
    }

    lemma EntriesAreGood(k: Key)
      requires Valid() && k in entries
      ensures Good(k)
    {
      assert EntryOk(k);
    }

    lemma InvalidIsAbsent(id: StoreId, d: Digest)
      requires Valid() && !Digests.Valid(d)
      ensures (id, d) !in entries
    {
      if (id, d) in entries { EntriesAreGood((id, d)); }
    }

    method Label(id: StoreId, d: Digest, labels: Labels) returns (r: Reply, ghost stored: Labels)
      requires Valid() && Plain(id)
      modifies this
      ensures Valid() && (old(NoLeak()) ==> NoLeak())
      ensures r == LabelReply(old(entries), id, d)
      ensures r.err == Ok ==> FileFate(labels, stored)
      ensures entries == AfterLabel(old(entries), id, d, stored)
    {
      stored := map[];
      SanitizeIsIdentity(d);
      if Sanitize(d).None? {
        InvalidIsAbsent(id, d);
        return Refused(NotExist), map[];
      }
      HasBlobIffEntry((id, d));
      if !HasBlob(at.repo((id, d))) {
        return Refused(NotExist), map[];
      }
      var f := WriteLabels(labels);
      stored := ReadLines(f);
      PutLabels((id, d), f);
      r := Refused(Ok);
    }

    method PutLabels(k: Key, f: seq<Line>)
      requires Valid() && Good(k) && k in entries && HasBlob(at.repo(k)) && dirs[at.repo(k)] == k
      modifies this`repos, this`entries
      ensures Valid() && entries == old(entries)[k := old(entries)[k].(labels := ReadLines(f))]
    {
      var x := at.repo(k);
      entries := entries[k := entries[k].(labels := ReadLines(f))];
      repos := repos[x := repos[x].(labels := Some(f))];
      forall y | y in share ensures ShareOk(y) {
        assert old(ShareOk(y));
      }
      forall y | y in repos ensures DirOk(y) {
        assert old(DirOk(y));
      }
      forall e | e in entries ensures EntryOk(e) {
        assert e == k || old(EntryOk(e));
      }
    }

    method Erase(id: StoreId, d: Digest) returns (r: Reply)
      requires Valid() && Plain(id)
      modifies this
      ensures Valid() && (exact && old(NoLeak()) ==> NoLeak())
      ensures r == Refused(Ok)
      ensures entries == AfterErase(old(entries), id, d)
    {
      r := Refused(Ok);
      SanitizeIsIdentity(d);
      if Sanitize(d).None? {
        InvalidIsAbsent(id, d);
        assert AfterErase(entries, id, d) == entries;
        return;
      }
      RemoveRepo((id, d));
      TryCleanup(d);
      forall x | exact && old(NoLeak()) && x in shares ensures exists k :: k in entries && k.1 == shares[x] {
        var k :| k in old(entries) && k.1 == old(shares)[x];
        assert ShareOk(x);
        assert k.1 != d ==> k in entries;
      }
    }

    // os.RemoveAll on the entry's directory.
    method RemoveRepo(k: Key)
      requires Valid() && Good(k)
      modifies this`repos, this`entries, this`dirs
      ensures Valid() && entries == old(entries) - {k}
    {
      HasBlobIffEntry(k);
      OtherPaths(k);
      repos, dirs, entries := repos - {at.repo(k)}, dirs - {at.repo(k)}, entries - {k};
      forall y | y in share ensures ShareOk(y) {
        assert old(ShareOk(y));
      }
      forall y | y in repos ensures DirOk(y) {
        assert old(DirOk(y));
      }
      forall e | e in entries ensures EntryOk(e) {
        assert old(EntryOk(e));
      }
    }

    lemma OtherPaths(k: Key)
      requires Valid() && Good(k)
      ensures forall e :: e in entries && e != k ==> Good(e) && at.repo(e) != at.repo(k)
    {
      forall e | e in entries && e != k ensures Good(e) && at.repo(e) != at.repo(k) {
        assert EntryOk(e) && Apart(at, e, k);
      }
    }

    method TryCleanup(d: Digest)
      requires Valid() && Digests.Valid(d)
      modifies this`share, this`shares
      ensures Valid()
      ensures share == old(share) || share == old(share) - {at.share(d)}
      ensures forall x :: x in shares ==> x in old(shares) && shares[x] == old(shares)[x]
      ensures exact && at.share(d) in share ==> exists k :: k in entries && k.1 == d
    {
      var x := at.share(d);
      var n := Nlink(x);
      SharePathsAreDistinct(d);
      if exact { OneLinkMeansUnused(d); }
      if n.None? || n.value > 1 {
        return;
      }
      Unshare(x);
    }

    method Unshare(x: string)
      requires Valid() && (exact && x in share ==> forall y :: y in repos && dirs[y].1 == shares[x] ==> repos[y].blob.None?)
      modifies this`share, this`shares
      ensures Valid() && share == old(share) - {x} && shares == old(shares) - {x}
    {
      share, shares := share - {x}, shares - {x};
      forall y | y in share ensures ShareOk(y) {
        assert old(ShareOk(y));
      }
      forall y | y in repos ensures DirOk(y) {
        assert old(DirOk(y));
        assert old(x in share ==> ShareOk(x));
      }
      forall e | e in entries ensures EntryOk(e) {
        assert old(EntryOk(e));
      }
    }

    // An exact count above one means that some store still has the digest.
    lemma OneLinkMeansUnused(d: Digest)
      requires Valid() && Digests.Valid(d) && exact
      ensures var x := at.share(d); x in share ==>
                && (Nlink(x).value > 1 <==> exists y :: y in repos && dirs[y].1 == d && repos[y].blob.Some?)
                && (Nlink(x).value > 1 ==> exists k :: k in entries && k.1 == d)
    {
      var x := at.share(d);
      SharePathsAreDistinct(d);
      if x in share {
        var i := share[x];
        var names := set y | y in share && share[y] == i;
        var links := set y | y in repos && repos[y].blob == Some(i);
        forall y | y in names ensures y == x {
          assert share[y] == i && ShareOk(y);
        }
        assert names == {x};
        if links != {} {
          var y :| y in links;
          assert repos[y].blob == Some(i) && DirOk(y);
        }
        forall y | y in repos && dirs[y].1 == d && repos[y].blob.Some? ensures y in links {
          assert repos[y].blob.Some? && DirOk(y);
        }
      }
    }

    // A process that dies while os.RemoveAll is at work leaves a directory without
    // its blob. The entry is gone all the same, and Add will replace the directory.
    method EraseInterrupted(id: StoreId, d: Digest)
      requires Valid() && Plain(id) && Digests.Valid(d) && HasBlob(at.repo((id, d)))
      modifies this
      ensures Valid() && entries == AfterErase(old(entries), id, d) && at.repo((id, d)) in repos
    {
      var x := at.repo((id, d));
      HasBlobIffEntry((id, d));
      OtherPaths((id, d));
      entries := AfterErase(entries, id, d);
      repos := repos[x := repos[x].(blob := None)];
      forall y | y in share ensures ShareOk(y) {
        assert old(ShareOk(y));
      }
      forall y | y in repos ensures DirOk(y) {
        assert old(DirOk(y));
      }
      forall e | e in entries ensures EntryOk(e) {
        assert old(EntryOk(e));
      }
    }

    // With plain labels the file system is an exact copy of the specification.
    method Perform(call: Call) returns (r: Reply)
      requires Valid() && AllReadable() && Canonical(hash) && Injective(hash) && PlainCall(call)
      modifies this
      ensures Valid() && AllReadable() && (exact && old(NoLeak()) ==> NoLeak())
      ensures r == Answer(hash, old(entries), call) && entries == After(hash, old(entries), call)
    {
      match call
      case Add(id, m, content) => r := AddPlain(id, m, content);
      case Get(id, d) => r := Look(id, d, false);
      case Open(id, d) => r := Look(id, d, true);
      case Label(id, d, labels) => r := LabelPlain(id, d, labels);
      case Erase(id, d) => r := Erase(id, d);
    }

    method AddPlain(id: StoreId, m: Meta, content: Bytes) returns (r: Reply)
      requires Valid() && AllReadable() && Canonical(hash) && Injective(hash) && Plain(id) && PlainLabels(m.labels)
      modifies this
      ensures Valid() && AllReadable() && (old(NoLeak()) ==> NoLeak())
      ensures r == AddReply(hash, old(entries), id, m, content) && entries == AfterAdd(hash, old(entries), id, m, content)
    {
      ghost var stored;
      r, stored := Add(id, m, content);
      if r.err == Ok { StoredInFileIff(m.labels, stored); }
      RefusalIgnoresLabels(hash, old(entries), id, m, stored, content);
    }

    method LabelPlain(id: StoreId, d: Digest, labels: Labels) returns (r: Reply)
      requires Valid() && AllReadable() && Plain(id) && PlainLabels(labels)
      modifies this
      ensures Valid() && AllReadable() && (old(NoLeak()) ==> NoLeak())
      ensures r == LabelReply(old(entries), id, d) && entries == AfterLabel(old(entries), id, d, labels)
    {
      ghost var stored;
      r, stored := Label(id, d, labels);
      if r.err == Ok { StoredInFileIff(labels, stored); }
    }
  }

  // A store id with a directory of its own, and labels that files carry.
  ghost predicate PlainCall(call: Call) {
    Plain(call.id) &&
    match call {
      case Add(_, m, _) => PlainLabels(m.labels)
      case Label(_, _, labels) => PlainLabels(labels)
      case _ => true
    }
  }
}
