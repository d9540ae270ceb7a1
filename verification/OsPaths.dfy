/** The paths of os.go, as filepath.Join and filepath.Clean build them on Unix: which
    store ids have directories of their own. */
module OsPaths {
  import opened Base
  import opened GoStrings
  import opened Digests

  // ---- filepath.Clean and filepath.Join ----

  predicate Rooted(path: string) {
    path != "" && path[0] == '/'
  }

  // One element on top of the resolved ones.
  function Push(rooted: bool, out: seq<string>, e: string): seq<string> {
    if e == "" || e == "." then out
    else if e == ".." then
      if out != [] && out[|out| - 1] != ".." then out[..|out| - 1]
      else if rooted then out else out + [".."]
    else out + [e]
  }

  function Resolve(rooted: bool, out: seq<string>, elems: seq<string>): seq<string>
    decreases |elems|
  {
    if elems == [] then out else Resolve(rooted, Push(rooted, out, elems[0]), elems[1..])
  }

  function Slashed(elems: seq<string>): string {
    if elems == [] then "" else if |elems| == 1 then elems[0] else elems[0] + ['/'] + Slashed(elems[1..])
  }

  function Show(rooted: bool, out: seq<string>): string {
    if rooted then ['/'] + Slashed(out) else if out == [] then "." else Slashed(out)
  }

  function Clean(path: string): string {
    if path == "" then "." else Show(Rooted(path), Resolve(Rooted(path), [], Split(path, '/')))
  }

  // Leading empty elements are dropped.
  function Join(elems: seq<string>): string {
    if elems == [] then "" else if elems[0] == "" then Join(elems[1..]) else Clean(Slashed(elems))
  }

  // ---- The layout ----

  function RepoRoot(root: string, id: StoreId): string {
    Join([root, "repos", id])
  }

  function PathToRepo(root: string, id: StoreId, d: Digest): string
    requires Valid(d)
  {
    Join([RepoRoot(root, id)] + DigestElems(d))
  }

  function PathToBlob(root: string, d: Digest): string
    requires Valid(d)
  {
    Join([root, "share"] + DigestElems(d))
  }

  function PathToLock(root: string, d: Digest): string {
    Join([Join([root, "locks"]), d])
  }

  function DigestElems(d: Digest): seq<string>
    requires Valid(d)
  {
    var v := Encoded(d);
    assert |v| >= 64 by { NoSlash(d); }
    [Algorithm(d), v[..2], v[2..4], v[4..]]
  }

  // ---- Resolved element lists ----

  // One path element that means itself.
  predicate Plain(e: string) {
    e != "" && e != "." && e != ".." && '/' !in e
  }

  predicate Normal(out: seq<string>) {
    forall i :: 0 <= i < |out| ==> out[i] != "" && out[i] != "." && '/' !in out[i]
  }

  predicate AllPlain(elems: seq<string>) {
    forall i :: 0 <= i < |elems| ==> Plain(elems[i])
  }

  predicate NoSlashes(elems: seq<string>) {
    forall i :: 0 <= i < |elems| ==> '/' !in elems[i]
  }

  // What Clean makes: ".." only at the front, and never in a rooted path.
  predicate Resolved(rooted: bool, out: seq<string>) {
    && Normal(out)
    && forall i :: 0 <= i < |out| && out[i] == ".." ==> !rooted && forall j :: 0 <= j < i ==> out[j] == ".."
  }

  lemma PushKeepsResolved(rooted: bool, out: seq<string>, e: string)
    requires Resolved(rooted, out) && '/' !in e
    ensures Resolved(rooted, Push(rooted, out, e))
  {
    var out' := Push(rooted, out, e);
    if e == ".." && |out'| == |out| + 1 {
      forall j | 0 <= j < |out| ensures out[j] == ".." {
        assert out != [] ==> out[|out| - 1] == "..";
      }
    }
  }

  lemma {:induction false} ResolveKeepsResolved(rooted: bool, out: seq<string>, elems: seq<string>)
    requires Resolved(rooted, out) && NoSlashes(elems)
    ensures Resolved(rooted, Resolve(rooted, out, elems))
    decreases |elems|
  {
    if elems != [] {
      PushKeepsResolved(rooted, out, elems[0]);
      ResolveKeepsResolved(rooted, Push(rooted, out, elems[0]), elems[1..]);
    }
  }

  lemma {:induction false} ResolveConcat(rooted: bool, out: seq<string>, a: seq<string>, b: seq<string>)
    ensures Resolve(rooted, out, a + b) == Resolve(rooted, Resolve(rooted, out, a), b)
    decreases |a|
  {
    if a == [] {
      assert a + b == b;
    } else {
      assert (a + b)[0] == a[0] && (a + b)[1..] == a[1..] + b;
      ResolveConcat(rooted, Push(rooted, out, a[0]), a[1..], b);
    }
  }

  // Plain elements are simply appended.
  lemma {:induction false} ResolvePlain(rooted: bool, out: seq<string>, elems: seq<string>)
    requires AllPlain(elems)
    ensures Resolve(rooted, out, elems) == out + elems
    decreases |elems|
  {
    if elems == [] {
      assert out + elems == out;
    } else {
      ResolvePlain(rooted, out + [elems[0]], elems[1..]);
      assert out + [elems[0]] + elems[1..] == out + elems;
    }
  }

  // Resolving a resolved list gives it back.
  lemma {:induction false} ResolveAgain(rooted: bool, out: seq<string>, elems: seq<string>)
    requires Resolved(rooted, out + elems)
    ensures Resolve(rooted, out, elems) == out + elems
    decreases |elems|
  {
    if elems == [] {
      assert out + elems == out;
    } else {
      assert (out + elems)[|out|] == elems[0];
      if elems[0] == ".." && out != [] { assert (out + elems)[|out| - 1] == ".."; }
      assert out + [elems[0]] + elems[1..] == out + elems;
      ResolveAgain(rooted, out + [elems[0]], elems[1..]);
    }
  }

  lemma {:induction false} SplitSlashed(elems: seq<string>)
    requires elems != [] && NoSlashes(elems)
    ensures Split(Slashed(elems), '/') == elems
    decreases |elems|
  {
    if |elems| == 1 {
      assert Split(elems[0], '/') == [elems[0]];
      assert elems == [elems[0]];
    } else {
      SplitSlashed(elems[1..]);
      SplitConcat(elems[0], Slashed(elems[1..]), '/');
      assert Split(elems[0], '/') == [elems[0]];
      assert [elems[0]] + elems[1..] == elems;
    }
  }

  lemma SlashedStart(elems: seq<string>)
    requires elems != [] && elems[0] != ""
    ensures Slashed(elems) != "" && Slashed(elems)[0] == elems[0][0]
  {
  }

  // A cleaned path stands for its elements.
  lemma ShowIsReadBack(rooted: bool, out: seq<string>)
    requires Resolved(rooted, out)
    ensures var p := Show(rooted, out); p != "" && Rooted(p) == rooted && Resolve(rooted, [], Split(p, '/')) == out
  {
    var p := Show(rooted, out);
    assert [] + out == out;
    ResolveAgain(rooted, [], out);
    if out == [] {
      assert Split("", '/') == [""] && Split(".", '/') == ["."];
      if rooted {
        SplitConcat("", "", '/');
        assert "" + ['/'] + "" == p;
        assert Split(p, '/') == ["", ""];
        ResolveEmpties(rooted);
      } else {
        ResolveDot(rooted);
      }
    } else {
      SplitSlashed(out);
      SlashedStart(out);
      if rooted {
        SplitConcat("", Slashed(out), '/');
        assert "" + ['/'] + Slashed(out) == p;
        assert Split("", '/') == [""];
        ResolveEmptyFirst(rooted, out);
      }
    }
  }

  lemma ResolveEmpties(rooted: bool)
    ensures Resolve(rooted, [], ["", ""]) == []
  {
    assert ["", ""][1..] == [""] && [""][1..] == [];
  }

  lemma ResolveDot(rooted: bool)
    ensures Resolve(rooted, [], ["."]) == []
  {
    assert ["."][1..] == [];
  }

  lemma ResolveEmptyFirst(rooted: bool, elems: seq<string>)
    ensures Resolve(rooted, [], [""] + elems) == Resolve(rooted, [], elems)
  {
    assert ([""] + elems)[1..] == elems;
  }

  lemma ShowIsInjective(rooted: bool, out: seq<string>, out': seq<string>)
    requires Resolved(rooted, out) && Resolved(rooted, out') && Show(rooted, out) == Show(rooted, out')
    ensures out == out'
  {
    ShowIsReadBack(rooted, out);
    ShowIsReadBack(rooted, out');
  }

  // ---- What the layout's paths are ----

  function RootElems(root: string): seq<string> {
    if root == "" then [] else Split(root, '/')
  }

  // The resolved elements of a store's directory.
  function StoreElems(root: string, id: StoreId): seq<string> {
    Resolve(Rooted(root), [], RootElems(root) + ["repos"] + Split(id, '/'))
  }

  function EntryElems(root: string, id: StoreId, d: Digest): seq<string>
    requires Valid(d)
  {
    StoreElems(root, id) + DigestElems(d)
  }

  function ShareElems(root: string, d: Digest): seq<string>
    requires Valid(d)
  {
    Resolve(Rooted(root), [], RootElems(root)) + ["share"] + DigestElems(d)
  }

  lemma DigestElemsArePlain(d: Digest)
    requires Valid(d)
    ensures AllPlain(DigestElems(d)) && |DigestElems(d)| == 4
  {
    NoSlash(d);
    var v := Encoded(d);
    assert forall i :: 0 <= i < |v| ==> IsHexDigit(v[i]) by {
      forall i | 0 <= i < |v| ensures IsHexDigit(v[i]) { assert v[i] == d[i + 7]; }
    }
    HexIsPlain(v[..2]);
    HexIsPlain(v[2..4]);
    HexIsPlain(v[4..]);
    var a := Algorithm(d);
    assert a != "" && |a| == 6;
  }

  lemma HexIsPlain(e: string)
    requires e != "" && forall i :: 0 <= i < |e| ==> IsHexDigit(e[i])
    ensures Plain(e)
  {
    assert e[0] != '.';
  }

  lemma DigestElemsDetermine(d: Digest, d': Digest)
    requires Valid(d) && Valid(d') && DigestElems(d) == DigestElems(d')
    ensures d == d'
  {
    var v, v' := Encoded(d), Encoded(d');
    assert DigestElems(d)[1] == v[..2] && DigestElems(d)[2] == v[2..4] && DigestElems(d)[3] == v[4..] && DigestElems(d)[0] == Algorithm(d);
    assert DigestElems(d')[1] == v'[..2] && DigestElems(d')[2] == v'[2..4] && DigestElems(d')[3] == v'[4..] && DigestElems(d')[0] == Algorithm(d');
    assert v == v[..2] + v[2..4] + v[4..] && v' == v'[..2] + v'[2..4] + v'[4..];
    PartsDetermine(d, d');
  }

  lemma RootHasNoSlashes(root: string)
    ensures NoSlashes(RootElems(root))
  {
    if root != "" { SplitParts(root, '/'); }
  }

  lemma StoreElemsResolved(root: string, id: StoreId)
    ensures Resolved(Rooted(root), StoreElems(root, id))
    ensures Resolved(Rooted(root), Resolve(Rooted(root), [], RootElems(root)))
  {
    RootHasNoSlashes(root);
    SplitParts(id, '/');
    ResolveKeepsResolved(Rooted(root), [], RootElems(root) + ["repos"] + Split(id, '/'));
    ResolveKeepsResolved(Rooted(root), [], RootElems(root));
  }

  // Joining a path, perhaps empty, with further elements.
  lemma {:induction false} JoinSplits(p: string, elems: seq<string>)
    requires p != "" && elems != []
    ensures Join([p] + elems) == Show(Rooted(p), Resolve(Rooted(p), [], Split(p, '/') + Split(Slashed(elems), '/')))
  {
    var all := [p] + elems;
    assert all[1..] == elems;
    assert Slashed(all) == p + ['/'] + Slashed(elems);
    SplitConcat(p, Slashed(elems), '/');
  }

  lemma ReposThenId(id: StoreId)
    ensures Slashed(["repos", id]) == "repos" + ['/'] + id && Split(Slashed(["repos", id]), '/') == ["repos"] + Split(id, '/')
  {
    SlashedTwo("repos", id);
    SplitConcat("repos", id, '/');
    assert Split("repos", '/') == ["repos"];
  }

  lemma RepoRootIs(root: string, id: StoreId)
    ensures RepoRoot(root, id) == Show(Rooted(root), StoreElems(root, id))
  {
    assert [root, "repos", id] == [root] + ["repos", id];
    if root != "" { RepoRootBelow(root, id); } else { RepoRootBare(id); }
  }

  lemma RepoRootBelow(root: string, id: StoreId)
    requires root != ""
    ensures Join([root] + ["repos", id]) == Show(Rooted(root), StoreElems(root, id))
  {
    ReposThenId(id);
    JoinSplits(root, ["repos", id]);
    ThreeParts(RootElems(root), "repos", Split(id, '/'));
  }

  lemma RepoRootBare(id: StoreId)
    ensures Join([""] + ["repos", id]) == Show(false, StoreElems("", id))
  {
    var rest := ["repos", id];
    ReposThenId(id);
    JoinSkipsEmpty(rest);
    SlashedStart(rest);
    assert Join(rest) == Clean(Slashed(rest));
    assert [] + ["repos"] + Split(id, '/') == ["repos"] + Split(id, '/');
  }

  lemma JoinSkipsEmpty(rest: seq<string>)
    ensures Join([""] + rest) == Join(rest)
  {
    assert ([""] + rest)[1..] == rest;
  }

  lemma ThreeParts(a: seq<string>, b: string, c: seq<string>)
    ensures a + [b] + c == a + ([b] + c)
  {
  }

  lemma PathToRepoIs(root: string, id: StoreId, d: Digest)
    requires Valid(d)
    ensures PathToRepo(root, id, d) == Show(Rooted(root), EntryElems(root, id, d))
    ensures Resolved(Rooted(root), EntryElems(root, id, d))
  {
    var r := Rooted(root);
    var store, rest := StoreElems(root, id), DigestElems(d);
    StoreElemsResolved(root, id);
    RepoRootIs(root, id);
    ShowIsReadBack(r, store);
    DigestElemsArePlain(d);
    JoinSplits(RepoRoot(root, id), rest);
    SplitSlashed(rest);
    ResolveConcat(r, [], Split(RepoRoot(root, id), '/'), rest);
    ResolvePlain(r, store, rest);
    AppendPlain(r, store, rest);
  }

  lemma AppendPlain(rooted: bool, out: seq<string>, rest: seq<string>)
    requires Resolved(rooted, out) && AllPlain(rest)
    ensures Resolved(rooted, out + rest)
  {
    forall i | 0 <= i < |out + rest| && (out + rest)[i] == ".."
      ensures !rooted && forall j :: 0 <= j < i ==> (out + rest)[j] == ".."
    {
      assert i < |out|;
    }
  }

  lemma ShareElemsAre(root: string, d: Digest)
    requires Valid(d)
    ensures var rest := ["share"] + DigestElems(d);
            AllPlain(rest) && ShareElems(root, d) == Resolve(Rooted(root), [], RootElems(root) + rest)
            && Resolved(Rooted(root), ShareElems(root, d))
  {
    var r, rest, base := Rooted(root), ["share"] + DigestElems(d), Top(root);
    DigestElemsArePlain(d);
    StoreElemsResolved(root, "");
    ResolveConcat(r, [], RootElems(root), rest);
    ResolvePlain(r, base, rest);
    AppendPlain(r, base, rest);
    assert base + ["share"] + DigestElems(d) == base + rest;
  }

  lemma PathToBlobIs(root: string, d: Digest)
    requires Valid(d)
    ensures PathToBlob(root, d) == Show(Rooted(root), ShareElems(root, d))
    ensures Resolved(Rooted(root), ShareElems(root, d))
  {
    var rest := ["share"] + DigestElems(d);
    ShareElemsAre(root, d);
    JoinsWithRoot(root, "share", DigestElems(d));
    if root != "" {
      SplitSlashed(rest);
      JoinSplits(root, rest);
    } else {
      JoinPlain(rest);
      ResolvePlain(false, [], rest);
      assert [] + rest == rest;
    }
  }

  lemma JoinsWithRoot(root: string, e: string, rest: seq<string>)
    ensures [root, e] + rest == [root] + ([e] + rest)
  {
  }

  // Without a root, the path starts with the first element.
  lemma JoinPlain(rest: seq<string>)
    requires rest != [] && AllPlain(rest)
    ensures Join([""] + rest) == Show(false, rest)
  {
    assert ([""] + rest)[1..] == rest;
    SplitSlashed(rest);
    SlashedStart(rest);
    assert Plain(rest[0]);
    ResolvePlain(false, [], rest);
    assert [] + rest == rest;
  }

  // ---- Main results ----

  // Two stores' entries have one path exactly if the digest is one and the ids resolve
  // to one directory.
  lemma EntriesAliasIff(root: string, id: StoreId, d: Digest, id': StoreId, d': Digest)
    requires Valid(d) && Valid(d')
    ensures PathToRepo(root, id, d) == PathToRepo(root, id', d') <==> d == d' && StoreElems(root, id) == StoreElems(root, id')
  {
    PathToRepoIs(root, id, d);
    PathToRepoIs(root, id', d');
    if PathToRepo(root, id, d) == PathToRepo(root, id', d') {
      var e, e' := EntryElems(root, id, d), EntryElems(root, id', d');
      ShowIsInjective(Rooted(root), e, e');
      DigestElemsArePlain(d);
      DigestElemsArePlain(d');
      assert e[..|e| - 4] == StoreElems(root, id) && e'[..|e'| - 4] == StoreElems(root, id');
      assert e[|e| - 4..] == DigestElems(d) && e'[|e'| - 4..] == DigestElems(d');
      DigestElemsDetermine(d, d');
    }
  }

  function Top(root: string): seq<string> {
    Resolve(Rooted(root), [], RootElems(root))
  }

  lemma StoreElemsOf(root: string, id: StoreId)
    ensures StoreElems(root, id) == Resolve(Rooted(root), Top(root) + ["repos"], Split(id, '/'))
  {
    ResolveConcat(Rooted(root), [], RootElems(root) + ["repos"], Split(id, '/'));
    ResolveConcat(Rooted(root), [], RootElems(root), ["repos"]);
    ResolvePlain(Rooted(root), Top(root), ["repos"]);
  }

  // An id has a directory of its own name under repos exactly if it is one plain path
  // element.
  lemma OwnDirectoryIffPlain(root: string, id: StoreId)
    ensures StoreElems(root, id) == Top(root) + ["repos", id] <==> Plain(id)
  {
    var r, base := Rooted(root), Top(root) + ["repos"];
    StoreElemsOf(root, id);
    StoreElemsResolved(root, id);
    assert Top(root) + ["repos", id] == base + [id];
    if Plain(id) {
      assert Split(id, '/') == [id];
      ResolvePlain(r, base, [id]);
    } else if '/' in id {
      assert (base + [id])[|base|] == id;
    } else {
      assert Split(id, '/') == [id] && [id][1..] == [];
      assert Resolve(r, base, [id]) == Push(r, base, id);
      assert base[|base| - 1] == "repos";
      assert |Push(r, base, id)| <= |base|;
    }
  }

  // ---- Everything together ----

  // What a call on a digest works on, outside stage/.
  datatype Place = ShareAt(d: Digest) | LockAt(d: Digest) | EntryAt(id: StoreId, d: Digest)

  ghost predicate Usable(x: Place) {
    Valid(x.d) && (x.EntryAt? ==> Plain(x.id))
  }

  function PathOf(root: string, x: Place): string
    requires Valid(x.d)
  {
    match x
    case ShareAt(d) => PathToBlob(root, d)
    case LockAt(d) => PathToLock(root, d)
    case EntryAt(id, d) => PathToRepo(root, id, d)
  }

  function ElemsOf(root: string, x: Place): seq<string>
    requires Valid(x.d)
  {
    match x
    case ShareAt(d) => ShareElems(root, d)
    case LockAt(d) => Top(root) + ["locks", d]
    case EntryAt(id, d) => EntryElems(root, id, d)
  }

  lemma AreaIs(root: string, area: string)
    requires Plain(area)
    ensures Join([root, area]) == Show(Rooted(root), Top(root) + [area])
    ensures Resolved(Rooted(root), Top(root) + [area])
  {
    var r, rest := Rooted(root), [area];
    StoreElemsResolved(root, "");
    AppendPlain(r, Top(root), rest);
    ResolveConcat(r, [], RootElems(root), rest);
    ResolvePlain(r, Top(root), rest);
    assert [root, area] == [root] + rest;
    if root != "" {
      SplitSlashed(rest);
      JoinSplits(root, rest);
    } else {
      JoinPlain(rest);
      assert Top(root) + rest == rest;
    }
  }

  lemma DigestIsPlain(d: Digest)
    requires Valid(d)
    ensures Plain(d)
  {
    PartsOf(d);
    NoSlash(d);
  }

  lemma PartsOf(d: Digest)
    requires Valid(d)
    ensures d == Algorithm(d) + [':'] + Encoded(d)
  {
  }

  lemma JoinBelow(r: bool, area: seq<string>, e: string)
    requires Resolved(r, area) && Plain(e)
    ensures Join([Show(r, area), e]) == Show(r, area + [e]) && Resolved(r, area + [e])
  {
    var rest := [e];
    ShowIsReadBack(r, area);
    assert [Show(r, area), e] == [Show(r, area)] + rest;
    JoinSplits(Show(r, area), rest);
    SplitSlashed(rest);
    ResolveConcat(r, [], Split(Show(r, area), '/'), rest);
    ResolvePlain(r, area, rest);
    AppendPlain(r, area, rest);
  }

  lemma PathToLockIs(root: string, d: Digest)
    requires Valid(d)
    ensures PathToLock(root, d) == Show(Rooted(root), Top(root) + ["locks", d])
    ensures Resolved(Rooted(root), Top(root) + ["locks", d])
  {
    DigestIsPlain(d);
    AreaIs(root, "locks");
    JoinBelow(Rooted(root), Top(root) + ["locks"], d);
    assert Top(root) + ["locks"] + [d] == Top(root) + ["locks", d];
  }

  lemma PathOfIs(root: string, x: Place)
    requires Valid(x.d)
    ensures PathOf(root, x) == Show(Rooted(root), ElemsOf(root, x)) && Resolved(Rooted(root), ElemsOf(root, x))
  {
    match x
    case ShareAt(d) => PathToBlobIs(root, d);
    case LockAt(d) => PathToLockIs(root, d);
    case EntryAt(id, d) => PathToRepoIs(root, id, d);
  }

  // Which area a place is in, and what identifies it there.
  lemma AreaOf(root: string, x: Place)
    requires Usable(x)
    ensures var e, n := ElemsOf(root, x), |Top(root)|;
            match x {
              case ShareAt(d) => |e| == n + 5 && e[n] == "share" && e[n + 1..] == DigestElems(d)
              case LockAt(d) => |e| == n + 2 && e[n] == "locks" && e[n + 1] == d
              case EntryAt(id, d) => |e| == n + 6 && e[n] == "repos" && e[n + 1] == id && e[n + 2..] == DigestElems(d)
            }
  {
    DigestElemsArePlain(x.d);
    if x.EntryAt? { OwnDirectoryIffPlain(root, x.id); }
  }

  // No two places have one path, and none lies inside another.
  lemma PlacesAreApart(root: string, x: Place, y: Place)
    requires Usable(x) && Usable(y) && x != y
    ensures PathOf(root, x) != PathOf(root, y) && !(ElemsOf(root, x) <= ElemsOf(root, y))
  {
    AreaOf(root, x);
    AreaOf(root, y);
    var e, e', n := ElemsOf(root, x), ElemsOf(root, y), |Top(root)|;
    if e <= e' {
      assert forall i :: 0 <= i < |e| ==> e[i] == e'[i];
      assert e[n] == e'[n];
      assert |e| == |e'|;
      assert e == e';
      if !x.LockAt? { DigestElemsDetermine(x.d, y.d); }
    }
    PathOfIs(root, x);
    PathOfIs(root, y);
    if PathOf(root, x) == PathOf(root, y) { ShowIsInjective(Rooted(root), e, e'); }
  }

  // ---- Ids that are no plain element ----

  lemma StoreElemsOfParts(root: string, id: StoreId, parts: seq<string>)
    requires parts != [] && NoSlashes(parts) && id == Slashed(parts)
    ensures StoreElems(root, id) == Resolve(Rooted(root), Top(root) + ["repos"], parts)
  {
    StoreElemsOf(root, id);
    SplitSlashed(parts);
  }

  lemma PlainR(root: string)
    ensures StoreElems(root, "r") == Top(root) + ["repos"] + ["r"]
  {
    StoreElemsOfParts(root, "r", ["r"]);
    ResolveOne(Rooted(root), Top(root) + ["repos"], "r");
  }

  lemma DotSlash(root: string)
    ensures StoreElems(root, "./r") == Top(root) + ["repos"] + ["r"]
  {
    SlashedTwo(".", "r");
    StoreElemsOfParts(root, "./r", [".", "r"]);
    ResolveTwo(Rooted(root), Top(root) + ["repos"], ".", "r");
  }

  lemma TrailingSlash(root: string)
    ensures StoreElems(root, "r/") == Top(root) + ["repos"] + ["r"]
  {
    SlashedTwo("r", "");
    StoreElemsOfParts(root, "r/", ["r", ""]);
    ResolveTwo(Rooted(root), Top(root) + ["repos"], "r", "");
  }

  lemma UpAndDownSpelled()
    ensures Slashed(["x", "..", "r"]) == "x/../r"
  {
    SlashedThree("x", "..", "r");
  }

  lemma UpAndDownResolved(rooted: bool, base: seq<string>)
    ensures Resolve(rooted, base, ["x", "..", "r"]) == base + ["r"]
  {
    ResolveThree(rooted, base, "x", "..", "r");
    assert (base + ["x"])[..|base|] == base;
  }

  lemma UpAndDown(root: string)
    ensures StoreElems(root, "x/../r") == Top(root) + ["repos"] + ["r"]
  {
    UpAndDownSpelled();
    StoreElemsOfParts(root, "x/../r", ["x", "..", "r"]);
    UpAndDownResolved(Rooted(root), Top(root) + ["repos"]);
  }

  // "./r", "r/" and "x/../r" are all the store "r".
  lemma AliasedIds(root: string, d: Digest)
    requires Valid(d)
    ensures PathToRepo(root, "./r", d) == PathToRepo(root, "r", d)
    ensures PathToRepo(root, "r/", d) == PathToRepo(root, "r", d)
    ensures PathToRepo(root, "x/../r", d) == PathToRepo(root, "r", d)
  {
    PlainR(root);
    DotSlash(root);
    TrailingSlash(root);
    UpAndDown(root);
    EntriesAliasIff(root, "./r", d, "r", d);
    EntriesAliasIff(root, "r/", d, "r", d);
    EntriesAliasIff(root, "x/../r", d, "r", d);
  }

  lemma SlashedTwo(a: string, b: string)
    ensures Slashed([a, b]) == a + "/" + b
  {
    assert [a, b][1..] == [b];
  }

  lemma SlashedThree(a: string, b: string, c: string)
    ensures Slashed([a, b, c]) == a + "/" + b + "/" + c
  {
    assert [a, b, c][1..] == [b, c];
    SlashedTwo(b, c);
    assert a + "/" + (b + "/" + c) == a + "/" + b + "/" + c;
  }

  lemma ResolveOne(rooted: bool, out: seq<string>, a: string)
    ensures Resolve(rooted, out, [a]) == Push(rooted, out, a)
  {
    assert [a][1..] == [];
  }

  lemma ResolveTwo(rooted: bool, out: seq<string>, a: string, b: string)
    ensures Resolve(rooted, out, [a, b]) == Push(rooted, Push(rooted, out, a), b)
  {
    assert [a, b][1..] == [b];
    ResolveOne(rooted, Push(rooted, out, a), b);
  }

  lemma ResolveThree(rooted: bool, out: seq<string>, a: string, b: string, c: string)
    ensures Resolve(rooted, out, [a, b, c]) == Push(rooted, Push(rooted, Push(rooted, out, a), b), c)
  {
    assert [a, b, c][1..] == [b, c];
    ResolveTwo(rooted, Push(rooted, out, a), b, c);
  }

  // An id can reach inside another store's entry: whatever it holds is wiped by that
  // store's Erase.
  lemma NestedId(root: string, id: StoreId, d: Digest, d': Digest)
    requires Plain(id) && Valid(d) && Valid(d')
    ensures var inner := Slashed([id] + DigestElems(d)); EntryElems(root, id, d) <= EntryElems(root, inner, d')
  {
    var elems := [id] + DigestElems(d);
    DigestElemsArePlain(d);
    var base := Top(root) + ["repos"];
    StoreElemsOfParts(root, Slashed(elems), elems);
    ResolvePlain(Rooted(root), base, elems);
    OwnDirectoryIffPlain(root, id);
    Regroup(Top(root), "repos", id, DigestElems(d));
  }

  lemma Regroup(a: seq<string>, b: string, c: string, rest: seq<string>)
    ensures a + [b] + ([c] + rest) == a + [b, c] + rest
  {
  }

  // ---- What the paths look like ----

  lemma {:induction false} SlashedConcat(a: seq<string>, b: seq<string>)
    requires a != [] && b != []
    ensures Slashed(a + b) == Slashed(a) + ['/'] + Slashed(b)
    decreases |a|
  {
    assert (a + b)[0] == a[0] && (a + b)[1..] == a[1..] + b;
    if |a| == 1 {
      assert a[1..] + b == b;
    } else {
      SlashedConcat(a[1..], b);
    }
  }

  // A root that is clean, and neither the working directory nor "/".
  predicate CleanRoot(root: string) {
    root != "" && Top(root) != [] && Show(Rooted(root), Top(root)) == root
  }

  lemma ShowBelow(root: string, rest: seq<string>)
    requires CleanRoot(root) && rest != []
    ensures Show(Rooted(root), Top(root) + rest) == root + ['/'] + Slashed(rest)
  {
    SlashedConcat(Top(root), rest);
  }

  // Under such a root, each entry and shared blob has the documented path.
  lemma PathsAre(root: string, id: StoreId, d: Digest)
    requires CleanRoot(root) && Plain(id) && Valid(d)
    ensures |Encoded(d)| >= 64
    ensures var v := Encoded(d);
            && PathToRepo(root, id, d) == root + ['/'] + Slashed(["repos", id, Algorithm(d), v[..2], v[2..4], v[4..]])
            && PathToBlob(root, d) == root + ['/'] + Slashed(["share", Algorithm(d), v[..2], v[2..4], v[4..]])
            && PathToLock(root, d) == root + ['/'] + Slashed(["locks", d])
  {
    NoSlash(d);
    PathToRepoIs(root, id, d);
    OwnDirectoryIffPlain(root, id);
    EntryBelow(Top(root), id, d);
    ShowBelow(root, ["repos", id] + DigestElems(d));
    PathToBlobIs(root, d);
    ShareBelow(Top(root), d);
    ShowBelow(root, ["share"] + DigestElems(d));
    PathToLockIs(root, d);
    ShowBelow(root, ["locks", d]);
  }

  lemma EntryBelow(top: seq<string>, id: StoreId, d: Digest)
    requires Valid(d)
    ensures |Encoded(d)| >= 64
    ensures var v := Encoded(d); ["repos", id] + DigestElems(d) == ["repos", id, Algorithm(d), v[..2], v[2..4], v[4..]]
    ensures top + ["repos", id] + DigestElems(d) == top + (["repos", id] + DigestElems(d))
  {
    NoSlash(d);
  }

  lemma ShareBelow(top: seq<string>, d: Digest)
    requires Valid(d)
    ensures |Encoded(d)| >= 64
    ensures var v := Encoded(d); ["share"] + DigestElems(d) == ["share", Algorithm(d), v[..2], v[2..4], v[4..]]
    ensures top + ["share"] + DigestElems(d) == top + (["share"] + DigestElems(d))
  {
    NoSlash(d);
  }
}
