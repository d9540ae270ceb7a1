/** canonicalQuery: the same string for every map iteration order, sorted, and
    readable back into exactly the query it was made from. */
module CanonicalQuery {
  import opened Base
  import opened Encoding
  import opened GoStrings

  type Query = map<string, seq<string>>

  datatype Pair = Pair(k: string, v: string)

  // ---- The order of Go strings, byte by byte ----

  predicate StrLe(a: string, b: string) {
    if a == "" then true
    else if b == "" then false
    else if a[0] == b[0] then StrLe(a[1..], b[1..])
    else a[0] < b[0]
  }

  lemma {:induction false} StrLeTotal(a: string, b: string)
    ensures StrLe(a, b) || StrLe(b, a)
    ensures StrLe(a, b) && StrLe(b, a) ==> a == b
  {
    if a != "" && b != "" && a[0] == b[0] {
      StrLeTotal(a[1..], b[1..]);
      assert a == [a[0]] + a[1..] && b == [b[0]] + b[1..];
    }
  }

  lemma {:induction false} StrLeTransitive(a: string, b: string, c: string)
    requires StrLe(a, b) && StrLe(b, c)
    ensures StrLe(a, c)
  {
    if a != "" && b != "" && c != "" && a[0] == b[0] == c[0] {
      StrLeTransitive(a[1..], b[1..], c[1..]);
    }
  }

  // a is a prefix of b, or smaller at the first byte that differs.
  ghost predicate LexLe(a: string, b: string) {
    a <= b || exists i: nat :: i < |a| && i < |b| && SmallerAt(a, b, i)
  }

  predicate SmallerAt(a: string, b: string, i: nat)
    requires i < |a| && i < |b|
  {
    a[..i] == b[..i] && a[i] < b[i]
  }

  lemma {:induction false} StrLeIsLex(a: string, b: string)
    ensures StrLe(a, b) <==> LexLe(a, b)
  {
    if a != "" && b != "" {
      assert a == [a[0]] + a[1..] && b == [b[0]] + b[1..];
      if a[0] == b[0] {
        StrLeIsLex(a[1..], b[1..]);
        SmallerInTail(a, b);
      } else if a[0] < b[0] {
        assert a[..0] == b[..0];
        assert SmallerAt(a, b, 0);
      } else {
        forall i: nat | i < |a| && i < |b| ensures !SmallerAt(a, b, i) {
          if i > 0 { SameFirst(a, b, i); }
        }
      }
    }
  }

  lemma SameFirst(a: string, b: string, i: nat)
    requires 0 < i < |a| && i < |b|
    ensures a[..i] == b[..i] ==> a[0] == b[0]
  {
    assert a[0] == a[..i][0] && b[0] == b[..i][0];
  }

  lemma SmallerInTail(a: string, b: string)
    requires a != "" && b != "" && a[0] == b[0]
    ensures LexLe(a, b) <==> LexLe(a[1..], b[1..])
  {
    assert a == [a[0]] + a[1..] && b == [b[0]] + b[1..];
    if i: nat :| i < |a| && i < |b| && SmallerAt(a, b, i) {
      assert i > 0;
      assert a[1..][..i - 1] == a[..i][1..] && b[1..][..i - 1] == b[..i][1..];
      assert SmallerAt(a[1..], b[1..], i - 1);
    }
    if i: nat :| i < |a[1..]| && i < |b[1..]| && SmallerAt(a[1..], b[1..], i) {
      assert a[..i + 1] == [a[0]] + a[1..][..i] && b[..i + 1] == [b[0]] + b[1..][..i];
      assert SmallerAt(a, b, i + 1);
    }
  }

  // By key, then by value.
  predicate Le(p: Pair, q: Pair) {
    if p.k == q.k then StrLe(p.v, q.v) else StrLe(p.k, q.k)
  }

  lemma LeTotal(p: Pair, q: Pair)
    ensures Le(p, q) || Le(q, p)
    ensures Le(p, q) && Le(q, p) ==> p == q
  {
    StrLeTotal(p.k, q.k);
    StrLeTotal(p.v, q.v);
  }

  lemma LeTransitive(p: Pair, q: Pair, r: Pair)
    requires Le(p, q) && Le(q, r)
    ensures Le(p, r)
  {
    if p.k == q.k && q.k == r.k {
      StrLeTransitive(p.v, q.v, r.v);
    } else if p.k == q.k || q.k == r.k {
    } else {
      StrLeTransitive(p.k, q.k, r.k);
      StrLeTotal(p.k, q.k);
    }
  }

  ghost predicate Sorted(ps: seq<Pair>) {
    forall i, j :: 0 <= i < j < |ps| ==> Le(ps[i], ps[j])
  }

  // Ascending by key, and for one key by value.
  ghost predicate Ascending(ps: seq<Pair>) {
    forall i, j :: 0 <= i < j < |ps| ==> LexLe(ps[i].k, ps[j].k) && (ps[i].k == ps[j].k ==> LexLe(ps[i].v, ps[j].v))
  }

  lemma SortedIsAscending(ps: seq<Pair>)
    ensures Sorted(ps) <==> Ascending(ps)
  {
    forall i, j | 0 <= i < j < |ps|
      ensures Le(ps[i], ps[j]) <==> LexLe(ps[i].k, ps[j].k) && (ps[i].k == ps[j].k ==> LexLe(ps[i].v, ps[j].v))
    {
      StrLeIsLex(ps[i].k, ps[j].k);
      StrLeIsLex(ps[i].v, ps[j].v);
    }
  }

  // Sorting leaves no choice.
  lemma {:induction false} SortedIsUnique(ps: seq<Pair>, qs: seq<Pair>)
    requires Sorted(ps) && Sorted(qs) && multiset(ps) == multiset(qs)
    ensures ps == qs
    decreases |ps|
  {
    assert |ps| == |multiset(ps)| && |qs| == |multiset(qs)|;
    if ps != [] {
      LeastIsFirst(ps, qs);
      LeastIsFirst(qs, ps);
      LeTotal(ps[0], qs[0]);
      assert ps == [ps[0]] + ps[1..] && qs == [qs[0]] + qs[1..];
      assert multiset(ps[1..]) == multiset(ps) - multiset{ps[0]};
      assert multiset(qs[1..]) == multiset(qs) - multiset{qs[0]};
      SortedIsUnique(ps[1..], qs[1..]);
    }
  }

  lemma LeastIsFirst(ps: seq<Pair>, qs: seq<Pair>)
    requires Sorted(ps) && multiset(ps) == multiset(qs) && ps != [] && qs != []
    ensures Le(ps[0], qs[0])
  {
    assert qs[0] in multiset(qs);
    var i :| 0 <= i < |ps| && ps[i] == qs[0];
    LeTotal(ps[0], ps[0]);
  }

  // ---- Insertion sort stands for sort.Slice ----

  method SortPairs(ps: seq<Pair>) returns (sorted: seq<Pair>)
    ensures Sorted(sorted) && multiset(sorted) == multiset(ps)
  {
    sorted := [];
    for i := 0 to |ps|
      invariant Sorted(sorted) && multiset(sorted) == multiset(ps[..i])
    {
      assert ps[..i + 1] == ps[..i] + [ps[i]];
      sorted := InsertPair(sorted, ps[i]);
    }
    assert ps[..|ps|] == ps;
  }

  method InsertPair(ps: seq<Pair>, p: Pair) returns (r: seq<Pair>)
    requires Sorted(ps)
    ensures Sorted(r) && multiset(r) == multiset(ps) + multiset{p}
  {
    var i := 0;
    while i < |ps| && Le(ps[i], p)
      invariant 0 <= i <= |ps|
      invariant forall j :: 0 <= j < i ==> Le(ps[j], p)
    {
      i := i + 1;
    }
    r := ps[..i] + [p] + ps[i..];
    assert ps == ps[..i] + ps[i..];
    if i < |ps| {
      LeTotal(ps[i], p);
      forall j | i < j < |ps| ensures Le(p, ps[j]) {
        LeTransitive(p, ps[i], ps[j]);
      }
    }
  }

  // ---- The pairs of a query ----

  predicate ByteQuery(q: Query) {
    forall k :: k in q ==> ByteString(k) && forall i :: 0 <= i < |q[k]| ==> ByteString(q[k][i])
  }

  // ps lists every value of every key, as often as q has it, in some order.
  ghost predicate Lists(q: Query, ps: seq<Pair>) {
    forall p: Pair :: multiset(ps)[p] == if p.k in q then multiset(q[p.k])[p.v] else 0
  }

  predicate BytePair(p: Pair) {
    ByteString(p.k) && ByteString(p.v)
  }

  predicate BytePairs(ps: seq<Pair>) {
    forall i :: 0 <= i < |ps| ==> BytePair(ps[i])
  }

  function EncodePair(p: Pair): Pair
    requires BytePair(p)
  {
    Pair(Encode(p.k, true), Encode(p.v, true))
  }

  function DecodePair(p: Pair): Pair {
    Pair(Decode(p.k), Decode(p.v))
  }

  function EncodeAll(ps: seq<Pair>): (r: seq<Pair>)
    requires BytePairs(ps)
    ensures |r| == |ps| && forall i :: 0 <= i < |ps| ==> r[i] == EncodePair(ps[i])
  {
    if ps == [] then [] else EncodeAll(ps[..|ps| - 1]) + [EncodePair(ps[|ps| - 1])]
  }

  function DecodeAll(ps: seq<Pair>): (r: seq<Pair>)
    ensures |r| == |ps| && forall i :: 0 <= i < |ps| ==> r[i] == DecodePair(ps[i])
  {
    if ps == [] then [] else [DecodePair(ps[0])] + DecodeAll(ps[1..])
  }

  function Render(ps: seq<Pair>): string {
    if ps == [] then "" else (if |ps| == 1 then "" else Render(ps[..|ps| - 1]) + "&") + ps[|ps| - 1].k + "=" + ps[|ps| - 1].v
  }

  // s is the canonical form of q: its pairs encoded, in ascending order, and joined.
  ghost predicate IsCanonical(q: Query, s: string) {
    exists ps :: Lists(q, ps) && BytePairs(ps) && Ascending(EncodeAll(ps)) && s == Render(EncodeAll(ps))
  }

  lemma SameBag(q: Query, ps: seq<Pair>, qs: seq<Pair>)
    requires Lists(q, ps) && Lists(q, qs)
    ensures multiset(ps) == multiset(qs)
  {
    forall p: Pair ensures multiset(ps)[p] == multiset(qs)[p] {
    }
  }

  function Without(ps: seq<Pair>, i: nat): seq<Pair>
    requires i < |ps|
  {
    ps[..i] + ps[i + 1..]
  }

  lemma WithoutBag(ps: seq<Pair>, i: nat)
    requires i < |ps|
    ensures multiset(ps) == multiset(Without(ps, i)) + multiset{ps[i]}
  {
    assert ps == ps[..i] + [ps[i]] + ps[i + 1..];
  }

  lemma Cancel(a: multiset<Pair>, b: multiset<Pair>, p: Pair)
    requires a + multiset{p} == b + multiset{p}
    ensures a == b
  {
    forall x ensures a[x] == b[x] {
      assert (a + multiset{p})[x] == (b + multiset{p})[x];
    }
  }

  // es and fs are the images of ps and qs under f.
  lemma {:induction false} MappingKeepsBag(ps: seq<Pair>, qs: seq<Pair>, es: seq<Pair>, fs: seq<Pair>, f: Pair -> Pair)
    requires multiset(ps) == multiset(qs) && |es| == |ps| && |fs| == |qs|
    requires forall i :: 0 <= i < |ps| ==> es[i] == f(ps[i])
    requires forall i :: 0 <= i < |qs| ==> fs[i] == f(qs[i])
    ensures multiset(es) == multiset(fs)
    decreases |ps|
  {
    assert |ps| == |multiset(ps)| && |qs| == |multiset(qs)|;
    if ps != [] {
      assert ps[0] in multiset(qs);
      var i :| 0 <= i < |qs| && qs[i] == ps[0];
      WithoutBag(ps, 0);
      WithoutBag(qs, i);
      Cancel(multiset(Without(ps, 0)), multiset(Without(qs, i)), ps[0]);
      MappingKeepsBag(Without(ps, 0), Without(qs, i), Without(es, 0), Without(fs, i), f);
      WithoutBag(es, 0);
      WithoutBag(fs, i);
    } else {
      assert qs == [];
    }
  }

  lemma EncodeKeepsBag(ps: seq<Pair>, qs: seq<Pair>)
    requires BytePairs(ps) && BytePairs(qs) && multiset(ps) == multiset(qs)
    ensures multiset(EncodeAll(ps)) == multiset(EncodeAll(qs))
  {
    MappingKeepsBag(ps, qs, EncodeAll(ps), EncodeAll(qs), p => if BytePair(p) then EncodePair(p) else p);
  }

  lemma DecodeKeepsBag(ps: seq<Pair>, qs: seq<Pair>)
    requires multiset(ps) == multiset(qs)
    ensures multiset(DecodeAll(ps)) == multiset(DecodeAll(qs))
  {
    MappingKeepsBag(ps, qs, DecodeAll(ps), DecodeAll(qs), DecodePair);
  }

  lemma DecodeEncodePair(p: Pair)
    requires BytePair(p)
    ensures DecodePair(EncodePair(p)) == p
  {
    DecodeEncode(p.k, true);
    DecodeEncode(p.v, true);
  }

  lemma DecodeEncodeAll(ps: seq<Pair>)
    requires BytePairs(ps)
    ensures DecodeAll(EncodeAll(ps)) == ps
  {
    forall i | 0 <= i < |ps| ensures DecodeAll(EncodeAll(ps))[i] == ps[i] {
      DecodeEncodePair(ps[i]);
    }
  }

  // Rearranging encoded pairs rearranges the pairs behind them.
  lemma Rearranged(ps: seq<Pair>, es: seq<Pair>)
    requires BytePairs(ps) && multiset(es) == multiset(EncodeAll(ps))
    ensures BytePairs(DecodeAll(es)) && EncodeAll(DecodeAll(es)) == es && multiset(DecodeAll(es)) == multiset(ps)
  {
    DecodeKeepsBag(es, EncodeAll(ps));
    DecodeEncodeAll(ps);
    forall i | 0 <= i < |es| ensures BytePair(DecodeAll(es)[i]) && EncodePair(DecodeAll(es)[i]) == es[i] {
      assert es[i] in multiset(es);
      var j :| 0 <= j < |ps| && EncodeAll(ps)[j] == es[i];
      DecodeEncodePair(ps[j]);
    }
  }

  // There is one canonical form, whatever order the map was visited in.
  lemma CanonicalIsUnique(q: Query, s: string, s': string)
    requires IsCanonical(q, s) && IsCanonical(q, s')
    ensures s == s'
  {
    var ps :| Lists(q, ps) && BytePairs(ps) && Ascending(EncodeAll(ps)) && s == Render(EncodeAll(ps));
    var qs :| Lists(q, qs) && BytePairs(qs) && Ascending(EncodeAll(qs)) && s' == Render(EncodeAll(qs));
    SameBag(q, ps, qs);
    EncodeKeepsBag(ps, qs);
    SortedIsAscending(EncodeAll(ps));
    SortedIsAscending(EncodeAll(qs));
    SortedIsUnique(EncodeAll(ps), EncodeAll(qs));
  }

  // ---- The method ----

  // raw lists the pairs of the keys done.
  ghost predicate CollectedKeys(q: Query, done: set<string>, raw: seq<Pair>)
    requires done <= q.Keys
  {
    forall p: Pair :: multiset(raw)[p] == if p.k in done then multiset(q[p.k])[p.v] else 0
  }

  lemma EncodeSnoc(ps: seq<Pair>, p: Pair)
    requires BytePairs(ps) && BytePair(p)
    ensures BytePairs(ps + [p]) && EncodeAll(ps + [p]) == EncodeAll(ps) + [EncodePair(p)]
  {
  }

  // The pairs of one key, in the order of its values.
  function Tagged(k: string, values: seq<string>): (r: seq<Pair>)
    ensures |r| == |values|
  {
    if values == [] then [] else Tagged(k, values[..|values| - 1]) + [Pair(k, values[|values| - 1])]
  }

  lemma {:induction false} TaggedBag(k: string, values: seq<string>, p: Pair)
    ensures multiset(Tagged(k, values))[p] == if p.k == k then multiset(values)[p.v] else 0
    decreases |values|
  {
    if values != [] {
      TaggedBag(k, values[..|values| - 1], p);
      assert values == values[..|values| - 1] + [values[|values| - 1]];
    }
  }

  lemma CollectKey(q: Query, done: set<string>, k: string, raw: seq<Pair>)
    requires done <= q.Keys && k in q && k !in done && CollectedKeys(q, done, raw)
    ensures CollectedKeys(q, done + {k}, raw + Tagged(k, q[k]))
  {
    forall p: Pair ensures multiset(raw + Tagged(k, q[k]))[p] == if p.k in done + {k} then multiset(q[p.k])[p.v] else 0 {
      TaggedBag(k, q[k], p);
    }
  }

  predicate ByteValues(values: seq<string>) {
    forall i :: 0 <= i < |values| ==> ByteString(values[i])
  }

  lemma {:induction false} TaggedBytes(k: string, values: seq<string>)
    requires ByteString(k) && ByteValues(values)
    ensures BytePairs(Tagged(k, values))
    decreases |values|
  {
    if values != [] { TaggedBytes(k, values[..|values| - 1]); }
  }

  lemma TaggedSnoc(k: string, values: seq<string>, n: nat)
    requires n < |values|
    ensures Tagged(k, values[..n + 1]) == Tagged(k, values[..n]) + [Pair(k, values[n])]
  {
    assert values[..n + 1][..n] == values[..n];
  }

  lemma EncodeTagged(k: string, values: seq<string>, n: nat)
    requires n < |values| && ByteString(k) && ByteString(values[n]) && BytePairs(Tagged(k, values[..n]))
    ensures BytePairs(Tagged(k, values[..n + 1]))
    ensures EncodeAll(Tagged(k, values[..n + 1])) == EncodeAll(Tagged(k, values[..n])) + [EncodePair(Pair(k, values[n]))]
  {
    TaggedSnoc(k, values, n);
    EncodeSnoc(Tagged(k, values[..n]), Pair(k, values[n]));
  }

  // The inner loop: appends the encoded pairs of one key.
  method EncodeValues(k: string, values: seq<string>, pairs: seq<Pair>) returns (pairs': seq<Pair>)
    requires ByteString(k) && ByteValues(values)
    ensures BytePairs(Tagged(k, values)) && pairs' == pairs + EncodeAll(Tagged(k, values))
  {
    pairs' := pairs;
    for n := 0 to |values|
      invariant BytePairs(Tagged(k, values[..n])) && pairs' == pairs + EncodeAll(Tagged(k, values[..n]))
    {
      EncodeTagged(k, values, n);
      var ek := AwsUriEncode(k, true);
      var ev := AwsUriEncode(values[n], true);
      pairs' := pairs' + [Pair(ek, ev)];
    }
    assert values[..|values|] == values;
  }

  lemma EncodeConcat(ps: seq<Pair>, qs: seq<Pair>)
    requires BytePairs(ps) && BytePairs(qs)
    ensures BytePairs(ps + qs) && EncodeAll(ps + qs) == EncodeAll(ps) + EncodeAll(qs)
  {
    forall i | 0 <= i < |ps + qs| ensures BytePair((ps + qs)[i]) {
    }
    forall i | 0 <= i < |ps + qs| ensures EncodeAll(ps + qs)[i] == (EncodeAll(ps) + EncodeAll(qs))[i] {
    }
  }

  method CanonicalQuery(q: Query) returns (s: string)
    requires ByteQuery(q)
    ensures IsCanonical(q, s)
  {
    var pairs: seq<Pair> := [];
    ghost var raw: seq<Pair> := [];
    var todo := q.Keys;
    while todo != {}
      invariant todo <= q.Keys
      invariant BytePairs(raw) && pairs == EncodeAll(raw) && CollectedKeys(q, q.Keys - todo, raw)
      decreases |todo|
    {
      var k :| k in todo;
      pairs := EncodeValues(k, q[k], pairs);
      EncodeConcat(raw, Tagged(k, q[k]));
      CollectKey(q, q.Keys - todo, k, raw);
      raw := raw + Tagged(k, q[k]);
      assert q.Keys - (todo - {k}) == (q.Keys - todo) + {k};
      todo := todo - {k};
    }
    assert q.Keys - todo == q.Keys;
    var sorted := SortPairs(pairs);
    Rearranged(raw, sorted);
    SortedIsAscending(sorted);
    assert Lists(q, DecodeAll(sorted));
    s := RenderPairs(sorted);
  }

  method RenderPairs(ps: seq<Pair>) returns (s: string)
    ensures s == Render(ps)
  {
    s := "";
    for i := 0 to |ps|
      invariant s == Render(ps[..i])
    {
      assert ps[..i + 1][..i] == ps[..i];
      if i > 0 {
        s := s + "&";
      }
      s := s + ps[i].k;
      s := s + "=";
      s := s + ps[i].v;
    }
    assert ps[..|ps|] == ps;
  }

  // ---- Reading it back ----

  function ParsePair(t: string): Pair {
    if '=' !in t then Pair(Decode(t), "")
    else Pair(Decode(t[..FirstIndex(t, '=')]), Decode(t[FirstIndex(t, '=') + 1..]))
  }

  function ParseParts(parts: seq<string>): (r: seq<Pair>)
    ensures |r| == |parts|
  {
    if parts == [] then [] else ParseParts(parts[..|parts| - 1]) + [ParsePair(parts[|parts| - 1])]
  }

  // The query a server sees.
  function ParseQuery(s: string): seq<Pair> {
    if s == "" then [] else ParseParts(Split(s, '&'))
  }

  lemma NoSeparators(s: string)
    requires ByteString(s)
    ensures '&' !in Encode(s, true) && '=' !in Encode(s, true)
  {
    var e := Encode(s, true);
    forall i | 0 <= i < |e| ensures e[i] != '&' && e[i] != '=' {
      EncodedAlphabet(s, true, i);
    }
  }

  lemma ParseOne(p: Pair)
    requires BytePair(p)
    ensures var t := EncodePair(p).k + "=" + EncodePair(p).v; '&' !in t && ParsePair(t) == p && t != ""
  {
    var e := EncodePair(p);
    NoSeparators(p.k);
    NoSeparators(p.v);
    FirstIndexOf(e.k, e.v, '=');
    var t := e.k + "=" + e.v;
    assert t[..|e.k|] == e.k && t[|e.k| + 1..] == e.v;
    DecodeEncodePair(p);
  }

  function RenderOne(p: Pair): string {
    p.k + "=" + p.v
  }

  lemma RenderSnoc(es: seq<Pair>, e: Pair)
    ensures Render(es + [e]) == if es == [] then RenderOne(e) else Render(es) + ['&'] + RenderOne(e)
  {
    assert (es + [e])[..|es|] == es;
    if es != [] {
      Associate4(Render(es), "&", e.k, "=", e.v);
    }
  }

  lemma Associate4(a: string, b: string, c: string, d: string, e: string)
    ensures a + b + c + d + e == a + b + (c + d + e)
  {
  }

  lemma ParseSnoc(head: string, t: string, p: Pair)
    requires head != "" && '&' !in t && ParsePair(t) == p
    ensures ParseQuery(head + ['&'] + t) == ParseQuery(head) + [p]
  {
    SplitSnoc(head, t, '&');
    var parts := Split(head, '&');
    assert (parts + [t])[..|parts|] == parts;
  }

  lemma ParseSingle(t: string, p: Pair)
    requires t != "" && '&' !in t && ParsePair(t) == p
    ensures ParseQuery(t) == [p]
  {
    assert [t][..0] == [];
    assert ParseParts([t]) == ParseParts([]) + [p];
  }

  ghost predicate Parses(ps: seq<Pair>, es: seq<Pair>) {
    ParseQuery(Render(es)) == ps && (ps != [] ==> Render(es) != "")
  }

  lemma ParseOneMore(init: seq<Pair>, p: Pair, es: seq<Pair>)
    requires BytePair(p) && |es| == |init| && Parses(init, es)
    ensures Parses(init + [p], es + [EncodePair(p)])
  {
    RenderSnoc(es, EncodePair(p));
    ParseOne(p);
    if init == [] {
      ParseSingle(RenderOne(EncodePair(p)), p);
    } else {
      ParseSnoc(Render(es), RenderOne(EncodePair(p)), p);
    }
  }

  lemma ParseAppended(init: seq<Pair>, p: Pair)
    requires BytePairs(init) && BytePair(p) && Parses(init, EncodeAll(init))
    ensures BytePairs(init + [p]) && Parses(init + [p], EncodeAll(init + [p]))
  {
    EncodeSnoc(init, p);
    ParseOneMore(init, p, EncodeAll(init));
  }

  lemma ParseNothing()
    ensures Parses([], EncodeAll([]))
  {
  }

  lemma LastOf(ps: seq<Pair>)
    requires ps != []
    ensures ps == ps[..|ps| - 1] + [ps[|ps| - 1]]
  {
  }

  lemma {:induction false} ParseRender(ps: seq<Pair>)
    requires BytePairs(ps)
    ensures Parses(ps, EncodeAll(ps))
    decreases |ps|
  {
    if ps == [] {
      ParseNothing();
    } else {
      var init, p := ps[..|ps| - 1], ps[|ps| - 1];
      ParseRender(init);
      ParseAppended(init, p);
      LastOf(ps);
    }
  }

  // Reading the canonical form gives back exactly the pairs of the query.
  lemma ParseRecovers(q: Query, s: string)
    requires IsCanonical(q, s)
    ensures Lists(q, ParseQuery(s))
  {
    var ps :| Lists(q, ps) && BytePairs(ps) && Ascending(EncodeAll(ps)) && s == Render(EncodeAll(ps));
    ParseRender(ps);
  }

  // So different queries have different canonical forms.
  lemma CanonicalDetermines(q: Query, q': Query, s: string)
    requires IsCanonical(q, s) && IsCanonical(q', s)
    ensures forall k :: (k in q && q[k] != []) <==> (k in q' && q'[k] != [])
    ensures forall k :: k in q && k in q' ==> multiset(q[k]) == multiset(q'[k])
  {
    ParseRecovers(q, s);
    ParseRecovers(q', s);
    var bag := multiset(ParseQuery(s));
    forall k ensures (k in q && q[k] != []) <==> (k in q' && q'[k] != []) {
      HasValues(q, bag, k);
      HasValues(q', bag, k);
    }
    forall k | k in q && k in q' ensures multiset(q[k]) == multiset(q'[k]) {
      forall v ensures multiset(q[k])[v] == multiset(q'[k])[v] {
        assert bag[Pair(k, v)] == multiset(q[k])[v];
      }
    }
  }

  lemma HasValues(q: Query, bag: multiset<Pair>, k: string)
    requires forall p: Pair :: bag[p] == if p.k in q then multiset(q[p.k])[p.v] else 0
    ensures (k in q && q[k] != []) <==> exists v :: bag[Pair(k, v)] > 0
  {
    if k in q && q[k] != [] {
      assert q[k][0] in multiset(q[k]);
      assert bag[Pair(k, q[k][0])] > 0;
    }
    if v :| bag[Pair(k, v)] > 0 {
      assert Pair(k, v).k == k;
      assert v in multiset(q[k]);
    }
  }

  // ---- What it looks like ----

  // No slashes or other characters that URLs give a meaning, but the separators.
  predicate QueryText(s: string) {
    forall i :: 0 <= i < |s| ==> LetterDigitOrMark(s[i]) || s[i] == '%' || s[i] == '&' || s[i] == '='
  }

  lemma LineIsText(p: Pair)
    requires BytePair(p)
    ensures QueryText(RenderOne(EncodePair(p)))
  {
    var k, v := Encode(p.k, true), Encode(p.v, true);
    forall i | 0 <= i < |k| ensures LetterDigitOrMark(k[i]) || k[i] == '%' {
      EncodedAlphabet(p.k, true, i);
    }
    forall i | 0 <= i < |v| ensures LetterDigitOrMark(v[i]) || v[i] == '%' {
      EncodedAlphabet(p.v, true, i);
    }
  }

  lemma JoinedIsText(a: string, b: string)
    requires QueryText(a) && QueryText(b)
    ensures QueryText(a + ['&'] + b)
  {
  }

  lemma {:induction false} RenderedIsText(ps: seq<Pair>)
    requires BytePairs(ps)
    ensures QueryText(Render(EncodeAll(ps)))
    decreases |ps|
  {
    if ps != [] {
      var init, p := ps[..|ps| - 1], ps[|ps| - 1];
      LastOf(ps);
      RenderedIsText(init);
      EncodeSnoc(init, p);
      RenderSnoc(EncodeAll(init), EncodePair(p));
      LineIsText(p);
      JoinedIsText(Render(EncodeAll(init)), RenderOne(EncodePair(p)));
    }
  }

  lemma CanonicalIsText(q: Query, s: string)
    requires IsCanonical(q, s)
    ensures QueryText(s)
  {
    var ps :| Lists(q, ps) && BytePairs(ps) && Ascending(EncodeAll(ps)) && s == Render(EncodeAll(ps));
    RenderedIsText(ps);
  }

  predicate PlainPair(p: Pair) {
    (forall i :: 0 <= i < |p.k| ==> LetterDigitOrMark(p.k[i])) && forall i :: 0 <= i < |p.v| ==> LetterDigitOrMark(p.v[i])
  }

  lemma PlainPairStays(p: Pair)
    requires PlainPair(p)
    ensures BytePair(p) && EncodePair(p) == p
  {
    PlainStays(p.k, true);
    PlainStays(p.v, true);
  }

  lemma TwoAscend(p: Pair, r: Pair)
    requires p.k != r.k && LexLe(p.k, r.k)
    ensures Ascending([p, r])
  {
  }

  lemma TwoList(p: Pair, r: Pair)
    requires p.k != r.k
    ensures Lists(map[r.k := [r.v], p.k := [p.v]], [p, r])
  {
    var q: Query := map[r.k := [r.v], p.k := [p.v]];
    assert q[p.k] == [p.v] && q[r.k] == [r.v];
    forall x: Pair ensures multiset([p, r])[x] == if x.k in q then multiset(q[x.k])[x.v] else 0 {
    }
  }

  // A query of two plain keys, whatever order the map has them in.
  lemma TwoKeys(p: Pair, r: Pair)
    requires PlainPair(p) && PlainPair(r) && p.k != r.k && LexLe(p.k, r.k)
    ensures IsCanonical(map[r.k := [r.v], p.k := [p.v]], p.k + "=" + p.v + "&" + r.k + "=" + r.v)
  {
    PlainPairStays(p);
    PlainPairStays(r);
    assert [] + [p] == [p] && [p] + [r] == [p, r];
    EncodeSnoc([], p);
    EncodeSnoc([p], r);
    TwoAscend(p, r);
    TwoList(p, r);
    assert EncodeAll([p, r]) == [p, r];
    TwoRendered(p, r);
  }

  lemma TwoRendered(p: Pair, r: Pair)
    ensures Render([p, r]) == p.k + "=" + p.v + "&" + r.k + "=" + r.v
  {
    assert [p, r][..1] == [p];
    assert Render([p]) == p.k + "=" + p.v by { assert "" + p.k == p.k; }
  }
}
