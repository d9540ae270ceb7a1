/** The header part of a SigV4 canonical request (sign in sigv4.go): which headers are
    signed, in which order, and what their text says. */
module SignedHeaders {
  import opened Base
  import opened GoStrings
  import opened Headers
  import Q = CanonicalQuery

  type Signed = seq<Q.Pair>

  // ---- canonicalHeaderValue ----

  predicate IsSpace(ch: char) {
    ch == ' ' || ('\t' <= ch <= '\r')
  }

  // strings.Fields, on ASCII.
  function Fields(s: string): seq<string> {
    if s == "" then []
    else
      var words, ch := Fields(s[..|s| - 1]), s[|s| - 1];
      if IsSpace(ch) then words
      else if |s| == 1 || IsSpace(s[|s| - 2]) || words == [] then words + [[ch]]
      else words[..|words| - 1] + [words[|words| - 1] + [ch]]
  }

  function CanonicalValue(v: string): string {
    Join(Fields(v), " ")
  }

  predicate IsWord(w: string) {
    w != "" && forall i :: 0 <= i < |w| ==> !IsSpace(w[i])
  }

  lemma {:induction false} FieldsAreWords(s: string)
    ensures forall i :: 0 <= i < |Fields(s)| ==> IsWord(Fields(s)[i])
    ensures s != "" && !IsSpace(s[|s| - 1]) ==> Fields(s) != []
    decreases |s|
  {
    if s != "" { FieldsAreWords(s[..|s| - 1]); }
  }

  lemma FieldsStart(a: string, ch: char)
    requires !IsSpace(ch) && (a == "" || IsSpace(a[|a| - 1]))
    ensures Fields(a + [ch]) == Fields(a) + [[ch]]
  {
    assert (a + [ch])[..|a|] == a;
  }

  lemma FieldsExtend(a: string, words: seq<string>, w: string, ch: char)
    requires a != "" && !IsSpace(a[|a| - 1]) && !IsSpace(ch) && Fields(a) == words + [w]
    ensures Fields(a + [ch]) == words + [w + [ch]]
  {
    assert (a + [ch])[..|a|] == a;
    assert (words + [w])[..|words|] == words;
  }

  // A word after a space, or at the start, is a field of its own.
  lemma {:induction false} FieldsSnoc(s: string, w: string)
    requires IsWord(w) && (s == "" || IsSpace(s[|s| - 1]))
    ensures Fields(s + w) == Fields(s) + [w]
    decreases |w|
  {
    var init, last := w[..|w| - 1], w[|w| - 1];
    if init == "" {
      FieldsStart(s, last);
      assert w == [last];
    } else {
      FieldsSnoc(s, init);
      var longer := s + init;
      assert longer[|longer| - 1] == init[|init| - 1];
      FieldsExtend(longer, Fields(s), init, last);
      assert w == init + [last];
      assert s + w == longer + [last];
    }
  }

  lemma FieldsSpace(s: string)
    ensures Fields(s + " ") == Fields(s)
  {
    assert (s + " ")[..|s|] == s;
  }

  lemma Shift(s: string, w: string, rest: seq<string>)
    requires rest != []
    ensures s + Join([w] + rest, " ") == s + w + " " + Join(rest, " ")
  {
    assert ([w] + rest)[1..] == rest;
  }

  lemma Prepend(a: seq<string>, w: string, b: seq<string>)
    ensures a + [w] + b == a + ([w] + b)
  {
  }

  lemma {:induction false} FieldsOfText(s: string, words: seq<string>)
    requires forall i :: 0 <= i < |words| ==> IsWord(words[i])
    requires s == "" || IsSpace(s[|s| - 1])
    ensures Fields(s + Join(words, " ")) == Fields(s) + words
    decreases |words|
  {
    if words == [] {
      assert s + "" == s;
    } else if |words| == 1 {
      FieldsSnoc(s, words[0]);
      assert words == [words[0]];
    } else {
      var w, rest := words[0], words[1..];
      FieldsSnoc(s, w);
      FieldsSpace(s + w);
      FieldsOfText(s + w + " ", rest);
      Shift(s, w, rest);
      Prepend(Fields(s), w, rest);
      assert words == [w] + rest;
    }
  }

  // The canonical value has the same fields, so canonicalizing again changes nothing,
  // and two values have one canonical form exactly when they have the same fields.
  lemma CanonicalValueKeepsFields(v: string)
    ensures Fields(CanonicalValue(v)) == Fields(v)
    ensures CanonicalValue(CanonicalValue(v)) == CanonicalValue(v)
  {
    FieldsAreWords(v);
    FieldsOfText("", Fields(v));
    assert "" + CanonicalValue(v) == CanonicalValue(v);
    assert Fields("") + Fields(v) == Fields(v);
  }

  lemma CanonicalValueIffFields(v: string, w: string)
    ensures CanonicalValue(v) == CanonicalValue(w) <==> Fields(v) == Fields(w)
  {
    CanonicalValueKeepsFields(v);
    CanonicalValueKeepsFields(w);
  }

  // Words with one space between each two are canonical as they are.
  lemma WordsAreCanonical(words: seq<string>)
    requires forall i :: 0 <= i < |words| ==> IsWord(words[i])
    ensures CanonicalValue(Join(words, " ")) == Join(words, " ")
  {
    FieldsOfText("", words);
    assert "" + Join(words, " ") == Join(words, " ") && Fields("") + words == words;
  }

  lemma {:induction false} JoinHasNoNewline(words: seq<string>)
    requires forall i :: 0 <= i < |words| ==> IsWord(words[i])
    ensures '\n' !in Join(words, " ")
  {
    if |words| > 1 { JoinHasNoNewline(words[1..]); }
  }

  // ---- Which headers ----

  predicate NotSigned(lower: string) {
    || lower == "authorization" || lower == "content-length" || lower == "user-agent"
    || lower == "accept-encoding" || lower == "connection" || lower == "x-amzn-trace-id"
  }

  function PairOf(h: Header, n: string): Q.Pair
    requires n in h
  {
    Q.Pair(Lower(n), Join(h[n], ","))
  }

  // Requests hold canonical tokens, and keep the host elsewhere.
  predicate WellNamed(h: Header) {
    forall n :: n in h ==> IsToken(n) && Canon(n) == n && Lower(n) != "host"
  }

  ghost predicate IsHeader(host: string, h: Header, p: Q.Pair) {
    p == Q.Pair("host", host) || exists n :: IsFrom(h, n, p)
  }

  ghost predicate IsFrom(h: Header, n: string, p: Q.Pair) {
    n in h && !NotSigned(Lower(n)) && p == PairOf(h, n)
  }

  ghost predicate SortedByName(ps: Signed) {
    forall i, j :: 0 <= i < j < |ps| ==> Q.LexLe(ps[i].k, ps[j].k)
  }

  ghost predicate DistinctNames(ps: Signed) {
    forall i, j :: 0 <= i < j < |ps| ==> ps[i].k != ps[j].k
  }

  // ps are the headers to sign, in order.
  ghost predicate IsSigned(host: string, h: Header, ps: Signed) {
    SortedByName(ps) && DistinctNames(ps) && forall p :: p in ps <==> IsHeader(host, h, p)
  }

  // The names in `todo` are not collected yet.
  ghost predicate Collected(host: string, h: Header, todo: set<string>, ps: Signed) {
    && DistinctNames(ps)
    && (forall p :: p in ps <==> p == Q.Pair("host", host) || exists n :: n !in todo && IsFrom(h, n, p))
  }

  lemma LowerIsInjective(h: Header, n: string, n': string)
    requires WellNamed(h) && n in h && n' in h && Lower(n) == Lower(n')
    ensures n == n'
  {
    FoldedNamesAgree(n, n');
  }

  lemma CollectedMore(host: string, h: Header, todo: set<string>, ps: Signed, n: string)
    requires WellNamed(h) && n in todo && n in h && Collected(host, h, todo, ps)
    ensures Collected(host, h, todo - {n}, if NotSigned(Lower(n)) then ps else ps + [PairOf(h, n)])
  {
    var ps' := if NotSigned(Lower(n)) then ps else ps + [PairOf(h, n)];
    forall i | 0 <= i < |ps| ensures ps[i].k != Lower(n) {
      assert ps[i] in ps;
      if ps[i] != Q.Pair("host", host) {
        var m :| m !in todo && IsFrom(h, m, ps[i]);
        if Lower(m) == Lower(n) { LowerIsInjective(h, m, n); }
      }
    }
    forall p ensures p in ps' <==> p == Q.Pair("host", host) || exists m :: m !in todo - {n} && IsFrom(h, m, p) {
      if m :| m !in todo - {n} && IsFrom(h, m, p) {
        if m != n { assert m !in todo; }
      }
      if !NotSigned(Lower(n)) && p == PairOf(h, n) { assert n !in todo - {n} && IsFrom(h, n, p); }
      if p in ps && p != Q.Pair("host", host) {
        var m :| m !in todo && IsFrom(h, m, p);
        assert m !in todo - {n};
      }
    }
  }

  lemma SortingKeeps(host: string, h: Header, ps: Signed, sorted: Signed)
    requires Collected(host, h, {}, ps) && Q.Sorted(sorted) && multiset(sorted) == multiset(ps)
    ensures IsSigned(host, h, sorted)
  {
    forall p ensures p in sorted <==> IsHeader(host, h, p) {
      assert p in sorted <==> p in multiset(sorted);
      assert p in ps <==> p in multiset(ps);
      if exists n :: IsFrom(h, n, p) {
        var n :| IsFrom(h, n, p);
        assert n !in {};
      }
    }
    forall i, j | 0 <= i < j < |sorted| ensures sorted[i].k != sorted[j].k {
      NamesStayDistinct(ps, sorted, i, j);
    }
    forall i, j | 0 <= i < j < |sorted| ensures Q.LexLe(sorted[i].k, sorted[j].k) {
      assert Q.Le(sorted[i], sorted[j]);
      Q.StrLeTotal(sorted[i].k, sorted[j].k);
      Q.StrLeIsLex(sorted[i].k, sorted[j].k);
    }
  }

  lemma NamesStayDistinct(ps: Signed, qs: Signed, i: nat, j: nat)
    requires DistinctNames(ps) && multiset(qs) == multiset(ps) && i < j < |qs|
    ensures qs[i].k != qs[j].k
  {
    if qs[i].k == qs[j].k {
      assert qs[i] in multiset(ps) && qs[j] in multiset(ps);
      var a :| 0 <= a < |ps| && ps[a] == qs[i];
      var b :| 0 <= b < |ps| && ps[b] == qs[j];
      assert a == b;
      TwiceInBag(qs, i, j);
      OnceInBag(ps, a);
    }
  }

  lemma TwiceInBag(qs: Signed, i: nat, j: nat)
    requires i < j < |qs| && qs[i] == qs[j]
    ensures multiset(qs)[qs[i]] >= 2
  {
    assert qs == qs[..i] + [qs[i]] + qs[i + 1..j] + [qs[j]] + qs[j + 1..];
  }

  lemma OnceInBag(ps: Signed, a: nat)
    requires DistinctNames(ps) && a < |ps|
    ensures multiset(ps)[ps[a]] == 1
  {
    assert ps == ps[..a] + [ps[a]] + ps[a + 1..];
    assert ps[a] !in ps[..a] && ps[a] !in ps[a + 1..];
  }

  // Insertion sort stands for sort.Slice, and Go's map order is arbitrary.
  method HeadersToSign(host: string, h: Header) returns (ps: Signed)
    ensures WellNamed(h) ==> IsSigned(host, h, ps)
  {
    ps := [Q.Pair("host", host)];
    var todo := h.Keys;
    while todo != {}
      invariant todo <= h.Keys
      invariant WellNamed(h) ==> Collected(host, h, todo, ps)
      decreases |todo|
    {
      var n :| n in todo;
      if WellNamed(h) { CollectedMore(host, h, todo, ps, n); }
      todo := todo - {n};
      var lower := Lower(n);
      if NotSigned(lower) {
        continue;
      }
      ps := ps + [Q.Pair(lower, Join(h[n], ","))];
    }
    ghost var before := ps;
    ps := Q.SortPairs(ps);
    if WellNamed(h) { SortingKeeps(host, h, before, ps); }
  }

  lemma NamesAscend(ps: Signed)
    requires SortedByName(ps) && DistinctNames(ps)
    ensures Q.Sorted(ps)
  {
    Q.SortedIsAscending(ps);
  }

  // One list only, whatever order the headers were visited in.
  lemma SignedIsUnique(host: string, h: Header, ps: Signed, qs: Signed)
    requires IsSigned(host, h, ps) && IsSigned(host, h, qs)
    ensures ps == qs
  {
    forall p ensures multiset(ps)[p] == multiset(qs)[p] {
      assert p in ps <==> p in qs;
      if p in ps {
        var a :| 0 <= a < |ps| && ps[a] == p;
        var b :| 0 <= b < |qs| && qs[b] == p;
        OnceInBag(ps, a);
        OnceInBag(qs, b);
      }
    }
    NamesAscend(ps);
    NamesAscend(qs);
    Q.SortedIsUnique(ps, qs);
  }

  // ---- Their text ----

  function Line(p: Q.Pair): string {
    p.k + ":" + CanonicalValue(p.v)
  }

  function Body(ps: Signed): string
    requires ps != []
  {
    if |ps| == 1 then Line(ps[0]) else Body(ps[..|ps| - 1]) + ['\n'] + Line(ps[|ps| - 1])
  }

  function Text(ps: Signed): string {
    if ps == [] then "" else Body(ps) + "\n"
  }

  function Lines(ps: Signed): (r: seq<string>)
    ensures |r| == |ps| && forall i :: 0 <= i < |ps| ==> r[i] == Line(ps[i])
  {
    seq(|ps|, i requires 0 <= i < |ps| => Line(ps[i]))
  }

  // Each header adds its line.
  lemma TextGrows(ps: Signed, p: Q.Pair)
    ensures Text(ps + [p]) == Text(ps) + p.k + ":" + CanonicalValue(p.v) + "\n"
  {
    assert (ps + [p])[..|ps|] == ps;
  }

  method CanonicalHeaders(ps: Signed) returns (text: string)
    ensures text == Text(ps)
  {
    text := "";
    for i := 0 to |ps|
      invariant text == Text(ps[..i])
    {
      assert ps[..i + 1][..i] == ps[..i];
      text := text + ps[i].k;
      text := text + ":";
      text := text + CanonicalValue(ps[i].v);
      text := text + "\n";
    }
    assert ps[..|ps|] == ps;
  }

  predicate PlainNames(ps: Signed) {
    forall i :: 0 <= i < |ps| ==> ':' !in ps[i].k && '\n' !in ps[i].k
  }

  lemma LineIsOneLine(p: Q.Pair)
    requires '\n' !in p.k
    ensures '\n' !in Line(p)
  {
    FieldsAreWords(p.v);
    JoinHasNoNewline(Fields(p.v));
  }

  lemma OneLine(line: string)
    requires '\n' !in line
    ensures Split(line, '\n') == [line]
  {
  }

  lemma LinesSnoc(ps: Signed, p: Q.Pair)
    ensures Lines(ps + [p]) == Lines(ps) + [Line(p)]
  {
  }

  lemma BodySnoc(ps: Signed, p: Q.Pair)
    requires ps != []
    ensures Body(ps + [p]) == Body(ps) + ['\n'] + Line(p)
  {
    assert (ps + [p])[..|ps|] == ps;
  }

  lemma SplitBodyMore(ps: Signed, p: Q.Pair)
    requires ps != [] && '\n' !in p.k && Split(Body(ps), '\n') == Lines(ps)
    ensures Split(Body(ps + [p]), '\n') == Lines(ps + [p])
  {
    LineIsOneLine(p);
    SplitSnoc(Body(ps), Line(p), '\n');
    BodySnoc(ps, p);
    LinesSnoc(ps, p);
  }

  lemma {:induction false} SplitBody(ps: Signed)
    requires ps != [] && PlainNames(ps)
    ensures Split(Body(ps), '\n') == Lines(ps)
    decreases |ps|
  {
    var init, last := ps[..|ps| - 1], ps[|ps| - 1];
    assert ps == init + [last];
    if init == [] {
      LineIsOneLine(last);
      OneLine(Line(last));
      assert Lines(ps) == [Line(last)];
    } else {
      SplitBody(init);
      SplitBodyMore(init, last);
    }
  }

  // The text pins down every signed name and value, up to white space.
  lemma TextDetermines(ps: Signed, qs: Signed)
    requires PlainNames(ps) && PlainNames(qs) && Text(ps) == Text(qs)
    ensures |ps| == |qs|
    ensures forall i :: 0 <= i < |ps| ==> ps[i].k == qs[i].k && Fields(ps[i].v) == Fields(qs[i].v)
  {
    if ps != [] && qs != [] {
      assert Body(ps) == Text(ps)[..|Text(ps)| - 1] && Body(qs) == Text(qs)[..|Text(qs)| - 1];
      SplitBody(ps);
      SplitBody(qs);
      forall i | 0 <= i < |ps| ensures ps[i].k == qs[i].k && Fields(ps[i].v) == Fields(qs[i].v) {
        assert Lines(ps)[i] == Lines(qs)[i];
        LineDetermines(ps[i], qs[i]);
      }
    }
  }

  lemma LineDetermines(p: Q.Pair, q: Q.Pair)
    requires ':' !in p.k && ':' !in q.k && Line(p) == Line(q)
    ensures p.k == q.k && Fields(p.v) == Fields(q.v)
  {
    FirstIndexOf(p.k, CanonicalValue(p.v), ':');
    FirstIndexOf(q.k, CanonicalValue(q.v), ':');
    var s := Line(p);
    assert s == p.k + [':'] + CanonicalValue(p.v) && s == q.k + [':'] + CanonicalValue(q.v);
    assert |p.k| == |q.k|;
    assert p.k == s[..|p.k|] && q.k == s[..|q.k|];
    assert CanonicalValue(p.v) == s[|p.k| + 1..] && CanonicalValue(q.v) == s[|q.k| + 1..];
    CanonicalValueIffFields(p.v, q.v);
  }

  // ---- The canonical request ----

  function Names(ps: Signed): seq<string> {
    seq(|ps|, i requires 0 <= i < |ps| => ps[i].k)
  }

  function CanonicalRequest(verb: string, uri: string, query: string, ps: Signed, payload: string): string {
    Join([verb, uri, query, Text(ps), Join(Names(ps), ";"), payload], "\n")
  }

  lemma JoinTwo(first: string, rest: seq<string>)
    requires rest != []
    ensures Join([first] + rest, "\n") == first + ['\n'] + Join(rest, "\n")
    ensures |rest| == 1 ==> Join(rest, "\n") == rest[0]
  {
    assert ([first] + rest)[1..] == rest;
  }

  lemma Regroup(text: string, names: string, payload: string)
    ensures text + ['\n'] + (names + ['\n'] + payload) == (text + ['\n'] + names) + ['\n'] + payload
  {
  }

  lemma RequestParts(verb: string, uri: string, query: string, text: string, names: string, payload: string)
    ensures Join([verb, uri, query, text, names, payload], "\n")
            == verb + ['\n'] + (uri + ['\n'] + (query + ['\n'] + ((text + ['\n'] + names) + ['\n'] + payload)))
  {
    assert [names] + [payload] == [names, payload] && [text] + [names, payload] == [text, names, payload];
    assert [query] + [text, names, payload] == [query, text, names, payload];
    assert [uri] + [query, text, names, payload] == [uri, query, text, names, payload];
    assert [verb] + [uri, query, text, names, payload] == [verb, uri, query, text, names, payload];
    JoinTwo(names, [payload]);
    JoinTwo(text, [names, payload]);
    JoinTwo(query, [text, names, payload]);
    JoinTwo(uri, [query, text, names, payload]);
    JoinTwo(verb, [uri, query, text, names, payload]);
    Regroup(text, names, payload);
  }

  lemma FirstDetermines(a: string, b: string, a': string, b': string, ch: char)
    requires ch !in a && ch !in a' && a + [ch] + b == a' + [ch] + b'
    ensures a == a' && b == b'
  {
    FirstIndexOf(a, b, ch);
    FirstIndexOf(a', b', ch);
    var s := a + [ch] + b;
    assert a == s[..|a|] && a' == s[..|a'|] && b == s[|a| + 1..] && b' == s[|a'| + 1..];
  }

  lemma LastDetermines(a: string, b: string, a': string, b': string, ch: char)
    requires ch !in b && ch !in b' && a + [ch] + b == a' + [ch] + b'
    ensures a == a' && b == b'
  {
    var s, s' := a + [ch] + b, a' + [ch] + b';
    assert s[|a|] == ch && s'[|a'|] == ch;
    assert forall i :: |a| < i < |s| ==> s[i] == b[i - |a| - 1];
    assert forall i :: |a'| < i < |s'| ==> s'[i] == b'[i - |a'| - 1];
    assert |a| == |a'|;
    assert a == s[..|a|] && a' == s'[..|a|] && b == s[|a| + 1..] && b' == s'[|a| + 1..];
  }

  // What is signed pins down the method, the path, the query, the payload and, up to
  // white space, every signed header.
  lemma RequestDetermines(verb: string, uri: string, query: string, ps: Signed, payload: string,
                          verb': string, uri': string, query': string, ps': Signed, payload': string)
    requires OneLineEach([verb, uri, query, payload, verb', uri', query', payload']) && PlainNames(ps) && PlainNames(ps')
    requires CanonicalRequest(verb, uri, query, ps, payload) == CanonicalRequest(verb', uri', query', ps', payload')
    ensures verb == verb' && uri == uri' && query == query' && payload == payload' && |ps| == |ps'|
    ensures forall i :: 0 <= i < |ps| ==> ps[i].k == ps'[i].k && Fields(ps[i].v) == Fields(ps'[i].v)
  {
    var all := [verb, uri, query, payload, verb', uri', query', payload'];
    assert forall i :: 0 <= i < |all| ==> '\n' !in all[i];
    assert '\n' !in all[0] && '\n' !in all[1] && '\n' !in all[2] && '\n' !in all[3];
    assert '\n' !in all[4] && '\n' !in all[5] && '\n' !in all[6] && '\n' !in all[7];
    var text, names, text', names' := Text(ps), Join(Names(ps), ";"), Text(ps'), Join(Names(ps'), ";");
    RequestParts(verb, uri, query, text, names, payload);
    RequestParts(verb', uri', query', text', names', payload');
    NamesAreOneLine(Names(ps));
    NamesAreOneLine(Names(ps'));
    PartsDetermine(verb, uri, query, text, names, payload, verb', uri', query', text', names', payload');
    TextDetermines(ps, ps');
  }

  lemma PartsDetermine(verb: string, uri: string, query: string, text: string, names: string, payload: string,
                       verb': string, uri': string, query': string, text': string, names': string, payload': string)
    requires '\n' !in verb && '\n' !in uri && '\n' !in query && '\n' !in names && '\n' !in payload
    requires '\n' !in verb' && '\n' !in uri' && '\n' !in query' && '\n' !in names' && '\n' !in payload'
    requires verb + ['\n'] + (uri + ['\n'] + (query + ['\n'] + ((text + ['\n'] + names) + ['\n'] + payload)))
          == verb' + ['\n'] + (uri' + ['\n'] + (query' + ['\n'] + ((text' + ['\n'] + names') + ['\n'] + payload')))
    ensures verb == verb' && uri == uri' && query == query' && text == text' && payload == payload'
  {
    var tail, tail' := (text + ['\n'] + names) + ['\n'] + payload, (text' + ['\n'] + names') + ['\n'] + payload';
    FirstDetermines(verb, uri + ['\n'] + (query + ['\n'] + tail), verb', uri' + ['\n'] + (query' + ['\n'] + tail'), '\n');
    FirstDetermines(uri, query + ['\n'] + tail, uri', query' + ['\n'] + tail', '\n');
    FirstDetermines(query, tail, query', tail', '\n');
    LastDetermines(text + ['\n'] + names, payload, text' + ['\n'] + names', payload', '\n');
    LastDetermines(text, names, text', names', '\n');
  }

  predicate OneLineEach(parts: seq<string>) {
    forall i :: 0 <= i < |parts| ==> '\n' !in parts[i]
  }

  lemma {:induction false} NamesAreOneLine(names: seq<string>)
    requires OneLineEach(names)
    ensures '\n' !in Join(names, ";")
  {
    if |names| > 1 { NamesAreOneLine(names[1..]); }
  }

  // ---- Which headers are in the list ----

  // Every header is signed, with its values joined by commas, but these.
  lemma AllOthersAreSigned(host: string, h: Header, ps: Signed, n: string)
    requires IsSigned(host, h, ps) && n in h
    requires Lower(n) != "authorization" && Lower(n) != "content-length" && Lower(n) != "user-agent"
    requires Lower(n) != "accept-encoding" && Lower(n) != "connection" && Lower(n) != "x-amzn-trace-id"
    ensures Q.Pair("host", host) in ps
    ensures h[n] == [] ==> Q.Pair(Lower(n), "") in ps
    ensures |h[n]| == 1 ==> Q.Pair(Lower(n), h[n][0]) in ps
    ensures |h[n]| == 2 ==> Q.Pair(Lower(n), h[n][0] + "," + h[n][1]) in ps
  {
    var p := PairOf(h, n);
    assert IsFrom(h, n, p) && IsHeader(host, h, p);
    assert IsHeader(host, h, Q.Pair("host", host));
    JoinsWithCommas(h[n]);
  }

  lemma JoinsWithCommas(values: seq<string>)
    ensures values == [] ==> Join(values, ",") == ""
    ensures |values| == 1 ==> Join(values, ",") == values[0]
    ensures |values| == 2 ==> Join(values, ",") == values[0] + "," + values[1]
  {
  }

  lemma TheseAreNotSigned(host: string, h: Header, ps: Signed, i: nat)
    requires IsSigned(host, h, ps) && i < |ps|
    ensures ps[i].k != "authorization" && ps[i].k != "content-length" && ps[i].k != "user-agent"
    ensures ps[i].k != "accept-encoding" && ps[i].k != "connection" && ps[i].k != "x-amzn-trace-id"
  {
    assert ps[i] in ps;
    if ps[i] != Q.Pair("host", host) {
      var n :| IsFrom(h, n, ps[i]);
    }
  }
}
