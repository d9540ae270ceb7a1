/** Labels on their way through header text: what Header.Add, the header writer and the
    header reader of the Go library make of names and values. */
module LabelWire {
  import opened Base
  import opened Headers

  // ---- Values ----

  // What a header value may hold; the reader refuses anything else.
  predicate ValidByte(ch: char) {
    ch == '\t' || (ch as int >= 32 && ch as int != 127)
  }

  predicate ValidValue(v: string) {
    forall i :: 0 <= i < |v| ==> ValidByte(v[i])
  }

  predicate IsBlank(ch: char) {
    ch == ' ' || ch == '\t' || ch == '\n' || ch == '\r'
  }

  function TrimLeft(v: string): (r: string)
    ensures |r| <= |v| && (r != "" ==> !IsBlank(r[0]))
    ensures r == v <==> v == "" || !IsBlank(v[0])
  {
    if v != "" && IsBlank(v[0]) then TrimLeft(v[1..]) else v
  }

  function TrimRight(v: string): (r: string)
    ensures r <= v && (r != "" ==> !IsBlank(r[|r| - 1]))
    ensures r == v <==> v == "" || !IsBlank(v[|v| - 1])
  {
    if v != "" && IsBlank(v[|v| - 1]) then TrimRight(v[..|v| - 1]) else v
  }

  function Trim(v: string): string {
    TrimRight(TrimLeft(v))
  }

  function Unbroken(v: string): (r: string)
    ensures |r| == |v| && forall i :: 0 <= i < |v| ==> r[i] == if v[i] == '\n' || v[i] == '\r' then ' ' else v[i]
  {
    seq(|v|, i requires 0 <= i < |v| => if v[i] == '\n' || v[i] == '\r' then ' ' else v[i])
  }

  // The writer turns line ends into spaces and trims.
  function Scrub(v: string): string {
    Trim(Unbroken(v))
  }

  // A value that passes unchanged: no control characters, no blank at either end.
  predicate CleanValue(v: string) {
    ValidValue(v) && (v != "" ==> !IsBlank(v[0]) && !IsBlank(v[|v| - 1]))
  }

  // What is left of a value: all between its outer blanks, with spaces for line ends.
  lemma ScrubIsMiddle(v: string)
    ensures exists a, b :: Middle(v, a, b, Scrub(v))
  {
    var u := Unbroken(v);
    LeftIsBlank(u);
    RightIsBlank(TrimLeft(u));
    TrimmedParts(v, u, LeftOf(u), TrimLeft(u), Scrub(v), RightOf(TrimLeft(u)));
    assert Middle(v, |LeftOf(u)|, |RightOf(TrimLeft(u))|, Scrub(v));
  }

  predicate AllBlank(s: string) {
    forall i :: 0 <= i < |s| ==> IsBlank(s[i])
  }

  lemma TrimmedParts(v: string, u: string, a: string, l: string, r: string, b: string)
    requires |u| == |v| && forall i :: 0 <= i < |v| ==> u[i] == if v[i] == '\n' || v[i] == '\r' then ' ' else v[i]
    requires u == a + l && l == r + b && AllBlank(a) && AllBlank(b)
    requires (l != "" ==> !IsBlank(l[0])) && (r != "" ==> !IsBlank(r[|r| - 1]))
    ensures Middle(v, |a|, |b|, r)
  {
    assert forall i :: 0 <= i < |a| ==> u[i] == a[i];
    assert forall i :: 0 <= i < |r| ==> r[i] == l[i] && l[i] == u[|a| + i];
    forall i | |a| + |r| <= i < |u| ensures IsBlank(u[i]) {
      assert u[i] == b[i - |a| - |r|];
    }
  }

  ghost predicate Middle(v: string, a: nat, b: nat, r: string) {
    && |v| == a + |r| + b
    && (forall i :: 0 <= i < a || a + |r| <= i < |v| ==> v[i] == ' ' || v[i] == '\t' || v[i] == '\n' || v[i] == '\r')
    && (forall i :: 0 <= i < |r| ==> r[i] == if v[a + i] == '\n' || v[a + i] == '\r' then ' ' else v[a + i])
    && (r != "" ==> r[0] != ' ' && r[0] != '\t' && r[|r| - 1] != ' ' && r[|r| - 1] != '\t')
  }

  function LeftOf(v: string): (a: string) {
    if v != "" && IsBlank(v[0]) then [v[0]] + LeftOf(v[1..]) else ""
  }

  lemma BlankFirst(ch: char, s: string)
    requires IsBlank(ch) && AllBlank(s)
    ensures AllBlank([ch] + s)
  {
  }

  lemma {:induction false} LeftIsBlank(v: string)
    ensures v == LeftOf(v) + TrimLeft(v) && AllBlank(LeftOf(v))
  {
    if v != "" && IsBlank(v[0]) {
      LeftIsBlank(v[1..]);
      BlankFirst(v[0], LeftOf(v[1..]));
      assert v == [v[0]] + v[1..];
      assert [v[0]] + (LeftOf(v[1..]) + TrimLeft(v[1..])) == ([v[0]] + LeftOf(v[1..])) + TrimLeft(v[1..]);
    }
  }

  function RightOf(v: string): (b: string) {
    if v != "" && IsBlank(v[|v| - 1]) then RightOf(v[..|v| - 1]) + [v[|v| - 1]] else ""
  }

  lemma {:induction false} RightIsBlank(v: string)
    ensures v == TrimRight(v) + RightOf(v) && AllBlank(RightOf(v))
    decreases |v|
  {
    if v != "" && IsBlank(v[|v| - 1]) {
      RightIsBlank(v[..|v| - 1]);
      assert v == v[..|v| - 1] + [v[|v| - 1]];
    }
  }

  lemma CleanIffUnchanged(v: string)
    ensures CleanValue(v) <==> Scrub(v) == v && ValidValue(Scrub(v))
  {
    var u := Unbroken(v);
    if CleanValue(v) {
      assert u == v;
    }
    if Scrub(v) == v && ValidValue(Scrub(v)) {
      assert |TrimLeft(u)| == |u| && u == v by {
        assert |Scrub(v)| <= |TrimLeft(u)| <= |u| == |v|;
        assert forall i :: 0 <= i < |v| ==> ValidByte(v[i]) && u[i] == v[i];
      }
      assert TrimLeft(u) == u;
    }
  }

  lemma LegibleIsClean(v: string)
    requires ValidValue(Scrub(v))
    ensures CleanValue(Scrub(v))
  {
    var l := TrimLeft(Unbroken(v));
    var r := TrimRight(l);
    assert r <= l && (r != "" ==> r[0] == l[0]);
  }

  lemma PartIsValid(v: string, a: string, l: string, r: string, b: string)
    requires v == a + l && l == r + b && ValidValue(v)
    ensures ValidValue(r)
  {
    forall i | 0 <= i < |r| ensures ValidByte(r[i]) {
      assert r[i] == l[i] && l[i] == v[|a| + i];
    }
  }

  lemma ScrubIsClean(v: string)
    requires ValidValue(v)
    ensures CleanValue(Scrub(v))
  {
    assert Unbroken(v) == v;
    LeftIsBlank(v);
    RightIsBlank(TrimLeft(v));
    PartIsValid(v, LeftOf(v), TrimLeft(v), Scrub(v), RightOf(TrimLeft(v)));
    LegibleIsClean(v);
  }

  function ScrubAll(vs: seq<string>): (r: seq<string>)
    ensures |r| == |vs| && forall i :: 0 <= i < |vs| ==> r[i] == Scrub(vs[i])
  {
    seq(|vs|, i requires 0 <= i < |vs| => Scrub(vs[i]))
  }

  function Scrubbed(h: Header): Header {
    map n | n in h :: ScrubAll(h[n])
  }

  predicate LegibleValues(vs: seq<string>) {
    forall i :: 0 <= i < |vs| ==> ValidValue(Scrub(vs[i]))
  }

  // The reader accepts the written header.
  predicate Legible(h: Header) {
    forall n :: n in h ==> LegibleValues(h[n])
  }

  predicate CleanList(vs: seq<string>) {
    forall i :: 0 <= i < |vs| ==> CleanValue(vs[i])
  }

  predicate CleanValues(h: Header) {
    forall n :: n in h ==> CleanList(h[n])
  }

  lemma CleanListIff(vs: seq<string>)
    ensures CleanList(vs) <==> ScrubAll(vs) == vs && LegibleValues(vs)
  {
    forall i | 0 <= i < |vs| ensures CleanValue(vs[i]) <==> Scrub(vs[i]) == vs[i] && ValidValue(Scrub(vs[i])) {
      CleanIffUnchanged(vs[i]);
    }
    if ScrubAll(vs) == vs { assert forall i :: 0 <= i < |vs| ==> Scrub(vs[i]) == vs[i]; }
  }

  lemma CleanIffUnscrubbed(h: Header)
    ensures CleanValues(h) <==> Scrubbed(h) == h && Legible(h)
  {
    forall n | n in h ensures CleanList(h[n]) <==> ScrubAll(h[n]) == h[n] && LegibleValues(h[n]) {
      CleanListIff(h[n]);
    }
    if Scrubbed(h) == h { assert forall n :: n in h ==> ScrubAll(h[n]) == Scrubbed(h)[n]; }
  }

  // ---- Names ----

  // The writer drops a header whose name is none.
  predicate NameOk(name: string) {
    name != "" && IsToken(name)
  }

  // What the client puts on the wire. It refuses a request with a header whose name is
  // no token or whose value has control characters.
  function Sent(h: Header): Option<Header> {
    if forall n :: n in h ==> NameOk(n) && LegalList(h[n]) then Some(Scrubbed(h)) else None
  }

  predicate LegalList(vs: seq<string>) {
    forall i :: 0 <= i < |vs| ==> ValidValue(vs[i])
  }

  lemma CanonOfToken(name: string)
    requires IsToken(name)
    ensures IsToken(Canon(name)) && |Canon(name)| == |name|
  {
  }

  // ---- Header.Add for every label ----

  function ValuesAt(h: Header, name: string): seq<string> {
    if name in h then h[name] else []
  }

  ghost predicate Distinct(name: string -> string, labels: Labels) {
    forall k, k' :: k in labels && k' in labels && name(k) == name(k') ==> k == k'
  }

  // h is h0 with the values of the keys in `done` added.
  ghost predicate Added(h0: Header, name: string -> string, labels: Labels, done: set<string>, h: Header) {
    && (forall n :: n in h0 ==> n in h && h0[n] <= h[n])
    && (forall n :: n in h && n !in h0 ==> h[n] != [] && exists key :: Names(name, labels, done, key, n))
    && (Distinct(name, labels) ==> forall key {:trigger labels[key]} :: key in done && key in labels && labels[key] != [] && name(key) !in h0 ==>
          name(key) in h && h[name(key)] == labels[key])
  }

  ghost predicate Names(name: string -> string, labels: Labels, done: set<string>, key: string, n: string) {
    key in done && key in labels && labels[key] != [] && name(key) == n
  }

  method AddValues(h: Header, name: string, values: seq<string>) returns (h': Header)
    ensures h' == if values == [] then h else h[name := ValuesAt(h, name) + values]
  {
    h' := h;
    for i := 0 to |values|
      invariant ValuesAt(h', name) == ValuesAt(h, name) + values[..i]
      invariant i == 0 ==> h' == h
      invariant i > 0 ==> name in h' && h' == h[name := ValuesAt(h', name)]
    {
      assert values[..i + 1] == values[..i] + [values[i]];
      assert (ValuesAt(h, name) + values[..i]) + [values[i]] == ValuesAt(h, name) + values[..i + 1];
      h' := h'[name := ValuesAt(h', name) + [values[i]]];
    }
    assert values[..|values|] == values;
  }

  lemma AddedMore(h0: Header, name: string -> string, labels: Labels, done: set<string>, key: string, h: Header, h': Header)
    requires Added(h0, name, labels, done, h) && key in labels && key !in done
    requires var n := name(key); var values := labels[key];
             h' == if values == [] then h else h[n := ValuesAt(h, n) + values]
    ensures Added(h0, name, labels, done + {key}, h')
  {
    forall n | n in h' && n !in h0 ensures h'[n] != [] && exists k :: Names(name, labels, done + {key}, k, n) {
      if labels[key] != [] && n == name(key) {
        assert Names(name, labels, done + {key}, key, n);
      } else {
        var k :| Names(name, labels, done, k, n);
        assert Names(name, labels, done + {key}, k, n);
      }
    }
    if Distinct(name, labels) {
      forall k ensures !Names(name, labels, done, k, name(key)) {
      }
    }
  }

  // Exactly which values h has, and which comes first. With several keys of one name
  // that is any of theirs.
  ghost predicate Gathered(h0: Header, name: string -> string, labels: Labels, done: set<string>, h: Header) {
    && (forall n, v :: v in ValuesAt(h, n) <==> v in ValuesAt(h0, n) || exists key :: Brings(name, labels, done, key, n, v))
    && (forall n :: n in h && n !in h0 ==> h[n] != [] && exists key :: Leads(name, labels, done, key, n, h[n][0]))
  }

  ghost predicate Brings(name: string -> string, labels: Labels, done: set<string>, key: string, n: string, v: string) {
    key in done && key in labels && name(key) == n && v in labels[key]
  }

  ghost predicate Leads(name: string -> string, labels: Labels, done: set<string>, key: string, n: string, v: string) {
    Names(name, labels, done, key, n) && labels[key][0] == v
  }

  lemma GatheredMore(h0: Header, name: string -> string, labels: Labels, done: set<string>, key: string, h: Header, h': Header)
    requires Gathered(h0, name, labels, done, h) && key in labels && key !in done
    requires var n := name(key); var values := labels[key];
             h' == if values == [] then h else h[n := ValuesAt(h, n) + values]
    ensures Gathered(h0, name, labels, done + {key}, h')
  {
    var done' := done + {key};
    forall n, v ensures v in ValuesAt(h', n) <==> v in ValuesAt(h0, n) || exists k :: Brings(name, labels, done', k, n, v) {
      assert v in ValuesAt(h', n) <==> v in ValuesAt(h, n) || Brings(name, labels, done', key, n, v);
      if v in ValuesAt(h, n) && v !in ValuesAt(h0, n) {
        var k :| Brings(name, labels, done, k, n, v);
        assert Brings(name, labels, done', k, n, v);
      }
      if k :| Brings(name, labels, done', k, n, v) {
        assert k == key || Brings(name, labels, done, k, n, v);
      }
    }
    forall n | n in h' && n !in h0 ensures h'[n] != [] && exists k :: Leads(name, labels, done', k, n, h'[n][0]) {
      if n in h {
        var k :| Leads(name, labels, done, k, n, h[n][0]);
        assert h'[n][0] == h[n][0] && Leads(name, labels, done', k, n, h'[n][0]);
      } else {
        assert Leads(name, labels, done', key, n, h'[n][0]);
      }
    }
  }

  // Go ranges over the labels in any order.
  method AddAll(h0: Header, name: string -> string, labels: Labels) returns (h: Header)
    ensures Added(h0, name, labels, labels.Keys, h) && Gathered(h0, name, labels, labels.Keys, h)
  {
    h := h0;
    var todo := labels.Keys;
    while todo != {}
      invariant todo <= labels.Keys
      invariant Added(h0, name, labels, labels.Keys - todo, h)
      invariant Gathered(h0, name, labels, labels.Keys - todo, h)
      decreases |todo|
    {
      var key :| key in todo;
      var h' := AddValues(h, name(key), labels[key]);
      AddedMore(h0, name, labels, labels.Keys - todo, key, h, h');
      GatheredMore(h0, name, labels, labels.Keys - todo, key, h, h');
      assert labels.Keys - (todo - {key}) == (labels.Keys - todo) + {key};
      todo := todo - {key};
      h := h';
    }
    assert labels.Keys - todo == labels.Keys;
  }

  // ---- What comes back, for any way of naming ----

  // Labels go to the header wire(canon(key)), and are read from wire(key) if ok.
  ghost predicate Naming(name: string -> string, canon: string -> string, wire: string -> string) {
    && (forall k :: name(k) == wire(canon(k)))
    && (forall k :: canon(canon(k)) == canon(k))
    && (forall k, k' :: wire(k) == wire(k') ==> k == k')
  }

  ghost predicate ReadBack(h: Header, wire: string -> string, ok: string -> bool, got: Labels) {
    && (forall key :: key in got <==> wire(key) in h && ok(key))
    && (forall key :: key in got ==> got[key] == h[wire(key)])
  }

  ghost predicate Fit(canon: string -> string, ok: string -> bool, labels: Labels) {
    forall key {:trigger labels[key]} :: key in labels ==> canon(key) == key && labels[key] != [] && ok(key)
  }

  lemma FitComesBack(h0: Header, h: Header, name: string -> string, canon: string -> string, wire: string -> string, ok: string -> bool, labels: Labels, got: Labels)
    requires Naming(name, canon, wire) && Added(h0, name, labels, labels.Keys, h) && ReadBack(h, wire, ok, got)
    requires forall key :: wire(key) in h0 ==> !ok(key)
    requires Fit(canon, ok, labels)
    ensures got == labels
  {
    forall k, k' | k in labels && k' in labels && name(k) == name(k') ensures k == k' {
      assert labels[k] != [] && labels[k'] != [];
      assert name(k) == wire(k) && name(k') == wire(k');
    }
    forall key | key in labels ensures key in got && got[key] == labels[key] {
      assert labels[key] != [];
      assert name(key) == wire(key);
    }
    forall key | key in got ensures key in labels {
      var k :| Names(name, labels, labels.Keys, k, wire(key));
      assert labels[k] != [];
      assert name(k) == wire(k);
    }
  }

  lemma ComesBackIffFit(h0: Header, h: Header, name: string -> string, canon: string -> string, wire: string -> string, ok: string -> bool, labels: Labels, got: Labels)
    requires Naming(name, canon, wire) && Added(h0, name, labels, labels.Keys, h) && ReadBack(h, wire, ok, got)
    requires forall key :: wire(key) in h0 ==> !ok(key)
    ensures got == labels <==> Fit(canon, ok, labels)
  {
    if Fit(canon, ok, labels) { FitComesBack(h0, h, name, canon, wire, ok, labels, got); }
    if got == labels {
      forall key | key in labels ensures canon(key) == key && labels[key] != [] && ok(key) {
        assert wire(key) in h;
        var k :| Names(name, labels, labels.Keys, k, wire(key));
        assert name(k) == wire(canon(k)) && canon(canon(k)) == canon(k);
      }
    }
  }

  // The same of the header as written.
  lemma ScrubbedAdded(h0: Header, name: string -> string, labels: Labels, done: set<string>, h: Header)
    requires Added(h0, name, labels, done, h)
    ensures Added(Scrubbed(h0), name, Scrubbed(labels), done, Scrubbed(h))
  {
    var labels' := Scrubbed(labels);
    forall n | n in Scrubbed(h0) ensures Scrubbed(h0)[n] <= Scrubbed(h)[n] {
      assert h0[n] <= h[n];
      assert forall i :: 0 <= i < |h0[n]| ==> h0[n][i] == h[n][i];
    }
    forall n | n in Scrubbed(h) && n !in Scrubbed(h0) ensures exists key :: Names(name, labels', done, key, n) {
      var key :| Names(name, labels, done, key, n);
      assert Names(name, labels', done, key, n);
    }
    if Distinct(name, labels') {
      assert Distinct(name, labels) by {
        forall k, k' | k in labels && k' in labels && name(k) == name(k') ensures k == k' {
          assert k in labels' && k' in labels';
        }
      }
      forall key | key in done && key in labels' && labels'[key] != [] && name(key) !in Scrubbed(h0)
        ensures name(key) in Scrubbed(h) && Scrubbed(h)[name(key)] == labels'[key]
      {
        assert labels[key] != [];
      }
    }
  }

  lemma FitIgnoresScrubbing(canon: string -> string, ok: string -> bool, labels: Labels)
    ensures Fit(canon, ok, Scrubbed(labels)) <==> Fit(canon, ok, labels)
  {
    assert forall key :: key in labels ==> (Scrubbed(labels)[key] != [] <==> labels[key] != []);
  }

  lemma WrittenComesBackIffFit(h0: Header, h: Header, name: string -> string, canon: string -> string, wire: string -> string, ok: string -> bool, labels: Labels, got: Labels)
    requires Naming(name, canon, wire) && Added(h0, name, labels, labels.Keys, h) && ReadBack(Scrubbed(h), wire, ok, got)
    requires forall key :: wire(key) in h0 ==> !ok(key)
    ensures got == Scrubbed(labels) <==> Fit(canon, ok, labels)
  {
    ScrubbedAdded(h0, name, labels, labels.Keys, h);
    assert labels.Keys == Scrubbed(labels).Keys;
    FitIgnoresScrubbing(canon, ok, labels);
    ComesBackIffFit(Scrubbed(h0), Scrubbed(h), name, canon, wire, ok, Scrubbed(labels), got);
  }

  // ---- The labels file of the file-system store ----

  datatype Line = Line(key: string, value: string)

  // Reading adds each line's value under its canonical name.
  function ReadLines(f: seq<Line>): Header {
    if f == [] then map[]
    else
      var h, l := ReadLines(f[..|f| - 1]), f[|f| - 1];
      h[Canon(l.key) := ValuesAt(h, Canon(l.key)) + [l.value]]
  }

  predicate LegibleLines(f: seq<Line>) {
    forall i :: 0 <= i < |f| ==> ValidValue(f[i].value)
  }

  // readLabels: an empty file has no labels, a malformed one is an error.
  method ReadLabels(f: seq<Line>) returns (labels: Option<Labels>)
    ensures labels == if LegibleLines(f) then Some(ReadLines(f)) else None
  {
    LinesAreReadOneByOne();
    assert ReadLines([]) == map[];
    labels := ReadEach(f, ReadLines);
  }

  method ReadEach(f: seq<Line>, ghost read: seq<Line> -> Header) returns (labels: Option<Labels>)
    requires ReadsOneByOne(read) && read([]) == map[]
    ensures labels == if LegibleLines(f) then Some(read(f)) else None
  {
    var h: Header := map[];
    for i := 0 to |f|
      invariant LegibleLines(f[..i]) && h == read(f[..i])
    {
      assert f[..i + 1] == f[..i] + [f[i]];
      if !ValidValue(f[i].value) {
        assert !LegibleLines(f);
        return None;
      }
      h := Put(h, f[i]);
    }
    assert f[..|f|] == f;
    labels := Some(h);
  }

  function Put(h: Header, l: Line): Header {
    h[Canon(l.key) := ValuesAt(h, Canon(l.key)) + [l.value]]
  }

  lemma ReadPut(f: seq<Line>, l: Line)
    ensures ReadLines(f + [l]) == Put(ReadLines(f), l)
  {
    assert (f + [l])[..|f|] == f;
  }

  // The labels the printer does not drop, as it prints them.
  function Printable(labels: Labels): Labels {
    map key | key in labels && NameOk(key) :: ScrubAll(labels[key])
  }

  // f prints the keys in `done`.
  ghost predicate Prints(labels: Labels, done: set<string>, f: seq<Line>) {
    && Added(map[], Canon, Printable(labels), done, ReadLines(f))
    && (LegibleLines(f) <==> forall key :: key in done && key in labels && NameOk(key) ==> LegibleValues(labels[key]))
  }

  ghost predicate ReadsOneByOne(read: seq<Line> -> Header) {
    forall f, l :: read(f + [l]) == Put(read(f), l)
  }

  lemma LinesAreReadOneByOne()
    ensures ReadsOneByOne(ReadLines)
  {
    forall f: seq<Line>, l: Line ensures ReadLines(f + [l]) == Put(ReadLines(f), l) {
      ReadPut(f, l);
    }
  }

  // Lines of one key add up their values.
  lemma {:induction false} AppendedAddUp(read: seq<Line> -> Header, f: seq<Line>, key: string, vs: seq<string>, more: seq<Line>)
    requires ReadsOneByOne(read) && |more| == |vs| && forall i :: 0 <= i < |vs| ==> more[i] == Line(key, vs[i])
    ensures var h := read(f); read(f + more) == if vs == [] then h else h[Canon(key) := ValuesAt(h, Canon(key)) + vs]
    decreases |vs|
  {
    if vs == [] {
      assert f + more == f;
    } else {
      var init, v := vs[..|vs| - 1], vs[|vs| - 1];
      var fewer, l := more[..|vs| - 1], more[|vs| - 1];
      AppendedAddUp(read, f, key, init, fewer);
      AppendOne(read(f), Canon(key), init, v, read(f + fewer));
      assert init + [v] == vs && f + more == (f + fewer) + [l];
    }
  }

  lemma ReadAppended(f: seq<Line>, key: string, vs: seq<string>, more: seq<Line>)
    requires |more| == |vs| && forall i :: 0 <= i < |vs| ==> more[i] == Line(key, vs[i])
    ensures var h := ReadLines(f); ReadLines(f + more) == if vs == [] then h else h[Canon(key) := ValuesAt(h, Canon(key)) + vs]
  {
    LinesAreReadOneByOne();
    AppendedAddUp(ReadLines, f, key, vs, more);
  }

  lemma AppendOne(h: Header, n: string, init: seq<string>, v: string, h': Header)
    requires h' == if init == [] then h else h[n := ValuesAt(h, n) + init]
    ensures h'[n := ValuesAt(h', n) + [v]] == h[n := ValuesAt(h, n) + (init + [v])]
  {
    var before := ValuesAt(h, n);
    if init == [] {
      assert init + [v] == [v];
    } else {
      assert before + init + [v] == before + (init + [v]);
      assert h[n := before + init][n := before + (init + [v])] == h[n := before + (init + [v])];
    }
  }

  // writeLabels: the keys in some order, a line for each value.
  method WriteLabels(labels: Labels) returns (f: seq<Line>)
    ensures Prints(labels, labels.Keys, f)
  {
    f := [];
    var todo := labels.Keys;
    ghost var done := {};
    while todo != {}
      invariant todo <= labels.Keys && done == labels.Keys - todo
      invariant Prints(labels, done, f)
      decreases |todo|
    {
      var key :| key in todo;
      var f' := f + LinesFor(labels, key);
      PrintsMore(labels, done, key, f, f');
      todo, done := todo - {key}, done + {key};
      f := f';
    }
    assert done == labels.Keys;
  }

  // The lines of one key; names that are none are dropped.
  function LinesFor(labels: Labels, key: string): seq<Line>
    requires key in labels
  {
    if NameOk(key) then LinesOf(key, labels[key]) else []
  }

  function LinesOf(key: string, vs: seq<string>): (r: seq<Line>)
    ensures |r| == |vs| && forall i :: 0 <= i < |vs| ==> r[i] == Line(key, Scrub(vs[i]))
  {
    seq(|vs|, i requires 0 <= i < |vs| => Line(key, Scrub(vs[i])))
  }

  lemma PrintsMore(labels: Labels, done: set<string>, key: string, f: seq<Line>, f': seq<Line>)
    requires Prints(labels, done, f) && key in labels && key !in done && f' == f + LinesFor(labels, key)
    ensures Prints(labels, done + {key}, f')
  {
    var p := Printable(labels);
    if NameOk(key) {
      var vs := ScrubAll(labels[key]);
      var more := LinesOf(key, labels[key]);
      ReadAppended(f, key, vs, more);
      AddedMore(map[], Canon, p, done, key, ReadLines(f), ReadLines(f + more));
      assert LegibleLines(f + more) <==> LegibleLines(f) && LegibleValues(labels[key]) by {
        LegibleConcat(f, more);
        assert LegibleLines(more) <==> LegibleValues(labels[key]);
      }
    } else {
      AddedNothing(map[], Canon, p, done, key, ReadLines(f));
      assert f' == f;
    }
  }

  lemma LegibleConcat(f: seq<Line>, g: seq<Line>)
    ensures LegibleLines(f + g) <==> LegibleLines(f) && LegibleLines(g)
  {
    if LegibleLines(f + g) {
      assert forall i :: 0 <= i < |f| ==> f[i] == (f + g)[i];
      assert forall i :: 0 <= i < |g| ==> g[i] == (f + g)[|f| + i];
    }
  }

  lemma AddedNothing(h0: Header, name: string -> string, labels: Labels, done: set<string>, key: string, h: Header)
    requires Added(h0, name, labels, done, h) && key !in labels
    ensures Added(h0, name, labels, done + {key}, h)
  {
    forall n | n in h && n !in h0 ensures exists k :: Names(name, labels, done + {key}, k, n) {
      var k :| Names(name, labels, done, k, n);
      assert Names(name, labels, done + {key}, k, n);
    }
  }

  // Labels that any header text carries: names that are canonical tokens, each with
  // values, and values that pass unchanged.
  ghost predicate PlainLabels(labels: Labels) {
    Fit(Canon, NameOk, labels) && CleanValues(labels)
  }

  lemma PlainComesBackFromFile(labels: Labels, f: seq<Line>)
    requires Prints(labels, labels.Keys, f) && PlainLabels(labels)
    ensures LegibleLines(f) && ReadLines(f) == labels
  {
    CanonNaming();
    PrintedKeys(labels, f);
    CleanIffUnscrubbed(labels);
    assert Printable(labels) == Scrubbed(labels);
    FitComesBack(map[], ReadLines(f), Canon, Canon, key => key, NameOk, labels, ReadLines(f));
  }

  lemma FixedComesBack(name: string -> string, wire: string -> string, ok: string -> bool, p: Labels, h: Header)
    requires Naming(name, name, wire) && (forall k :: wire(k) == k) && Added(map[], name, p, p.Keys, h) && p.Keys == h.Keys
    requires forall key :: key in h ==> name(key) == key && ok(key) && p[key] != []
    ensures h == p
  {
    FitComesBack(map[], h, name, name, wire, ok, p, h);
  }

  lemma KeptKeyIsCanonical(labels: Labels, f: seq<Line>, key: string)
    requires Prints(labels, labels.Keys, f) && key in ReadLines(f)
    ensures Canon(key) == key && ReadLines(f)[key] != [] && NameOk(key)
  {
    var k :| Names(Canon, Printable(labels), labels.Keys, k, key);
    CanonIsIdempotent(k);
    CanonOfToken(k);
  }

  lemma KeptByFileIsPlain(labels: Labels, f: seq<Line>)
    requires Prints(labels, labels.Keys, f) && LegibleLines(f) && ReadLines(f) == labels
    ensures PlainLabels(labels)
  {
    var p := Printable(labels);
    CanonNaming();
    PrintedKeys(labels, f);
    forall key | key in labels ensures Canon(key) == key && labels[key] != [] && NameOk(key) {
      KeptKeyIsCanonical(labels, f, key);
    }
    assert p == Scrubbed(labels);
    FixedComesBack(Canon, key => key, NameOk, p, labels);
    CleanIffUnscrubbed(labels);
  }

  // They come back from the labels file unchanged, and no others do: names are dropped
  // or rewritten, values trimmed, empty lists lost, or the file cannot be read.
  lemma FileKeepsIffPlain(labels: Labels, f: seq<Line>)
    requires Prints(labels, labels.Keys, f)
    ensures LegibleLines(f) && ReadLines(f) == labels <==> PlainLabels(labels)
  {
    if PlainLabels(labels) { PlainComesBackFromFile(labels, f); }
    if LegibleLines(f) && ReadLines(f) == labels { KeptByFileIsPlain(labels, f); }
  }

  lemma PrintedKeys(labels: Labels, f: seq<Line>)
    requires Prints(labels, labels.Keys, f)
    ensures forall n :: n in ReadLines(f) ==> NameOk(n)
    ensures Added(map[], Canon, Printable(labels), Printable(labels).Keys, ReadLines(f))
  {
    var p := Printable(labels);
    forall n | n in ReadLines(f) ensures NameOk(n) && exists k :: Names(Canon, p, p.Keys, k, n) {
      var k :| Names(Canon, p, labels.Keys, k, n);
      CanonOfToken(k);
      assert Names(Canon, p, p.Keys, k, n);
    }
  }

  lemma CanonNaming()
    ensures Naming(Canon, Canon, key => key)
  {
    forall k ensures Canon(Canon(k)) == Canon(k) {
      CanonIsIdempotent(k);
    }
  }

  // ---- What a directory comes to hold ----

  predicate ReadableLabels(labels: Labels) {
    forall n :: n in labels ==> forall i :: 0 <= i < |labels[n]| ==> ValidValue(labels[n][i])
  }

  lemma {:induction false} LegibleIffReadable(f: seq<Line>)
    ensures LegibleLines(f) <==> ReadableLabels(ReadLines(f))
    decreases |f|
  {
    if f != [] {
      var init, l := f[..|f| - 1], f[|f| - 1];
      LegibleIffReadable(init);
      var h, n := ReadLines(init), Canon(l.key);
      assert f == init + [l];
      assert LegibleLines(f) <==> LegibleLines(init) && ValidValue(l.value) by {
        LegibleConcat(init, [l]);
        assert LegibleLines([l]) <==> ValidValue([l][0].value);
      }
      ReadableMore(h, n, l.value);
    }
  }

  lemma ReadableMore(h: Header, n: string, v: string)
    ensures ReadableLabels(h[n := ValuesAt(h, n) + [v]]) <==> ReadableLabels(h) && ValidValue(v)
  {
    var h' := h[n := ValuesAt(h, n) + [v]];
    if ReadableLabels(h') {
      assert ValidValue(h'[n][|ValuesAt(h, n)|]);
      forall m, i | m in h && 0 <= i < |h[m]| ensures ValidValue(h[m][i]) {
        assert h'[m][i] == h[m][i];
      }
    }
  }

  // A labels file written for `labels` reads as `stored`.
  ghost predicate FileFate(labels: Labels, stored: Labels) {
    exists f :: Prints(labels, labels.Keys, f) && ReadLines(f) == stored
  }

  lemma StoredInFileIff(labels: Labels, stored: Labels)
    requires FileFate(labels, stored)
    ensures stored == labels && ReadableLabels(stored) <==> PlainLabels(labels)
  {
    var f :| Prints(labels, labels.Keys, f) && ReadLines(f) == stored;
    FileKeepsIffPlain(labels, f);
    LegibleIffReadable(f);
  }
}
