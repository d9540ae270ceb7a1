/** The way back in http.go: the headers that tell about a blob, and what the HTTP
    library makes of labels whose names mean something to it. */
module HttpReply {
  import opened Base
  import opened StoreSpec
  import opened Headers
  import opened LabelWire
  import opened HttpWire

  datatype Verb = POST | HEAD | GET | PATCH | DELETE

  // As the client sees it. `length` is its ContentLength.
  datatype Response = Response(status: nat, header: Header, length: int, body: Bytes)

  // gzip.Reader; None is an error.
  type Gunzip = Bytes -> Option<Bytes>

  const LENGTH := "Content-Length"
  const ENCODING := "Content-Encoding"

  // ---- The handler ----

  function Quote(d: Digest): string {
    "\"" + d + "\""
  }

  // Stores give sizes that are none negative.
  function Size(m: Meta): nat {
    if m.size >= 0 then m.size else 0
  }

  function MetaHeader(m: Meta): Header {
    map["Etag" := [Quote(m.digest)], LENGTH := [Decimal(Size(m))]]
  }

  // A header that shows a Meta, in whatever order the labels were added.
  ghost predicate Shows(m: Meta, h: Header) {
    Added(MetaHeader(m), ResponseName, m.labels, m.labels.Keys, h) && Gathered(MetaHeader(m), ResponseName, m.labels, m.labels.Keys, h)
  }

  method SetMetaHeaders(m: Meta) returns (h: Header)
    ensures Shows(m, h)
  {
    h := AddAll(MetaHeader(m), ResponseName, m.labels);
  }

  // Header.Get.
  function First(h: Header, name: string): string {
    if name in h && h[name] != [] then h[name][0] else ""
  }

  // Standard headers that are set over a label's.
  function Replaced(verb: Verb, status: nat): set<string> {
    match verb
    case GET => {"Content-Type", "Accept-Ranges"}
    case POST => if status == 201 then {"Location"} else {}
    case _ => {}
  }

  // What becomes of the length: an answer to POST has none, and ServeContent sets its own
  // unless there is an encoding.
  function Finish(verb: Verb, status: nat, h: Header, size: nat): Header {
    var rest := map n | n in h && n !in Replaced(verb, status) :: h[n];
    if verb == POST then rest - {LENGTH}
    else if verb == GET && First(h, ENCODING) == "" then rest[LENGTH := [Decimal(size)]]
    else rest
  }

  // ---- The client's transport ----

  predicate OneLength(h: Header) {
    LENGTH in h ==> forall i :: 0 <= i < |h[LENGTH]| ==> h[LENGTH][i] == h[LENGTH][0]
  }

  predicate Zipped(encoding: string) {
    EqualFold(encoding, "gzip")
  }

  // None is an error. `extra` are the headers that servers add. A client that leaves
  // compression to its transport, as the default one does, gets the body unzipped.
  function Received(verb: Verb, status: nat, h: Header, body: Bytes, gunzip: Gunzip, extra: Header): Option<Response> {
    var w := Written(h);
    if !Accepted(w) || !OneLength(w) then None
    else if verb == GET && Zipped(First(w, ENCODING)) && body != [] then
      match gunzip(body)
      case Some(b) => Some(Response(status, (w - {LENGTH, ENCODING}) + extra, -1, b))
      case None => None
    else Some(Response(status, w + extra, ParseInt(First(w, LENGTH)), body))
  }

  // Labels whose names change how a response is transferred. What they do is not part of
  // this model.
  ghost predicate Steady(labels: Labels) {
    forall key :: key in labels && labels[key] != [] ==> ResponseName(key) != "Transfer-Encoding" && ResponseName(key) != "Trailer"
  }

  predicate Steers(h: Header) {
    "Transfer-Encoding" in h || "Trailer" in h
  }

  lemma SteadyDoesNotSteer(m: Meta, h: Header)
    requires Shows(m, h) && Steady(m.labels)
    ensures !Steers(h)
  {
    forall n | n in h && n !in MetaHeader(m) ensures n != "Transfer-Encoding" && n != "Trailer" {
      var key :| Names(ResponseName, m.labels, m.labels.Keys, key, n);
    }
    assert "Transfer-Encoding" !in MetaHeader(m) && "Trailer" !in MetaHeader(m);
  }

  // ---- Which labels leave a response as it is ----

  // Every label that is taken for a length states the right one.
  ghost predicate Lengths(labels: Labels, size: nat) {
    forall key, v :: Brings(ResponseName, labels, labels.Keys, key, LENGTH, v) ==> Scrub(v) == Decimal(size)
  }

  ghost predicate LegibleLabels(labels: Labels, skip: set<string>) {
    forall key, n, v :: Brings(ResponseName, labels, labels.Keys, key, n, v) && NameOk(n) && n !in skip ==> ValidValue(Scrub(v))
  }

  // The encoding that a response declares: the first value of a label of that name.
  ghost predicate Encoding(labels: Labels, encoding: string) {
    || (exists key :: Leads(ResponseName, labels, labels.Keys, key, ENCODING, encoding))
    || (encoding == "" && forall key :: !Names(ResponseName, labels, labels.Keys, key, ENCODING))
  }

  ghost predicate Unharmed(verb: Verb, status: nat, labels: Labels, size: nat, encoding: string) {
    && LegibleLabels(labels, Replaced(verb, status) + {LENGTH})
    && (verb == HEAD || (verb == GET && encoding != "") ==> Lengths(labels, size))
    && !(verb == GET && size > 0 && Zipped(Scrub(encoding)))
  }

  // ---- Proofs ----

  lemma NamesAreOk()
    ensures NameOk(LENGTH) && NameOk(ENCODING)
  {
  }

  lemma NamedIsThere(m: Meta, h: Header, key: string, n: string)
    requires Shows(m, h) && Names(ResponseName, m.labels, m.labels.Keys, key, n)
    ensures n in h && h[n] != []
  {
    assert Brings(ResponseName, m.labels, m.labels.Keys, key, n, m.labels[key][0]);
    assert m.labels[key][0] in ValuesAt(h, n);
  }

  lemma EncodingIs(m: Meta, h: Header)
    requires Shows(m, h)
    ensures Encoding(m.labels, First(h, ENCODING))
    ensures First(Written(h), ENCODING) == Scrub(First(h, ENCODING))
  {
    NamesAreOk();
    assert ENCODING !in MetaHeader(m);
    if ENCODING in h {
      var key :| Leads(ResponseName, m.labels, m.labels.Keys, key, ENCODING, h[ENCODING][0]);
    } else {
      forall key ensures !Names(ResponseName, m.labels, m.labels.Keys, key, ENCODING) {
        if Names(ResponseName, m.labels, m.labels.Keys, key, ENCODING) { NamedIsThere(m, h, key, ENCODING); }
      }
      assert Scrub("") == "";
    }
  }

  lemma DecimalScrubs(n: nat)
    ensures ValidValue(Decimal(n)) && Scrub(Decimal(n)) == Decimal(n)
  {
    CleanIffUnchanged(Decimal(n));
  }

  lemma LengthsAgree(m: Meta, h: Header)
    requires Shows(m, h) && m.size >= 0
    ensures LENGTH in h && First(Written(h), LENGTH) == Decimal(m.size)
    ensures OneLength(Written(h)) <==> Lengths(m.labels, m.size)
  {
    NamesAreOk();
    DecimalScrubs(m.size);
    var vs := h[LENGTH];
    assert MetaHeader(m)[LENGTH] <= vs;
    assert vs[0] == Decimal(m.size);
    if OneLength(Written(h)) {
      forall key, v | Brings(ResponseName, m.labels, m.labels.Keys, key, LENGTH, v) ensures Scrub(v) == Decimal(m.size) {
        assert v in ValuesAt(h, LENGTH);
        var i :| 0 <= i < |vs| && vs[i] == v;
        assert Written(h)[LENGTH][i] == Scrub(v);
      }
    }
    if Lengths(m.labels, m.size) {
      forall i | 0 <= i < |vs| ensures Scrub(vs[i]) == Decimal(m.size) {
        assert vs[i] in ValuesAt(h, LENGTH);
        if vs[i] !in ValuesAt(MetaHeader(m), LENGTH) {
          var key :| Brings(ResponseName, m.labels, m.labels.Keys, key, LENGTH, vs[i]);
        }
      }
    }
  }

  ghost predicate LegibleBut(h: Header, skip: set<string>) {
    forall n :: n in h && NameOk(n) && n !in skip ==> LegibleValues(h[n])
  }

  lemma LegibleIff(m: Meta, h: Header, skip: set<string>)
    requires Shows(m, h) && LENGTH in skip && ValidValue(Scrub(Quote(m.digest)))
    ensures LegibleBut(h, skip) <==> LegibleLabels(m.labels, skip)
  {
    if LegibleBut(h, skip) {
      forall key, n, v | Brings(ResponseName, m.labels, m.labels.Keys, key, n, v) && NameOk(n) && n !in skip ensures ValidValue(Scrub(v)) {
        assert v in ValuesAt(h, n);
        var i :| 0 <= i < |h[n]| && h[n][i] == v;
        assert LegibleValues(h[n]);
      }
    }
    if LegibleLabels(m.labels, skip) {
      forall n, i | n in h && NameOk(n) && n !in skip && 0 <= i < |h[n]| ensures ValidValue(Scrub(h[n][i])) {
        assert h[n][i] in ValuesAt(h, n);
        if h[n][i] !in ValuesAt(MetaHeader(m), n) {
          var key :| Brings(ResponseName, m.labels, m.labels.Keys, key, n, h[n][i]);
        }
      }
    }
  }

  predicate Informing(verb: Verb) {
    verb == POST || verb == HEAD || verb == GET
  }

  lemma FinishedLength(verb: Verb, status: nat, m: Meta, h: Header)
    requires Shows(m, h) && m.size >= 0 && Informing(verb)
    ensures var w := Written(Finish(verb, status, h, m.size));
            && (verb == POST ==> LENGTH !in w)
            && (verb != POST ==> LENGTH in w && First(w, LENGTH) == Decimal(m.size))
            && (OneLength(w) <==> (verb == HEAD || (verb == GET && First(h, ENCODING) != "") ==> Lengths(m.labels, m.size)))
            && (OneLength(w) && LENGTH in w ==> LegalList(w[LENGTH]))
  {
    NamesAreOk();
    DecimalScrubs(m.size);
    LengthsAgree(m, h);
    var f := Finish(verb, status, h, m.size);
    assert LENGTH !in Replaced(verb, status);
    if verb == HEAD || (verb == GET && First(h, ENCODING) != "") {
      assert f[LENGTH] == h[LENGTH] && Written(f)[LENGTH] == Written(h)[LENGTH];
    }
  }

  lemma FinishedRest(verb: Verb, status: nat, m: Meta, h: Header)
    requires Shows(m, h) && m.size >= 0 && Informing(verb) && ValidValue(Scrub(Quote(m.digest)))
    ensures var w := Written(Finish(verb, status, h, m.size));
            && (Accepted(w) <==> LegibleLabels(m.labels, Replaced(verb, status) + {LENGTH}) && (LENGTH in w ==> LegalList(w[LENGTH])))
            && (First(w, ENCODING) == Scrub(First(h, ENCODING)))
  {
    NamesAreOk();
    EncodingIs(m, h);
    var f := Finish(verb, status, h, m.size);
    var w, skip := Written(f), Replaced(verb, status) + {LENGTH};
    LegibleIff(m, h, skip);
    assert ENCODING !in skip;
    forall n | n !in skip ensures n in w <==> n in h && NameOk(n) {}
    forall n | n in w && n !in skip ensures w[n] == ScrubAll(h[n]) && (LegalList(w[n]) <==> LegibleValues(h[n])) {}
    assert forall n :: n in w && n in skip ==> n == LENGTH;
  }

  lemma ReceivedIs(verb: Verb, status: nat, h: Header, body: Bytes, gunzip: Gunzip, extra: Header)
    ensures var w, r := Written(h), Received(verb, status, h, body, gunzip, extra);
            && (r.Some? ==> Accepted(w) && OneLength(w) && r.value.status == status)
            && (r.Some? && (r.value.body == body && r.value.length >= 0)
                ==> !(verb == GET && Zipped(First(w, ENCODING)) && body != []))
            && (Accepted(w) && OneLength(w) && !(verb == GET && Zipped(First(w, ENCODING)) && body != [])
                ==> r == Some(Response(status, w + extra, ParseInt(First(w, LENGTH)), body)))
            && (verb != GET && Accepted(w) && OneLength(w) ==> r.Some?)
  {
  }

  // Error, content and size arrive exactly if the labels are of this kind.
  lemma ReceivedIffUnharmed(verb: Verb, status: nat, m: Meta, h: Header, body: Bytes, gunzip: Gunzip, extra: Header)
    requires Shows(m, h) && m.size >= 0 && Informing(verb) && ValidValue(Scrub(Quote(m.digest)))
    requires verb == GET ==> m.size == |body|
    ensures var r := Received(verb, status, Finish(verb, status, h, m.size), body, gunzip, extra);
            r.Some? && (verb != POST ==> r.value.body == body && r.value.length == m.size)
            <==> Unharmed(verb, status, m.labels, m.size, First(h, ENCODING))
  {
    FinishedLength(verb, status, m, h);
    FinishedRest(verb, status, m, h);
    ParseIntOfDecimal(m.size);
    ReceivedIs(verb, status, Finish(verb, status, h, m.size), body, gunzip, extra);
  }

  function Unquote(etag: string): string {
    var s := if etag != "" && etag[0] == '"' then etag[1..] else etag;
    if s != "" && s[|s| - 1] == '"' then s[..|s| - 1] else s
  }

  lemma UnquoteQuote(d: Digest)
    ensures Unquote(Quote(d)) == d
  {
    assert Quote(d)[1..] == d + "\"";
    assert (d + "\"")[..|d|] == d;
  }

  function DigestIn(h: Header): Digest {
    Unquote(First(h, "Etag"))
  }

  // Only standard headers are added, and the ETag is the handler's.
  ghost predicate Standard(extra: Header) {
    forall n :: n in extra ==> Skipped(n) && n != "Etag"
  }

  lemma FinishKeepsLabels(verb: Verb, status: nat, h: Header, size: nat)
    ensures var f := Finish(verb, status, h, size);
            && (forall n :: !Skipped(n) || n == "Etag" ==> (n in f <==> n in h) && (n in h ==> f[n] == h[n]))
  {
    assert forall n :: n in Replaced(verb, status) || n == LENGTH ==> Skipped(n) && n != "Etag";
  }

  lemma UnzippedKeepsLabels(w: Header, extra: Header)
    ensures ResponseLabels((w - {LENGTH, ENCODING}) + extra) == ResponseLabels(w + extra)
    ensures "Etag" !in extra ==> DigestIn((w - {LENGTH, ENCODING}) + extra) == DigestIn(w + extra)
  {
    assert Skipped(LENGTH) && Skipped(ENCODING) && "Etag" != LENGTH && "Etag" != ENCODING;
  }

  // A response that arrives has the digest, and the labels if they are of the kind that
  // responses show.
  lemma ReceivedShows(verb: Verb, status: nat, m: Meta, h: Header, body: Bytes, gunzip: Gunzip, extra: Header)
    requires Shows(m, h) && m.size >= 0 && CleanValue(Quote(m.digest)) && Standard(extra)
    requires Received(verb, status, Finish(verb, status, h, m.size), body, gunzip, extra).Some?
    ensures var r := Received(verb, status, Finish(verb, status, h, m.size), body, gunzip, extra).value;
            r.status == status && DigestIn(r.header) == m.digest && (ResponseLabels(r.header) == m.labels <==> Shown(m.labels))
  {
    var f := Finish(verb, status, h, m.size);
    var w := Written(f);
    FinishKeepsLabels(verb, status, h, m.size);
    ReceivedIs(verb, status, f, body, gunzip, extra);
    UnzippedKeepsLabels(w, extra);
    EtagStays(m, h, f, extra);
    assert forall n :: n in MetaHeader(m) ==> Skipped(n);
    ResponseShowsLabels(m.labels, MetaHeader(m), h, f, extra);
  }

  lemma EtagStays(m: Meta, h: Header, f: Header, extra: Header)
    requires Shows(m, h) && CleanValue(Quote(m.digest)) && "Etag" !in extra
    requires "Etag" in h ==> "Etag" in f && f["Etag"] == h["Etag"]
    ensures DigestIn(Written(f) + extra) == m.digest
  {
    assert MetaHeader(m)["Etag"] <= h["Etag"];
    assert h["Etag"][0] == Quote(m.digest);
    assert NameOk("Etag");
    CleanIffUnchanged(Quote(m.digest));
    UnquoteQuote(m.digest);
  }

  // The headers that tell about a blob.
  lemma HeadersTell(m: Meta, h: Header)
    requires Shows(m, h) && m.size >= 0
    ensures "Etag" in h && h["Etag"] != [] && h["Etag"][0] == ['"'] + m.digest + ['"']
    ensures "Content-Length" in h && h["Content-Length"] != [] && ParseDecimal(h["Content-Length"][0]) == Some(m.size as nat)
  {
    assert MetaHeader(m)["Etag"] <= h["Etag"] && MetaHeader(m)[LENGTH] <= h[LENGTH];
    assert h["Etag"][0] == MetaHeader(m)["Etag"][0] && h[LENGTH][0] == MetaHeader(m)[LENGTH][0];
    DecimalRoundTrip(m.size);
  }

  // ---- Labels that do harm, and labels that do none ----

  lemma ShownIsUnharmed(verb: Verb, status: nat, labels: Labels, size: nat, encoding: string)
    requires Shown(labels) && Encoding(labels, encoding)
    ensures Unharmed(verb, status, labels, size, encoding)
  {
    forall key | key in labels ensures ResponseName(key) == key && !Skipped(key) && CleanList(labels[key]) {
      assert labels[key] == labels[key];
    }
    forall key, n, v | Brings(ResponseName, labels, labels.Keys, key, n, v) ensures n != LENGTH && n != ENCODING && ValidValue(Scrub(v)) {
      var i :| 0 <= i < |labels[key]| && labels[key][i] == v;
      assert CleanValue(labels[key][i]);
      CleanIffUnchanged(v);
    }
    forall key, v ensures !Leads(ResponseName, labels, labels.Keys, key, ENCODING, v) {
    }
    assert encoding == "";
    NotZipped();
  }

  lemma NotZipped()
    ensures !Zipped(Scrub(""))
  {
  }

  lemma LengthIsCanonical()
    ensures Canon(LENGTH) == LENGTH
  {
    NamesAreOk();
    CasedIsCanonical(LENGTH);
  }

  lemma EncodingIsCanonical()
    ensures Canon(ENCODING) == ENCODING
  {
    NamesAreOk();
    CasedIsCanonical(ENCODING);
  }

  // With a label "Content-Encoding: gzip", whatever is in the blob, Open fails or returns
  // something else than was stored.
  lemma GzipLabelHarms(m: Meta, h: Header, body: Bytes, gunzip: Gunzip, extra: Header)
    requires Shows(m, h) && m.labels == map[ENCODING := ["gzip"]] && m.size == |body| > 0 && ValidValue(Scrub(Quote(m.digest)))
    ensures var r := Received(GET, 200, Finish(GET, 200, h, m.size), body, gunzip, extra);
            r.None? || r.value.length == -1
  {
    EncodingIsCanonical();
    assert Leads(ResponseName, m.labels, m.labels.Keys, ENCODING, ENCODING, "gzip");
    NamedIsThere(m, h, ENCODING, ENCODING);
    EncodingIs(m, h);
    assert First(h, ENCODING) == "gzip";
    FinishedRest(GET, 200, m, h);
    GzipIsClean();
  }

  lemma GzipIsClean()
    ensures Scrub("gzip") == "gzip" && Zipped("gzip")
  {
    CleanIffUnchanged("gzip");
  }

  // With a label "Content-Length" that is not the blob's length, Get fails.
  lemma LengthLabelHarms(m: Meta, v: string, h: Header, gunzip: Gunzip, extra: Header)
    requires Shows(m, h) && m.labels == map[LENGTH := [v]] && m.size >= 0 && Scrub(v) != Decimal(m.size)
    ensures Received(HEAD, 200, Finish(HEAD, 200, h, m.size), [], gunzip, extra).None?
  {
    LengthIsCanonical();
    assert Brings(ResponseName, m.labels, m.labels.Keys, LENGTH, LENGTH, v);
    FinishedLength(HEAD, 200, m, h);
  }
}
