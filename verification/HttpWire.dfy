/** Labels on the wire of http.go: in request headers with a prefix, in response headers
    without one. */
module HttpWire {
  import opened Base
  import opened Headers
  import opened LabelWire

  // The header a label goes to, in a request and in a response.
  function RequestName(key: string): string {
    Canon(LABEL_PREFIX + key)
  }

  function ResponseName(key: string): string {
    Canon(key)
  }

  // ---- Requests: labels under "Flob-" ----

  const LABEL_PREFIX := "Flob-"

  function StripLabel(name: string): (key: string)
    requires LABEL_PREFIX <= name
    ensures LABEL_PREFIX + key == name
  {
    name[|LABEL_PREFIX|..]
  }

  function RequestLabels(h: Header): Labels {
    map key | key in (set n | n in h && LABEL_PREFIX <= n :: StripLabel(n)) :: h[LABEL_PREFIX + key]
  }

  lemma RequestLabelsHas(h: Header, key: string)
    ensures key in RequestLabels(h) <==> LABEL_PREFIX + key in h
    ensures key in RequestLabels(h) ==> RequestLabels(h)[key] == h[LABEL_PREFIX + key]
  {
    if LABEL_PREFIX + key in h { assert StripLabel(LABEL_PREFIX + key) == key; }
  }

  method ParseLabels(h: Header) returns (labels: Labels)
    ensures labels == RequestLabels(h)
  {
    labels := map[];
    var todo := h.Keys;
    while todo != {}
      invariant todo <= h.Keys
      invariant forall key :: key in labels <==> LABEL_PREFIX + key in h && LABEL_PREFIX + key !in todo
      invariant forall key :: key in labels ==> labels[key] == h[LABEL_PREFIX + key]
      decreases |todo|
    {
      var name :| name in todo;
      todo := todo - {name};
      if LABEL_PREFIX <= name {
        var after := StripLabel(name);
        labels := labels[after := h[name]];
        assert forall key :: LABEL_PREFIX + key == name ==> key == after by {
          forall key | LABEL_PREFIX + key == name ensures key == after { assert (LABEL_PREFIX + key)[|LABEL_PREFIX|..] == key; }
        }
      } else {
        assert forall key :: LABEL_PREFIX <= LABEL_PREFIX + key;
      }
    }
    forall key ensures key in labels <==> key in RequestLabels(h) {
      RequestLabelsHas(h, key);
    }
    forall key | key in labels ensures labels[key] == RequestLabels(h)[key] {
      RequestLabelsHas(h, key);
    }
  }

  lemma LabelPrefixIsCanonical()
    ensures IsToken(LABEL_PREFIX) && Canon(LABEL_PREFIX) == LABEL_PREFIX
  {
    CasedIsCanonical(LABEL_PREFIX);
  }

  function RequestWire(key: string): string {
    LABEL_PREFIX + key
  }

  lemma RequestNaming()
    ensures Naming(RequestName, Canon, RequestWire)
  {
    forall k ensures RequestName(k) == RequestWire(Canon(k)) {
      LabelPrefixIsCanonical();
      CanonOfPrefixed(LABEL_PREFIX, k);
    }
    forall k ensures Canon(Canon(k)) == Canon(k) {
      CanonIsIdempotent(k);
    }
    forall k, k' | RequestWire(k) == RequestWire(k') ensures k == k' {
      assert k == RequestWire(k)[|LABEL_PREFIX|..] && k' == RequestWire(k')[|LABEL_PREFIX|..];
    }
  }

  // Labels that a request carries: keys that are canonical tokens, each with a value,
  // and values that pass unchanged. Behind the prefix a key may be empty.
  ghost predicate Carried(labels: Labels) {
    Fit(Canon, IsToken, labels) && CleanValues(labels)
  }

  lemma TokenBehindPrefix(key: string)
    ensures IsToken(LABEL_PREFIX + key) <==> IsToken(key)
    ensures NameOk(LABEL_PREFIX + key) <==> IsToken(key)
  {
    LabelPrefixIsCanonical();
    if IsToken(LABEL_PREFIX + key) {
      assert forall i :: 0 <= i < |key| ==> key[i] == (LABEL_PREFIX + key)[|LABEL_PREFIX| + i];
    }
  }

  lemma SentReadsBack(h: Header, extra: Header)
    requires Sent(h).Some? && forall n :: n in extra ==> !(LABEL_PREFIX <= n)
    ensures ReadBack(Sent(h).value, RequestWire, IsToken, RequestLabels(Sent(h).value + extra))
  {
    var h' := Sent(h).value;
    var got := RequestLabels(h' + extra);
    forall key ensures (key in got <==> RequestWire(key) in h' && IsToken(key)) && (key in got ==> got[key] == h'[RequestWire(key)]) {
      RequestLabelsHas(h' + extra, key);
      assert LABEL_PREFIX <= RequestWire(key);
      TokenBehindPrefix(key);
      assert RequestWire(key) in h ==> NameOk(RequestWire(key));
    }
  }

  lemma SentLabels(labels: Labels, h: Header, extra: Header)
    requires Added(map[], RequestName, labels, labels.Keys, h) && Sent(h).Some?
    requires forall n :: n in extra ==> !(LABEL_PREFIX <= n)
    ensures RequestLabels(Sent(h).value + extra) == Scrubbed(labels) <==> Fit(Canon, IsToken, labels)
  {
    SentReadsBack(h, extra);
    RequestNaming();
    WrittenComesBackIffFit(map[], h, RequestName, Canon, RequestWire, IsToken, labels, RequestLabels(Sent(h).value + extra));
  }

  // What is sent has clean values.
  lemma SentIsClean(h: Header, extra: Header, key: string)
    requires Sent(h).Some? && (forall n :: n in extra ==> !(LABEL_PREFIX <= n)) && key in RequestLabels(Sent(h).value + extra)
    ensures CleanList(RequestLabels(Sent(h).value + extra)[key])
  {
    var n := LABEL_PREFIX + key;
    RequestLabelsHas(Sent(h).value + extra, key);
    assert LABEL_PREFIX <= n;
    assert n in h;
    forall i | 0 <= i < |h[n]| ensures CleanValue(Scrub(h[n][i])) {
      ScrubIsClean(h[n][i]);
    }
  }

  lemma CarriedIsSent(labels: Labels, h: Header)
    requires Added(map[], RequestName, labels, labels.Keys, h) && Carried(labels)
    ensures Sent(h).Some?
  {
    CarriedAreDistinct(labels);
    forall n | n in h ensures NameOk(n) && LegalList(h[n]) {
      var key :| Names(RequestName, labels, labels.Keys, key, n);
      CarriedName(labels, key);
      TokenBehindPrefix(key);
      assert CleanList(h[n]);
    }
  }

  lemma CarriedName(labels: Labels, key: string)
    requires Carried(labels) && key in labels
    ensures RequestName(key) == LABEL_PREFIX + key && IsToken(key) && labels[key] != [] && CleanList(labels[key])
  {
    assert labels[key] == labels[key];
    RequestNaming();
    assert RequestName(key) == RequestWire(Canon(key));
  }

  lemma CarriedAreDistinct(labels: Labels)
    requires Carried(labels)
    ensures Distinct(RequestName, labels)
  {
    forall k, k' | k in labels && k' in labels && RequestName(k) == RequestName(k') ensures k == k' {
      CarriedName(labels, k);
      CarriedName(labels, k');
      assert k == (LABEL_PREFIX + k)[|LABEL_PREFIX|..] && k' == (LABEL_PREFIX + k')[|LABEL_PREFIX|..];
    }
  }

  // The labels of a request arrive unchanged exactly if they are of this kind; otherwise
  // the client refuses the request, or the handler sees others. `extra` are the other
  // headers of the request.
  lemma RequestCarriesLabels(labels: Labels, h: Header, extra: Header)
    requires Added(map[], RequestName, labels, labels.Keys, h)
    requires forall n :: n in extra ==> !(LABEL_PREFIX <= n)
    ensures Sent(h).Some? && RequestLabels(Sent(h).value + extra) == labels <==> Carried(labels)
  {
    if Carried(labels) {
      CarriedIsSent(labels, h);
      CleanIffUnscrubbed(labels);
      SentLabels(labels, h, extra);
    }
    if Sent(h).Some? && RequestLabels(Sent(h).value + extra) == labels {
      forall key | key in labels ensures CleanList(labels[key]) {
        SentIsClean(h, extra, key);
      }
      CleanIffUnscrubbed(labels);
      SentLabels(labels, h, extra);
    }
  }

  // ---- Responses: every header that is not a standard one ----

  predicate Skipped(name: string) {
    || name == "Etag" || name == "Content-Length" || name == "Content-Type" || name == "Transfer-Encoding"
    || name == "Content-Encoding" || name == "Date" || name == "Server" || name == "Connection" || name == "Location"
    || name == "Cache-Control" || name == "Vary" || name == "Accept-Ranges" || name == "Content-Range" || name == "Last-Modified"
  }

  function ResponseLabels(h: Header): Labels {
    map n | n in h && !Skipped(n) :: h[n]
  }

  method ParseMetaLabels(h: Header) returns (labels: Labels)
    ensures labels == ResponseLabels(h)
  {
    labels := map[];
    var todo := h.Keys;
    while todo != {}
      invariant todo <= h.Keys
      invariant labels == map n | n in h && n !in todo && !Skipped(n) :: h[n]
      decreases |todo|
    {
      var name :| name in todo;
      todo := todo - {name};
      if !Skipped(name) {
        labels := labels[name := h[name]];
      }
    }
  }

  function Same(key: string): string {
    key
  }

  lemma ResponseNaming()
    ensures Naming(ResponseName, Canon, Same)
  {
    forall k ensures Canon(Canon(k)) == Canon(k) {
      CanonIsIdempotent(k);
    }
  }

  predicate Showable(key: string) {
    NameOk(key) && !Skipped(key)
  }

  // Labels that a response shows: names outside the reserved ones, and values that pass
  // unchanged.
  ghost predicate Shown(labels: Labels) {
    Fit(Canon, Showable, labels) && CleanValues(labels)
  }

  // The writer drops headers whose name is none, and scrubs the values of the others.
  function Written(h: Header): Header {
    map n | n in h && NameOk(n) :: ScrubAll(h[n])
  }

  // The client's reader accepts the values.
  predicate Accepted(h: Header) {
    forall n :: n in h ==> LegalList(h[n])
  }

  lemma WrittenLabels(labels: Labels, h0: Header, h: Header, sent: Header, extra: Header)
    requires Added(h0, ResponseName, labels, labels.Keys, h)
    requires forall n :: n in h0 || n in extra ==> Skipped(n)
    requires forall n :: !Skipped(n) ==> (n in sent <==> n in h) && (n in h ==> sent[n] == h[n])
    ensures ResponseLabels(Written(sent) + extra) == Scrubbed(labels) <==> Fit(Canon, Showable, labels)
  {
    assert ReadBack(Scrubbed(h), Same, Showable, ResponseLabels(Written(sent) + extra));
    ResponseNaming();
    WrittenComesBackIffFit(h0, h, ResponseName, Canon, Same, Showable, labels, ResponseLabels(Written(sent) + extra));
  }

  lemma WrittenIsClean(h: Header, extra: Header, key: string)
    requires Accepted(Written(h)) && (forall n :: n in extra ==> Skipped(n)) && key in ResponseLabels(Written(h) + extra)
    ensures CleanList(ResponseLabels(Written(h) + extra)[key])
  {
    var vs := h[key];
    assert Written(h)[key] == ScrubAll(vs);
    forall i | 0 <= i < |vs| ensures CleanValue(ScrubAll(vs)[i]) {
      assert LegalList(ScrubAll(vs)) && ValidValue(ScrubAll(vs)[i]);
      LegibleIsClean(vs[i]);
    }
  }

  // The labels of a response are seen unchanged exactly if they are of this kind. h0 are
  // the ETag and length, `sent` is what the handler's tail makes of the reserved names,
  // and `extra` what the transport adds.
  lemma ResponseShowsLabels(labels: Labels, h0: Header, h: Header, sent: Header, extra: Header)
    requires Added(h0, ResponseName, labels, labels.Keys, h)
    requires forall n :: n in h0 || n in extra ==> Skipped(n)
    requires forall n :: !Skipped(n) ==> (n in sent <==> n in h) && (n in h ==> sent[n] == h[n])
    requires Accepted(Written(sent))
    ensures ResponseLabels(Written(sent) + extra) == labels <==> Shown(labels)
  {
    if Shown(labels) {
      CleanIffUnscrubbed(labels);
      WrittenLabels(labels, h0, h, sent, extra);
    }
    if ResponseLabels(Written(sent) + extra) == labels {
      forall key | key in labels ensures CleanList(labels[key]) {
        WrittenIsClean(sent, extra, key);
      }
      CleanIffUnscrubbed(labels);
      WrittenLabels(labels, h0, h, sent, extra);
    }
  }

  // The header of a canonical label.
  lemma LabelHeader(key: string)
    requires IsToken(key) && Canon(key) == key
    ensures RequestName(key) == "Flob-" + key && ResponseName(key) == key
  {
    RequestNaming();
    assert RequestName(key) == RequestWire(Canon(key));
  }
}
