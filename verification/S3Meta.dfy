/** Labels and size as the metadata headers of an S3 reference marker. */
module S3Meta {
  import opened Base
  import opened Headers
  import opened LabelWire

  const META_PREFIX := "X-Amz-Meta-"
  const META_SIZE := "Flob-Size"

  function NameOf(key: string): string {
    Canon(META_PREFIX + key)
  }

  predicate HasPrefix(name: string) {
    META_PREFIX <= name
  }

  function RestOf(name: string): (rest: string)
    requires HasPrefix(name)
    ensures META_PREFIX + rest == name
  {
    name[|META_PREFIX|..]
  }

  predicate Reserved(key: string) {
    EqualFold(key, META_SIZE)
  }

  lemma NameOfKey(key: string)
    ensures NameOf(key) == META_PREFIX + Canon(key)
    ensures HasPrefix(NameOf(key)) && RestOf(NameOf(key)) == Canon(key)
  {
    assert Canon(META_PREFIX) == META_PREFIX by { PrefixIsCanonical(); }
    CanonOfPrefixed(META_PREFIX, key);
  }

  lemma PrefixIsCanonical()
    ensures IsToken(META_PREFIX) && Canon(META_PREFIX) == META_PREFIX
  {
    CasedIsCanonical(META_PREFIX);
  }

  // ---- Writing ----

  // `stored` is what a marker may come to hold for `labels`: the header keeps one
  // joined value per canonical name, and of keys with the same canonical name any.
  ghost predicate MayStore(labels: Labels, stored: Labels) {
    && (forall n :: n in stored ==> exists key :: Keeps(labels, key, n, stored[n]))
    && (forall key :: key in labels && key != "" ==> IsToken(key) && (!Reserved(Canon(key)) ==> Canon(key) in stored))
  }

  ghost predicate Keeps(labels: Labels, key: string, n: string, values: seq<string>) {
    && key in labels && key != "" && Canon(key) == n && !Reserved(n)
    && ValidValue(Join(labels[key], ",")) && values == [Scrub(Join(labels[key], ","))]
  }

  // No request can carry this label.
  predicate Unsendable(labels: Labels, key: string) {
    key in labels && key != "" && (!IsToken(key) || !ValidValue(Join(labels[key], ",")))
  }

  // The header holds, under each canonical name, the value of one of the keys done.
  ghost predicate Written(labels: Labels, done: set<string>, h: Header) {
    && (forall n {:trigger n in h} :: n in h ==> HasPrefix(n) && exists key :: Wrote(labels, done, key, n, h[n]))
    && (forall key :: key in done && key != "" ==> NameOf(key) in h)
  }

  ghost predicate Wrote(labels: Labels, done: set<string>, key: string, n: string, values: seq<string>) {
    key in done && key in labels && key != "" && NameOf(key) == n && values == [Join(labels[key], ",")]
  }

  // Go ranges over the map in any order.
  method SetLabelMeta(labels: Labels) returns (h: Header)
    ensures Written(labels, labels.Keys, h)
  {
    h := map[];
    var todo := labels.Keys;
    while todo != {}
      invariant todo <= labels.Keys
      invariant Written(labels, labels.Keys - todo, h)
      decreases |todo|
    {
      var key :| key in todo;
      WrittenMore(labels, labels.Keys - todo, key, h);
      assert labels.Keys - (todo - {key}) == (labels.Keys - todo) + {key};
      todo := todo - {key};
      if key != "" {
        h := h[NameOf(key) := [Join(labels[key], ",")]];
      }
    }
    assert labels.Keys - todo == labels.Keys;
  }

  lemma WrittenMore(labels: Labels, done: set<string>, key: string, h: Header)
    requires Written(labels, done, h) && key in labels
    ensures Written(labels, done + {key}, if key == "" then h else h[NameOf(key) := [Join(labels[key], ",")]])
  {
    var done' := done + {key};
    var h' := if key == "" then h else h[NameOf(key) := [Join(labels[key], ",")]];
    NameOfKey(key);
    if key != "" { assert Wrote(labels, done', key, NameOf(key), h'[NameOf(key)]); }
    forall n | n in h' ensures HasPrefix(n) && exists k :: Wrote(labels, done', k, n, h'[n]) {
      if key == "" || n != NameOf(key) {
        var k :| Wrote(labels, done, k, n, h[n]);
        assert Wrote(labels, done', k, n, h'[n]);
      }
    }
  }

  // putRef: the size goes last, so that it wins over a label of the same name. None if
  // the client refuses to send the request.
  method MarkerHeader(labels: Labels, size: nat) returns (r: Option<Header>)
    ensures r.Some? ==> SizeOf(r.value) == size && MayStore(labels, LabelsOf(r.value)) && CanonicalHeader(r.value)
    ensures r.None? ==> exists key :: Unsendable(labels, key)
  {
    var h := SetLabelMeta(labels);
    ghost var before := h;
    h := h[NameOf(META_SIZE) := [Decimal(size)]];
    r := Sent(h);
    if r.Some? { SentIsStored(labels, before, size); } else { RefusedIsUnsendable(labels, before, size); }
  }

  lemma SizeName()
    ensures NameOf(META_SIZE) == META_PREFIX + META_SIZE && Canon(META_SIZE) == META_SIZE
  {
    NameOfKey(META_SIZE);
    SizeIsCanonical();
  }

  lemma SizeIsCanonical()
    ensures Canon(META_SIZE) == META_SIZE && IsToken(META_SIZE)
  {
    CasedIsCanonical(META_SIZE);
  }

  // ---- Reading ----

  predicate IsLabelName(name: string) {
    HasPrefix(name) && !Reserved(RestOf(name))
  }

  predicate IsSizeName(name: string) {
    HasPrefix(name) && Reserved(RestOf(name))
  }

  // The labels are the names that carry the prefix and are not the size.
  function LabelsOf(h: Header): Labels {
    map key | key in (set n | n in h && IsLabelName(n) :: RestOf(n)) :: h[META_PREFIX + key]
  }

  lemma LabelsOfHas(h: Header, n: string)
    requires n in h && IsLabelName(n)
    ensures RestOf(n) in LabelsOf(h) && LabelsOf(h)[RestOf(n)] == h[n]
  {
    assert META_PREFIX + RestOf(n) == n;
  }

  // Headers come off the wire with canonical names.
  predicate CanonicalHeader(h: Header) {
    forall n :: n in h ==> Canon(n) == n
  }

  // What has been read once the names in `done` have been visited.
  ghost function LabelsRead(h: Header, done: set<string>): Labels {
    map key | key in (set n | n in h && n in done && IsLabelName(n) :: RestOf(n)) :: h[META_PREFIX + key]
  }

  ghost function SizeRead(h: Header, done: set<string>): int {
    if NameOf(META_SIZE) in done then SizeOf(h) else 0
  }

  lemma ReadLabel(h: Header, done: set<string>, name: string)
    requires name in h
    ensures LabelsRead(h, done + {name}) == if IsLabelName(name) then LabelsRead(h, done)[RestOf(name) := h[name]] else LabelsRead(h, done)
  {
    var after := LabelsRead(h, done + {name});
    var expected := if IsLabelName(name) then LabelsRead(h, done)[RestOf(name) := h[name]] else LabelsRead(h, done);
    forall key ensures key in after <==> key in expected {
      if key in expected && key in LabelsRead(h, done) {
        var n :| n in h && n in done && IsLabelName(n) && RestOf(n) == key;
        assert n in done + {name};
      }
    }
  }

  lemma ReadSize(h: Header, done: set<string>, name: string)
    requires name in h && CanonicalHeader(h)
    ensures SizeRead(h, done + {name}) ==
      if IsSizeName(name) then (if |h[name]| > 0 then ParseInt(h[name][0]) else 0) else SizeRead(h, done)
  {
    SizeNameIsReserved();
    if IsSizeName(name) { OneSizeName(name); }
  }

  // metaToLabels, whatever order Go visits the names in.
  method MetaToLabels(h: Header) returns (labels: Labels, size: int)
    ensures labels == LabelsOf(h)
    ensures CanonicalHeader(h) ==> size == SizeOf(h)
  {
    labels, size := map[], 0;
    var todo := h.Keys;
    while todo != {}
      invariant todo <= h.Keys
      invariant labels == LabelsRead(h, h.Keys - todo)
      invariant CanonicalHeader(h) ==> size == SizeRead(h, h.Keys - todo)
      invariant CanonicalHeader(h) && NameOf(META_SIZE) in todo ==> size == 0
      decreases |todo|
    {
      var name :| name in todo;
      ReadLabel(h, h.Keys - todo, name);
      if CanonicalHeader(h) { ReadSize(h, h.Keys - todo, name); if IsSizeName(name) { OneSizeName(name); } }
      assert h.Keys - (todo - {name}) == (h.Keys - todo) + {name};
      todo := todo - {name};
      if !HasPrefix(name) {
        continue;
      }
      var rest := RestOf(name);
      if EqualFold(rest, META_SIZE) {
        if |h[name]| > 0 {
          size := ParseInt(h[name][0]);
        }
        continue;
      }
      labels := labels[rest := h[name]];
    }
    AllRead(h);
  }

  lemma AllRead(h: Header)
    ensures LabelsRead(h, h.Keys - {}) == LabelsOf(h) && SizeRead(h, h.Keys - {}) == SizeOf(h)
  {
    assert (set n | n in h && n in h.Keys - {} && IsLabelName(n) :: RestOf(n)) == (set n | n in h && IsLabelName(n) :: RestOf(n));
  }

  function SizeOf(h: Header): int {
    var n := NameOf(META_SIZE);
    if n in h && |h[n]| > 0 then ParseInt(h[n][0]) else 0
  }

  lemma SizeNameIsReserved()
    ensures IsSizeName(NameOf(META_SIZE))
  {
    SizeName();
  }

  lemma OneSizeName(n: string)
    requires IsSizeName(n) && Canon(n) == n
    ensures n == NameOf(META_SIZE)
  {
    assert n == META_PREFIX + RestOf(n);
    NameOfKey(RestOf(n));
    NameOfKey(META_SIZE);
    SizeIsCanonical();
    FoldedNamesAgree(RestOf(n), META_SIZE);
  }

  // ---- The marker as sent ----

  function WithSize(h: Header, size: nat): Header {
    h[NameOf(META_SIZE) := [Decimal(size)]]
  }

  lemma DecimalIsClean(n: nat)
    ensures ValidValue(Decimal(n)) && Scrub(Decimal(n)) == Decimal(n)
  {
    CleanIffUnchanged(Decimal(n));
  }

  lemma SentIsStored(labels: Labels, h: Header, size: nat)
    requires Written(labels, labels.Keys, h) && Sent(WithSize(h, size)).Some?
    ensures var r := Sent(WithSize(h, size)).value; SizeOf(r) == size && MayStore(labels, LabelsOf(r)) && CanonicalHeader(r)
  {
    var h' := WithSize(h, size);
    var r := Sent(h').value;
    DecimalIsClean(size);
    ParseIntOfDecimal(size);
    assert r[NameOf(META_SIZE)] == [Decimal(size)];
    forall key | key in LabelsOf(r) ensures exists k :: Keeps(labels, k, key, LabelsOf(r)[key]) {
      StoredWasWritten(labels, h, size, key);
    }
    forall key | key in labels && key != "" ensures IsToken(key) && (!Reserved(Canon(key)) ==> Canon(key) in LabelsOf(r)) {
      NameOfKey(key);
      SentNameIsToken(labels, h, size, key);
      if !Reserved(Canon(key)) { LabelsOfHas(r, NameOf(key)); }
    }
    forall n | n in r ensures Canon(n) == n {
      WrittenIsCanonical(labels, h, n);
    }
  }

  lemma SentNameIsToken(labels: Labels, h: Header, size: nat, key: string)
    requires Written(labels, labels.Keys, h) && Sent(WithSize(h, size)).Some? && key in labels && key != ""
    ensures IsToken(key)
  {
    NameOfKey(key);
    assert NameOf(key) in WithSize(h, size) && NameOk(NameOf(key));
    TokenOfPrefixed(Canon(key));
    assert IsToken(Canon(key));
  }

  lemma TokenOfPrefixed(rest: string)
    ensures IsToken(META_PREFIX + rest) <==> IsToken(rest)
  {
    PrefixIsCanonical();
    if IsToken(META_PREFIX + rest) {
      assert forall i :: 0 <= i < |rest| ==> rest[i] == (META_PREFIX + rest)[|META_PREFIX| + i];
    }
  }

  lemma StoredWasWritten(labels: Labels, h: Header, size: nat, key: string)
    requires Written(labels, labels.Keys, h) && Sent(WithSize(h, size)).Some? && key in LabelsOf(Sent(WithSize(h, size)).value)
    ensures exists k :: Keeps(labels, k, key, LabelsOf(Sent(WithSize(h, size)).value)[key])
  {
    var h' := WithSize(h, size);
    var r := Sent(h').value;
    SizeNameIsReserved();
    var n :| n in r && IsLabelName(n) && RestOf(n) == key;
    assert n in h && h'[n] == h[n];
    var k :| Wrote(labels, labels.Keys, k, n, h[n]);
    NameOfKey(k);
    assert LegalList(h'[n]) && ValidValue(h'[n][0]);
    assert r[n] == ScrubAll(h[n]) == [Scrub(Join(labels[k], ","))];
    assert Keeps(labels, k, key, r[n]);
  }

  lemma RefusedIsUnsendable(labels: Labels, h: Header, size: nat)
    requires Written(labels, labels.Keys, h) && Sent(WithSize(h, size)).None?
    ensures exists key :: Unsendable(labels, key)
  {
    var h' := WithSize(h, size);
    DecimalIsClean(size);
    SizeName();
    SizeIsCanonical();
    TokenOfPrefixed(META_SIZE);
    assert NameOk(NameOf(META_SIZE));
    var n :| n in h' && !(NameOk(n) && forall i :: 0 <= i < |h'[n]| ==> ValidValue(h'[n][i]));
    assert n != NameOf(META_SIZE);
    var k :| Wrote(labels, labels.Keys, k, n, h[n]);
    NameOfKey(k);
    TokenOfPrefixed(Canon(k));
    if IsToken(k) { CanonOfToken(k); }
    assert Unsendable(labels, k);
  }

  lemma WrittenIsCanonical(labels: Labels, h: Header, n: string)
    requires Written(labels, labels.Keys, h) && (n in h || n == NameOf(META_SIZE))
    ensures Canon(n) == n
  {
    if n == NameOf(META_SIZE) {
      CanonIsIdempotent(META_PREFIX + META_SIZE);
    } else {
      var k :| Wrote(labels, labels.Keys, k, n, h[n]);
      CanonIsIdempotent(META_PREFIX + k);
    }
  }

  // ---- The round trip ----

  // Labels that survive the trip: plain ones, not the reserved name, one value each.
  predicate Portable(labels: Labels) {
    forall key :: key in labels ==> PortableLabel(key, labels[key])
  }

  predicate PortableLabel(key: string, values: seq<string>) {
    NameOk(key) && Canon(key) == key && !Reserved(key) && |values| == 1 && CleanValue(values[0])
  }

  // What became of a marker's labels: stored, or the request was refused.
  ghost predicate Fate(labels: Labels, stored: Option<Labels>) {
    if stored.Some? then MayStore(labels, stored.value) else exists key :: Unsendable(labels, key)
  }

  lemma PortableIsSendable(labels: Labels, key: string)
    requires Portable(labels)
    ensures !Unsendable(labels, key)
  {
    if key in labels {
      assert PortableLabel(key, labels[key]);
      assert labels[key] == [labels[key][0]];
    }
  }

  lemma PortableComeBack(labels: Labels, stored: Labels, key: string)
    requires MayStore(labels, stored) && Portable(labels)
    ensures key in labels <==> key in stored
    ensures key in labels ==> stored[key] == labels[key]
  {
    if key in labels { assert PortableLabel(key, labels[key]) && Canon(key) in stored; }
    if key in stored {
      var k :| Keeps(labels, k, key, stored[key]);
      assert PortableLabel(k, labels[k]);
      assert labels[k] == [labels[k][0]];
      CleanIffUnchanged(labels[k][0]);
    }
  }

  lemma StoredIsPortable(labels: Labels, stored: Labels, key: string)
    requires MayStore(labels, stored) && key in stored
    ensures PortableLabel(key, stored[key])
  {
    var k :| Keeps(labels, k, key, stored[key]);
    CanonIsIdempotent(k);
    CanonOfToken(k);
    ScrubIsClean(Join(labels[k], ","));
  }

  lemma PortableIsKept(labels: Labels, stored: Labels)
    requires MayStore(labels, stored) && Portable(labels)
    ensures stored == labels
  {
    forall key ensures (key in labels <==> key in stored) && (key in labels ==> stored[key] == labels[key]) {
      PortableComeBack(labels, stored, key);
    }
  }

  // Whatever a marker holds is portable.
  lemma MarkersArePortable(labels: Labels, stored: Labels)
    requires MayStore(labels, stored)
    ensures Portable(stored)
  {
    forall key | key in stored ensures PortableLabel(key, stored[key]) {
      StoredIsPortable(labels, stored, key);
    }
  }

  lemma PortableIsSent(labels: Labels, stored: Option<Labels>)
    requires Fate(labels, stored) && Portable(labels)
    ensures stored.Some? && MayStore(labels, stored.value)
  {
    forall key ensures !Unsendable(labels, key) {
      PortableIsSendable(labels, key);
    }
  }

  // They come back unchanged, and no others do: some are refused, some dropped, renamed,
  // joined or trimmed.
  lemma LabelsSurviveIffPortable(labels: Labels, stored: Option<Labels>)
    requires Fate(labels, stored)
    ensures stored == Some(labels) <==> Portable(labels)
  {
    if Portable(labels) {
      PortableIsSent(labels, stored);
      PortableIsKept(labels, stored.value);
    }
    if stored.Some? && MayStore(labels, stored.value) { MarkersArePortable(labels, stored.value); }
  }

  // Portable labels are plain.
  lemma PortableIsPlain(labels: Labels)
    requires Portable(labels)
    ensures PlainLabels(labels)
  {
    forall key | key in labels ensures Canon(key) == key && labels[key] != [] && NameOk(key) && CleanList(labels[key]) {
      assert PortableLabel(key, labels[key]);
    }
  }
}
