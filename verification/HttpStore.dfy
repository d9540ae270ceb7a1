/** A store behind HTTP: the client, the way there and back, the handler and the store
    behind it together behave like that store, as far as URLs, status codes and headers
    let them. */
module HttpStore {
  import opened Base
  import opened Digests
  import opened StoreSpec
  import opened Headers
  import opened LabelWire
  import opened HttpUrl
  import opened HttpWire
  import opened HttpReply

  // `path` is the URL's text after the host, as the client has it, and the decoded path,
  // as the handler has it.
  datatype Request = Request(verb: Verb, path: string, header: Header, body: Bytes)

  // A response as the handler leaves it, without the standard headers.
  datatype Output = Output(status: nat, header: Header, body: Bytes)

  // ---- The client's side ----

  function VerbOf(call: Call): Verb {
    match call
    case Add(_, _, _) => POST
    case Get(_, _) => HEAD
    case Open(_, _) => GET
    case Label(_, _, _) => PATCH
    case Erase(_, _) => DELETE
  }

  function DigestOf(call: Call): Digest {
    match call
    case Add(_, m, _) => m.digest
    case Get(_, d) => d
    case Open(_, d) => d
    case Label(_, d, _) => d
    case Erase(_, d) => d
  }

  function LabelsOf(call: Call): Labels {
    match call
    case Add(_, m, _) => m.labels
    case Label(_, _, labels) => labels
    case _ => map[]
  }

  method MakeRequest(call: Call) returns (req: Request)
    ensures req.verb == VerbOf(call) && req.path == PathOf(call.id, DigestOf(call))
    ensures Added(map[], RequestName, LabelsOf(call), LabelsOf(call).Keys, req.header)
    ensures req.body == if call.Add? then call.content else []
  {
    var h := AddAll(map[], RequestName, LabelsOf(call));
    req := Request(VerbOf(call), PathOf(call.id, DigestOf(call)), h, if call.Add? then call.content else []);
  }

  // Add's own table, and parseErr.
  function ErrorOf(verb: Verb, status: nat): Result {
    if verb == POST then
      if status == 200 then AlreadyExists
      else if status == 201 then Ok
      else if status == 422 then DigestMismatch
      else if status == 404 then NotExist
      else OtherError
    else
      if status == 200 || status == 201 || status == 204 || status == 206 then Ok
      else if status == 404 then NotExist
      else if status == 422 then DigestMismatch
      else OtherError
  }

  // None is an error of the transport.
  ghost predicate ReadAs(verb: Verb, res: Option<Response>, r: Reply) {
    if res.None? then r == Refused(OtherError)
    else
      var err := ErrorOf(verb, res.value.status);
      var meta := Meta(DigestIn(res.value.header), ResponseLabels(res.value.header), res.value.length);
      r == if verb == POST then Reply(err, meta, None)
           else if err != Ok || verb == PATCH || verb == DELETE then Refused(err)
           else Reply(Ok, meta, if verb == GET then Some(res.value.body) else None)
  }

  method ReadResponse(verb: Verb, got: Option<Response>) returns (r: Reply)
    ensures ReadAs(verb, got, r)
  {
    if got.None? {
      return Refused(OtherError);
    }
    var res := got.value;
    var err := ErrorOf(verb, res.status);
    if verb == POST {
      var labels := ParseMetaLabels(res.header);
      return Reply(err, Meta(DigestIn(res.header), labels, res.length), None);
    }
    if err != Ok || verb == PATCH || verb == DELETE {
      return Refused(err);
    }
    var labels := ParseMetaLabels(res.header);
    r := Reply(err, Meta(DigestIn(res.header), labels, res.length), if verb == GET then Some(res.body) else None);
  }

  // ---- The handler's side ----

  function StatusOf(verb: Verb, err: Result): nat {
    match verb
    case POST =>
      (match err
       case Ok => 201
       case NotExist => 404
       case AlreadyExists => 200
       case DigestMismatch => 422
       case OtherError => 500)
    case HEAD | GET => if err == Ok then 200 else if err == NotExist then 404 else 500
    case PATCH => if err == Ok then 204 else if err == NotExist then 404 else 500
    case DELETE => if err == Ok then 204 else 500
  }

  function RequestedCall(verb: Verb, id: StoreId, d: Digest, labels: Labels, body: Bytes): Call {
    match verb
    case POST => Add(id, Meta(d, labels, 0), body)
    case HEAD => Get(id, d)
    case GET => Open(id, d)
    case PATCH => Label(id, d, labels)
    case DELETE => Erase(id, d)
  }

  // The call that a request asks of the store, if the handler gets that far.
  function Routed(req: Request): Option<Call> {
    var p := ParsePath(req.path);
    if p.None? || (p.value.1 == "" && req.verb != POST) || (p.value.1 != "" && !Valid(p.value.1)) then None
    else Some(RequestedCall(req.verb, p.value.0, p.value.1, RequestLabels(req.header), req.body))
  }

  predicate Informs(verb: Verb, err: Result) {
    (err == Ok && (verb == HEAD || verb == GET)) || (verb == POST && (err == Ok || err == AlreadyExists))
  }

  // The handler's answer, which tells about a blob in three cases.
  ghost predicate Responds(verb: Verb, r: Reply, out: Output) {
    && out.status == StatusOf(verb, r.err)
    && (if Informs(verb, r.err) then exists h :: Tells(verb, r.meta, out, h) else out.header == map[])
    && out.body == if r.content.Some? then r.content.value else []
  }

  ghost predicate Tells(verb: Verb, m: Meta, out: Output, h: Header) {
    Shows(m, h) && out.header == Finish(verb, out.status, h, Size(m))
  }

  method Respond(verb: Verb, r: Reply) returns (out: Output)
    ensures Responds(verb, r, out)
  {
    out := Output(StatusOf(verb, r.err), map[], if r.content.Some? then r.content.value else []);
    if Informs(verb, r.err) {
      var h := SetMetaHeaders(r.meta);
      out := out.(header := Finish(verb, out.status, h, Size(r.meta)));
      assert Tells(verb, r.meta, out, h);
    }
  }

  // What the handler does with a request, for a store with contents s.
  ghost predicate Served(hash: Hash, s: Contents, req: Request, s': Contents, out: Output) {
    if Routed(req).None? then s' == s && out.header == map[] && (out.status == 400 || out.status == 405)
    else
      var call := Routed(req).value;
      s' == After(hash, s, call) && Responds(req.verb, Answer(hash, s, call), out)
  }

  // Without redirects. The store's contents are passed along.
  method Serve(hash: Hash, s: Contents, req: Request) returns (s': Contents, out: Output)
    ensures Served(hash, s, req, s', out)
  {
    s' := s;
    var p := ParsePath(req.path);
    if p.None? {
      return s', Output(400, map[], []);
    }
    var id, d := p.value.0, p.value.1;
    if d != "" {
      SanitizeIsIdentity(d);
      if Sanitize(d).None? {
        return s', Output(400, map[], []);
      }
      d := Sanitize(d).value;
    } else if req.verb != POST {
      return s', Output(405, map[], []);
    }
    var labels := ParseLabels(req.header);
    var call := RequestedCall(req.verb, id, d, labels, req.body);
    s' := After(hash, s, call);
    out := Respond(req.verb, Answer(hash, s, call));
  }

  // ---- The way there and back ----

  // None: the client or the server refuses the request. `up` are the other headers.
  function Delivered(req: Request, up: Header): Option<Request> {
    if UrlPath(req.path).None? || Sent(req.header).None? then None
    else Some(req.(path := UrlPath(req.path).value, header := Sent(req.header).value + up))
  }

  // What the world contributes: headers that clients and servers add, the unzipper, and
  // a response that a label has steered (HttpReply.Steers).
  datatype World = World(up: Header, down: Header, gunzip: Gunzip, steered: Option<Response>)

  ghost predicate Sane(w: World) {
    (forall n :: n in w.up ==> !(LABEL_PREFIX <= n)) && Standard(w.down)
  }

  function Returned(verb: Verb, out: Output, w: World): Option<Response> {
    if Steers(out.header) then w.steered else Received(verb, out.status, out.header, out.body, w.gunzip, w.down)
  }

  // ---- Both together ----

  // The handler may come to see another store or digest (HttpUrl).
  function Addressed(call: Call): Option<Call> {
    match Reached(call.id, DigestOf(call))
    case Some((id, d)) => Some(WithAddress(call, id, d))
    case None => None
  }

  function WithAddress(call: Call, id: StoreId, d: Digest): Call {
    match call
    case Add(_, m, _) => call.(id := id, meta := m.(digest := d))
    case Get(_, _) => Get(id, d)
    case Open(_, _) => Open(id, d)
    case Label(_, _, labels) => Label(id, d, labels)
    case Erase(_, _) => Erase(id, d)
  }

  function WithLabels(call: Call, labels: Labels): Call {
    match call
    case Add(_, m, _) => call.(meta := m.(labels := labels))
    case Label(_, _, _) => call.(labels := labels)
    case _ => call
  }

  function Arrived(call: Call): Call {
    if call.Add? then call.(meta := call.meta.(size := 0)) else call
  }

  // A call reaches its own store and digest exactly if URLs carry both.
  lemma AddressedIff(call: Call)
    ensures Addressed(call) == Some(call) <==>
            Safe(call.id) && Safe(DigestOf(call)) && (DigestOf(call) == "" ==> call.id != "")
  {
    PathRoundTrip(call.id, DigestOf(call));
  }

  // An Erase of a malformed digest may erase a blob: what is behind a question mark is
  // not seen.
  lemma EraseReachesBlob(id: StoreId, d: Digest, rest: string)
    requires Safe(id) && Valid(d) && '#' !in rest && ' ' !in rest && !HasControl(rest)
    ensures Addressed(Erase(id, d + "?" + rest)) == Some(Erase(id, d)) && !Valid(d + "?" + rest)
  {
    ValidIsSafe(d);
    QueryIsCut(id, d, rest);
    MarkIsInvalid(d, rest);
  }

  lemma MarkIsInvalid(d: Digest, rest: string)
    requires Valid(d)
    ensures !Valid(d + "?" + rest)
  {
    var e := d + "?" + rest;
    assert e[|d|] == '?' && |d| > 7;
  }

  predicate Addressable(call: Call) {
    Valid(DigestOf(call)) || (call.Add? && DigestOf(call) == "")
  }

  // The same error, and for reads the same content and size.
  predicate Alike(call: Call, a: Reply, r: Reply) {
    r.err == a.err && (!call.Add? ==> r.content == a.content && r.meta.size == a.meta.size)
  }

  // The handler answers an invalid digest itself, which only Add reports like a store.
  // Otherwise the answer is the store's. One that tells about a blob passes exactly if
  // the blob's labels do no harm, and shows the labels exactly if they are of that kind.
  ghost predicate Transparent(hash: Hash, s: Contents, call: Call, s': Contents, r: Reply, encoding: string) {
    var a, verb := Answer(hash, s, call), VerbOf(call);
    && s' == After(hash, s, call)
    && if !Addressable(call) then r.err == OtherError && (a.err == OtherError <==> call.Add?)
       else if !Informs(verb, a.err) then r.err == a.err && (!call.Add? ==> r == a)
       else Steady(a.meta.labels) ==>
              && Encoding(a.meta.labels, encoding)
              && (Alike(call, a, r) <==> Unharmed(verb, StatusOf(verb, a.err), a.meta.labels, Size(a.meta), encoding))
              && (r.err == a.err ==> r.meta.digest == a.meta.digest && (r.meta.labels == a.meta.labels <==> Shown(a.meta.labels)))
  }

  // With labels that responses show, a caller cannot tell the client from the store.
  lemma ShownIsTransparent(hash: Hash, s: Contents, call: Call, s': Contents, r: Reply, encoding: string)
    requires Transparent(hash, s, call, s', r, encoding) && !call.Add? && Valid(DigestOf(call))
    requires var a := Answer(hash, s, call); Shown(a.meta.labels) && Steady(a.meta.labels)
    ensures s' == After(hash, s, call) && r == Answer(hash, s, call)
  {
    var a, verb := Answer(hash, s, call), VerbOf(call);
    if Informs(verb, a.err) { ShownIsUnharmed(verb, StatusOf(verb, a.err), a.meta.labels, Size(a.meta), encoding); }
  }

  // The statuses of the handler's answers.
  lemma StatusesAre(hash: Hash, s: Contents, call: Call)
    ensures var err, status := Answer(hash, s, call).err, StatusOf(VerbOf(call), Answer(hash, s, call).err);
            match call {
              case Add(_, _, _) =>
                (err == Ok <==> status == 201) && (err == AlreadyExists <==> status == 200) && (err == DigestMismatch <==> status == 422)
              case Get(_, _) => status == if err == Ok then 200 else 404
              case Open(_, _) => status == if err == Ok then 200 else 404
              case Label(_, _, _) => status == if err == Ok then 204 else 404
              case Erase(_, _) => status == 204
            }
  {
  }

  lemma ErrorsSurvive(hash: Hash, s: Contents, call: Call)
    ensures var err := Answer(hash, s, call).err; ErrorOf(VerbOf(call), StatusOf(VerbOf(call), err)) == err
  {
  }

  lemma SizeIsIgnored(hash: Hash, s: Contents, call: Call)
    ensures After(hash, s, Arrived(call)) == After(hash, s, call)
    ensures var a, a' := Answer(hash, s, call), Answer(hash, s, Arrived(call));
            a'.err == a.err && a'.content == a.content && a'.meta.digest == a.meta.digest && a'.meta.labels == a.meta.labels
            && (!call.Add? ==> a' == a) && (Informs(VerbOf(call), a.err) ==> a'.meta.size >= 0)
  {
  }

  lemma ReadsHaveContent(hash: Hash, s: Contents, call: Call)
    ensures Answer(hash, s, call).content.Some? <==> call.Open? && Answer(hash, s, call).err == Ok
    ensures var a := Answer(hash, s, call); call.Open? && a.err == Ok ==> a.meta.size == |a.content.value|
  {
  }

  lemma InvalidChangesNothing(hash: Hash, s: Contents, call: Call)
    requires Canonical(hash) && Sound(hash, s) && !Addressable(call)
    ensures After(hash, s, call) == s
    ensures Answer(hash, s, call).err == OtherError <==> call.Add?
  {
    assert (call.id, DigestOf(call)) !in s;
  }

  lemma ValidIsClean(d: Digest)
    requires Valid(d)
    ensures CleanValue(Quote(d))
  {
    ValidIsSafe(d);
    var q := Quote(d);
    forall i | 0 <= i < |q| ensures ValidByte(q[i]) {
      if 0 < i <= |d| { assert q[i] == d[i - 1] && !IsControl(d[i - 1]); }
    }
  }

  lemma InformsOfValid(hash: Hash, s: Contents, call: Call)
    requires Canonical(hash) && Addressable(call) && Informs(VerbOf(call), Answer(hash, s, call).err)
    ensures Valid(Answer(hash, s, call).meta.digest)
  {
  }

  // What the client makes of an answer about a blob.
  lemma InformedRead(verb: Verb, err: Result, got: Option<Response>, r: Reply)
    requires Informs(verb, err) && ReadAs(verb, got, r) && (got.Some? ==> got.value.status == StatusOf(verb, err))
    ensures r.err == err <==> got.Some?
    ensures got.Some? ==> r.meta == Meta(DigestIn(got.value.header), ResponseLabels(got.value.header), got.value.length)
                          && r.content == if verb == GET then Some(got.value.body) else None
  {
  }

  lemma ReturnedIs(verb: Verb, m: Meta, h: Header, out: Output, w: World)
    requires Shows(m, h) && Steady(m.labels) && out.header == Finish(verb, out.status, h, Size(m))
    ensures Returned(verb, out, w) == Received(verb, out.status, out.header, out.body, w.gunzip, w.down)
    ensures Returned(verb, out, w).Some? ==> Returned(verb, out, w).value.status == out.status
    ensures Returned(verb, out, w).Some? && verb != GET ==> Returned(verb, out, w).value.body == out.body
  {
    SteadyDoesNotSteer(m, h);
    assert !Steers(out.header);
  }

  // The handler's answer to a call that it sees as it is.
  lemma InformedThrough(verb: Verb, a: Reply, h: Header, out: Output, w: World, got: Option<Response>, r: Reply)
    requires Sane(w) && Informs(verb, a.err) && a.meta.size >= 0 && Valid(a.meta.digest) && Steady(a.meta.labels)
    requires Tells(verb, a.meta, out, h) && out.status == StatusOf(verb, a.err)
    requires verb == GET <==> a.content.Some?
    requires out.body == (if verb == GET then a.content.value else []) && (verb == GET ==> a.meta.size == |out.body|)
    requires got == Returned(verb, out, w) && ReadAs(verb, got, r)
    ensures Encoding(a.meta.labels, First(h, ENCODING))
    ensures r.err == a.err && (verb != POST ==> r.content == a.content && r.meta.size == a.meta.size)
            <==> Unharmed(verb, out.status, a.meta.labels, a.meta.size, First(h, ENCODING))
    ensures r.err == a.err ==> r.meta.digest == a.meta.digest && (r.meta.labels == a.meta.labels <==> Shown(a.meta.labels))
  {
    ReturnedIs(verb, a.meta, h, out, w);
    InformedRead(verb, a.err, got, r);
    ValidIsClean(a.meta.digest);
    CleanIffUnchanged(Quote(a.meta.digest));
    EncodingIs(a.meta, h);
    ReceivedIffUnharmed(verb, out.status, a.meta, h, out.body, w.gunzip, w.down);
    if got.Some? { ReceivedShows(verb, out.status, a.meta, h, out.body, w.gunzip, w.down); }
  }

  lemma RoutedWhenAddressable(call: Call, sent: Request)
    requires Addressable(call) && sent.verb == VerbOf(call) && ParsePath(sent.path) == Some((call.id, DigestOf(call)))
    requires sent.body == (if call.Add? then call.content else []) && (call.Add? || call.Label? ==> RequestLabels(sent.header) == LabelsOf(call))
    ensures Routed(sent) == Some(Arrived(call))
  {
    if Valid(DigestOf(call)) { ValidIsSafe(DigestOf(call)); }
  }

  lemma UnroutedWhenNot(call: Call, sent: Request)
    requires !Addressable(call) && sent.verb == VerbOf(call) && ParsePath(sent.path) == Some((call.id, DigestOf(call)))
    ensures Routed(sent).None?
  {
  }

  // An answer without headers passes as it is.
  lemma BareThrough(verb: Verb, out: Output, w: World, got: Option<Response>)
    requires out.header == map[] && got == Returned(verb, out, w)
    ensures got.Some? && got.value.status == out.status
  {
  }

  // What the handler sees of a call.
  lemma SeenIs(call: Call, req: Request, sent: Request, up: Header)
    requires req.verb == VerbOf(call) && req.path == PathOf(call.id, DigestOf(call))
    requires req.body == if call.Add? then call.content else []
    requires Delivered(req, up) == Some(sent) && Addressed(call).Some?
    ensures var seen := WithLabels(Addressed(call).value, RequestLabels(sent.header));
            && VerbOf(seen) == VerbOf(call) && sent.verb == VerbOf(seen)
            && ParsePath(sent.path) == Some((seen.id, DigestOf(seen)))
            && sent.body == (if seen.Add? then seen.content else [])
            && (seen.Add? || seen.Label? ==> RequestLabels(sent.header) == LabelsOf(seen))
  {
    WithAddressIs(call, Addressed(call).value.id, DigestOf(Addressed(call).value), RequestLabels(sent.header));
  }

  lemma WithAddressIs(call: Call, id: StoreId, d: Digest, labels: Labels)
    ensures var seen := WithLabels(WithAddress(call, id, d), labels);
            && VerbOf(seen) == VerbOf(call) && seen.id == id && DigestOf(seen) == d
            && (seen.Add? <==> call.Add?) && (seen.Add? ==> seen.content == call.content)
            && (seen.Add? || seen.Label? ==> LabelsOf(seen) == labels)
  {
  }

  lemma RefusedExplained(hash: Hash, s: Contents, call: Call, sent: Request, s': Contents, out: Output, w: World, r: Reply)
    requires Canonical(hash) && Sound(hash, s) && sent.verb == VerbOf(call) && !Addressable(call) && Routed(sent).None?
    requires Served(hash, s, sent, s', out) && ReadAs(sent.verb, Returned(sent.verb, out, w), r)
    ensures Transparent(hash, s, call, s', r, "")
  {
    InvalidChangesNothing(hash, s, call);
    BareThrough(sent.verb, out, w, Returned(sent.verb, out, w));
  }

  lemma BareExplained(hash: Hash, s: Contents, call: Call, sent: Request, s': Contents, out: Output, w: World, r: Reply)
    requires sent.verb == VerbOf(call) && Addressable(call) && Routed(sent) == Some(Arrived(call))
    requires !Informs(sent.verb, Answer(hash, s, call).err)
    requires Served(hash, s, sent, s', out) && ReadAs(sent.verb, Returned(sent.verb, out, w), r)
    ensures Transparent(hash, s, call, s', r, "")
  {
    SizeIsIgnored(hash, s, call);
    ErrorsSurvive(hash, s, call);
    BareThrough(sent.verb, out, w, Returned(sent.verb, out, w));
  }

  lemma InformedExplained(hash: Hash, s: Contents, call: Call, sent: Request, s': Contents, out: Output, w: World, r: Reply) returns (encoding: string)
    requires Canonical(hash) && Sane(w) && sent.verb == VerbOf(call) && Addressable(call) && Routed(sent) == Some(Arrived(call))
    requires Informs(sent.verb, Answer(hash, s, call).err)
    requires Served(hash, s, sent, s', out) && ReadAs(sent.verb, Returned(sent.verb, out, w), r)
    ensures Transparent(hash, s, call, s', r, encoding)
  {
    SizeIsIgnored(hash, s, call);
    var a := Answer(hash, s, Arrived(call));
    var h :| Tells(sent.verb, a.meta, out, h);
    encoding := First(h, ENCODING);
    InformsOfValid(hash, s, Arrived(call));
    ReadsHaveContent(hash, s, Arrived(call));
    if Steady(a.meta.labels) {
      InformedThrough(sent.verb, a, h, out, w, Returned(sent.verb, out, w), r);
      InformedIsTransparent(hash, s, call, out, r, encoding);
    }
  }

  // The same, of the call with its own size.
  lemma InformedIsTransparent(hash: Hash, s: Contents, call: Call, out: Output, r: Reply, encoding: string)
    requires var a := Answer(hash, s, Arrived(call)); var verb := VerbOf(call);
             && a.meta.size >= 0 && Informs(verb, a.err) && out.status == StatusOf(verb, a.err)
             && (r.err == a.err && (verb != POST ==> r.content == a.content && r.meta.size == a.meta.size)
                 <==> Unharmed(verb, out.status, a.meta.labels, a.meta.size, encoding))
    ensures var a := Answer(hash, s, call); var verb := VerbOf(call);
            Alike(call, a, r) <==> Unharmed(verb, StatusOf(verb, a.err), a.meta.labels, Size(a.meta), encoding)
  {
    SizeIsIgnored(hash, s, call);
  }

  lemma Explained(hash: Hash, s: Contents, call: Call, sent: Request, s': Contents, out: Output, w: World, r: Reply) returns (encoding: string)
    requires Canonical(hash) && Sound(hash, s) && Sane(w) && sent.verb == VerbOf(call)
    requires if Addressable(call) then Routed(sent) == Some(Arrived(call)) else Routed(sent).None?
    requires Served(hash, s, sent, s', out) && ReadAs(sent.verb, Returned(sent.verb, out, w), r)
    ensures Transparent(hash, s, call, s', r, encoding)
  {
    encoding := "";
    if !Addressable(call) {
      RefusedExplained(hash, s, call, sent, s', out, w, r);
    } else if !Informs(sent.verb, Answer(hash, s, call).err) {
      BareExplained(hash, s, call, sent, s', out, w, r);
    } else {
      encoding := InformedExplained(hash, s, call, sent, s', out, w, r);
    }
  }

  // The labels of a request as they arrive, None if the client refuses to send them.
  function Arriving(req: Request, up: Header): Option<Labels> {
    if Sent(req.header).Some? then Some(RequestLabels(Sent(req.header).value + up)) else None
  }

  lemma ArrivingIffCarried(call: Call, req: Request, w: World)
    requires Sane(w) && Added(map[], RequestName, LabelsOf(call), LabelsOf(call).Keys, req.header)
    ensures Arriving(req, w.up) == Some(LabelsOf(call)) <==> Carried(LabelsOf(call))
  {
    RequestCarriesLabels(LabelsOf(call), req.header, w.up);
  }

  lemma UndeliveredIs(call: Call, req: Request, up: Header)
    requires req.path == PathOf(call.id, DigestOf(call)) && Delivered(req, up).None?
    ensures Arriving(req, up).None? || Addressed(call).None?
  {
  }

  lemma UnaddressedThrough(hash: Hash, s: Contents, call: Call, req: Request, sent: Request, s': Contents, out: Output, w: World, r: Reply)
    requires req.path == PathOf(call.id, DigestOf(call)) && Delivered(req, w.up) == Some(sent) && Addressed(call).None?
    requires Served(hash, s, sent, s', out) && ReadAs(sent.verb, Returned(sent.verb, out, w), r)
    ensures s' == s && r.err == OtherError
  {
    BareThrough(sent.verb, out, w, Returned(sent.verb, out, w));
  }

  lemma AddressedThrough(hash: Hash, s: Contents, call: Call, req: Request, sent: Request, s': Contents, out: Output, w: World, r: Reply) returns (encoding: string)
    requires Canonical(hash) && Sound(hash, s) && Sane(w)
    requires req.verb == VerbOf(call) && req.path == PathOf(call.id, DigestOf(call)) && req.body == if call.Add? then call.content else []
    requires Delivered(req, w.up) == Some(sent) && Addressed(call).Some?
    requires Served(hash, s, sent, s', out) && ReadAs(sent.verb, Returned(sent.verb, out, w), r)
    ensures Arriving(req, w.up).Some?
    ensures Transparent(hash, s, WithLabels(Addressed(call).value, Arriving(req, w.up).value), s', r, encoding)
  {
    SeenIs(call, req, sent, w.up);
    var seen := WithLabels(Addressed(call).value, RequestLabels(sent.header));
    if Addressable(seen) {
      RoutedWhenAddressable(seen, sent);
    } else {
      UnroutedWhenNot(seen, sent);
    }
    encoding := Explained(hash, s, seen, sent, s', out, w, r);
  }

  // A call through client, wire and handler. `labels` are the call's labels as they
  // arrive, None if the client refuses to send them.
  method Through(hash: Hash, s: Contents, call: Call, w: World) returns (s': Contents, r: Reply, labels: Option<Labels>, ghost encoding: string)
    requires Canonical(hash) && Sound(hash, s) && Sane(w)
    ensures labels == Some(LabelsOf(call)) <==> Carried(LabelsOf(call))
    // Then the handler sees the very call, if URLs carry its id and digest.
    ensures labels == Some(LabelsOf(call)) && Addressed(call) == Some(call) ==> WithLabels(Addressed(call).value, labels.value) == call
    ensures labels.None? || Addressed(call).None? ==> s' == s && r.err == OtherError
    ensures labels.Some? && Addressed(call).Some? ==>
              Transparent(hash, s, WithLabels(Addressed(call).value, labels.value), s', r, encoding)
  {
    var req := MakeRequest(call);
    labels := Arriving(req, w.up);
    ArrivingIffCarried(call, req, w);
    var sent := Delivered(req, w.up);
    encoding := "";
    if sent.None? {
      UndeliveredIs(call, req, w.up);
      return s, Refused(OtherError), labels, "";
    }
    var out;
    s', out := Serve(hash, s, sent.value);
    r := ReadResponse(req.verb, Returned(req.verb, out, w));
    if Addressed(call).None? {
      UnaddressedThrough(hash, s, call, req, sent.value, s', out, w, r);
    } else {
      encoding := AddressedThrough(hash, s, call, req, sent.value, s', out, w, r);
    }
  }
}
