/** The cache tap of cache.go, on the caller's side: what the caller reads from the
    origin is copied into a pipe, until something makes the copy incomplete. */
module CacheTap {
  import opened Base

  // How a stream ended: io.EOF, io.ErrUnexpectedEOF, io.ErrClosedPipe, or a read error.
  datatype End = Eof | UnexpectedEof | ClosedPipe | Failure

  // The writing end of an io.Pipe, with what its reader has received and will see.
  class PipeWriter {
    var sent: Bytes
    var closed: Option<End>

    constructor ()
      ensures sent == [] && closed == None
    {
      sent := [];
      closed := None;
    }

    // The reader takes the first `taken` bytes; it closed its end if that is not all.
    method Write(b: Bytes, taken: nat) returns (err: Option<End>)
      requires taken <= |b|
      modifies this`sent
      ensures sent == old(sent) + b[..taken]
      ensures err == if taken == |b| then None else Some(ClosedPipe)
    {
      sent := sent + b[..taken];
      err := if taken == |b| then None else Some(ClosedPipe);
    }

    // The first error stays.
    method CloseWithError(err: End)
      modifies this`closed
      ensures closed == if old(closed).Some? then old(closed) else Some(err)
    {
      if closed.None? {
        closed := Some(err);
      }
    }
  }

  // `w` is None once the sink has been replaced by discardSink.
  class BlobTap {
    const content: Bytes     // the origin blob
    const sink: PipeWriter
    var w: Option<PipeWriter>
    var pos: nat             // where the origin reader is

    // While it taps, the sink has what the caller has read, from the start. And the
    // sink never has anything but a prefix of the blob, nor a clean end before all of it.
    ghost predicate Valid()
      reads this, sink
    {
      && (w.Some? ==> w.value == sink && sink.closed.None? && pos <= |content| && sink.sent == content[..pos])
      && sink.sent <= content
      && (sink.closed == Some(Eof) ==> sink.sent == content)
      && (w.None? ==> sink.closed.Some?)
    }

    constructor (content: Bytes)
      ensures Valid() && this.content == content && pos == 0 && w == Some(sink) && fresh(sink)
    {
      this.content := content;
      var p := new PipeWriter();
      sink := p;
      w := Some(p);
      pos := 0;
      new;
      assert content[..0] == [];
    }

    // The origin reader hands out n bytes from where it is, and an end-of-file only
    // at the end of the blob. The caller gets exactly that.
    method Read(n: nat, end: Option<End>, taken: nat) returns (b: Bytes, err: Option<End>)
      requires Valid() && (n == 0 || pos + n <= |content|)
      requires end == Some(Eof) ==> pos + n >= |content|
      requires taken <= n
      modifies this, sink
      ensures Valid()
      ensures n > 0 ==> b == content[old(pos)..old(pos) + n]
      ensures n == 0 ==> b == []
      ensures err == end && pos == old(pos) + n
      // A tap copies what is taken, and ends the copy with the reader's own end, or with the
      // pipe's error if not all was taken.
      ensures old(w).Some? ==> old(pos) + taken <= |content| && sink.sent == old(sink.sent) + content[old(pos)..old(pos) + taken]
      ensures old(w).Some? ==> sink.closed == if taken < n then Some(ClosedPipe) else end
      // So a blob that is read to its end through the tap is in the sink, cleanly ended.
      ensures old(w).Some? && taken == n && end == Some(Eof) ==> sink.sent == content && sink.closed == Some(Eof)
      ensures old(w).None? ==> sink.sent == old(sink.sent) && sink.closed == old(sink.closed)
      ensures w.Some? <==> old(w).Some? && end.None? && taken == n
    {
      b := if n > 0 then content[pos..pos + n] else [];
      err := end;
      ghost var before := pos;
      pos := pos + n;
      if n > 0 && w.Some? {
        assert content[..before] + content[before..before + n] == content[..pos];
        assert content[..before] + b[..taken] == content[..before + taken];
        var failed := w.value.Write(b, taken);
        if failed.Some? {
          Stop(failed.value);
        }
      }
      if end.Some? {
        Stop(end.value);
      }
    }

    method Seek(to: nat)
      requires Valid()
      modifies this, sink
      ensures Valid() && w.None? && pos == to && sink.sent == old(sink.sent)
      ensures sink.closed == if old(w).Some? then Some(UnexpectedEof) else old(sink.closed)
    {
      Stop(UnexpectedEof);
      pos := to;
    }

    method Close()
      requires Valid()
      modifies this, sink
      ensures Valid() && w.None? && pos == old(pos) && sink.sent == old(sink.sent)
      ensures sink.closed == if old(w).Some? then Some(UnexpectedEof) else old(sink.closed)
    {
      Stop(UnexpectedEof);
    }

    method Stop(err: End)
      requires w.Some? ==> w.value == sink
      modifies this`w, sink`closed
      ensures w.None?
      ensures sink.closed == if old(w).None? || old(sink.closed).Some? then old(sink.closed) else Some(err)
    {
      if w.Some? {
        w.value.CloseWithError(err);
      }
      w := None;
    }
  }
}
