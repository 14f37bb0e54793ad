/** The two byte-copy loops: a local stream into messages, over buffers filled in place, and messages into a writer. */
module CopyLoops {
  import opened Numbers
  import opened Messages
  import opened Packets

  const BUFFER_SIZE: nat := 1024

  /** One return of the local reader: the bytes it put into the buffer, and whether an error came with them. */
  datatype ReadResult = ReadResult(data: seq<Byte>, failed: bool)

  /** A message payload: a reference to the first `n` bytes of a buffer. */
  datatype Slice = Slice(buffer: array<Byte>, n: nat)

  /** A copy loop ends with the error of what it reads from, of what it writes to, or of its context. */
  datatype Ending = ReadFailed | WriteFailed | Cancelled

  /** What the loop should queue for a run of reads when at most `room` session writes succeed, and how it ends. */
  datatype Copy = Copy(chunks: seq<seq<Byte>>, ending: Ending)

  function Copied(script: seq<ReadResult>, room: nat): Copy
    decreases |script|
  {
    if script == [] then Copy([], Cancelled)
    else if script[0].data != [] && room == 0 then Copy([], WriteFailed)
    else
      var chunk := if script[0].data != [] then [script[0].data] else [];
      if script[0].failed then Copy(chunk, ReadFailed)
      else
        var rest := Copied(script[1..], room - |chunk|);
        Copy(chunk + rest.chunks, rest.ending)
  }

  function Join(chunks: seq<seq<Byte>>): seq<Byte> {
    if chunks == [] then [] else chunks[0] + Join(chunks[1..])
  }

  /** The bytes of the reads up to and including the first one that failed. */
  function Returned(script: seq<ReadResult>): seq<Byte> {
    if script == [] then []
    else if script[0].failed then script[0].data
    else script[0].data + Returned(script[1..])
  }

  /** When the loop ends because the reader failed, every byte it had returned has been queued, in order. */
  lemma {:induction false} NothingLostOnReadError(script: seq<ReadResult>, room: nat)
    ensures var o := Copied(script, room);
            && Join(o.chunks) <= Returned(script)
            && (o.ending == ReadFailed ==> Join(o.chunks) == Returned(script))
    decreases |script|
  {
    if script == [] || (script[0].data != [] && room == 0) {
    } else {
      var chunk := if script[0].data != [] then [script[0].data] else [];
      JoinOne(script[0].data);
      if !script[0].failed {
        var rest := Copied(script[1..], room - |chunk|);
        NothingLostOnReadError(script[1..], room - |chunk|);
        JoinMore(script[0].data, rest.chunks);
        hide Join;
      }
    }
  }

  predicate Fails(script: seq<ReadResult>) {
    exists i :: 0 <= i < |script| && script[i].failed
  }

  /** How many session writes the reads call for, up to and including the first one that failed. */
  function Writes(script: seq<ReadResult>): nat {
    if script == [] then 0
    else
      (if script[0].data != [] then 1 else 0) + if script[0].failed then 0 else Writes(script[1..])
  }

  /** How the loop ends, and how many payloads it has queued by then. */
  lemma {:induction false} EndingMeans(script: seq<ReadResult>, room: nat)
    ensures var o := Copied(script, room);
            && o.ending == (if Writes(script) > room then WriteFailed
                            else if Fails(script) then ReadFailed else Cancelled)
            && |o.chunks| == if Writes(script) > room then room else Writes(script)
    decreases |script|
  {
    if script == [] {
    } else if script[0].failed || (script[0].data != [] && room == 0) {
      assert script[0].failed ==> Fails(script);
    } else {
      var used := if script[0].data != [] then 1 else 0;
      EndingMeans(script[1..], room - used);
      FailsLater(script);
    }
  }

  lemma FailsLater(script: seq<ReadResult>)
    requires script != [] && !script[0].failed
    ensures Fails(script) <==> Fails(script[1..])
  {
    if Fails(script) {
      var i :| 0 <= i < |script| && script[i].failed;
      assert script[1..][i - 1].failed;
    }
    if Fails(script[1..]) {
      var i :| 0 <= i < |script[1..]| && script[1..][i].failed;
      assert script[i + 1].failed;
    }
  }

  lemma JoinOne(data: seq<Byte>)
    ensures Join(if data != [] then [data] else []) == data
  {
    assert Join([data]) == data + Join([]);
  }

  lemma JoinMore(data: seq<Byte>, chunks: seq<seq<Byte>>)
    ensures Join((if data != [] then [data] else []) + chunks) == data + Join(chunks)
  {
    if data == [] {
      assert [] + chunks == chunks;
    } else {
      assert ([data] + chunks)[1..] == chunks;
    }
  }

  /** io.Reader's Read: the buffer is filled in place from its start. */
  method Read(buffer: array<Byte>, r: ReadResult) returns (n: nat)
    requires |r.data| <= buffer.Length
    modifies buffer
    ensures n == |r.data| && buffer[..n] == r.data
  {
    n := 0;
    while n < |r.data|
      invariant n <= |r.data| && buffer[..n] == r.data[..n]
    {
      buffer[n] := r.data[n];
      n := n + 1;
    }
  }

  /** The payloads still hold the chunks they were queued with. */
  ghost predicate Hold(queued: seq<Slice>, chunks: seq<seq<Byte>>)
    reads set i | 0 <= i < |queued| :: queued[i].buffer
  {
    && |queued| == |chunks|
    && forall i :: 0 <= i < |queued| ==>
         queued[i].n <= queued[i].buffer.Length && queued[i].buffer[..queued[i].n] == chunks[i]
  }

  lemma HoldNothing()
    ensures Hold([], [])
  {
  }

  lemma HoldOneMore(queued: seq<Slice>, chunks: seq<seq<Byte>>, last: Slice, data: seq<Byte>)
    requires Hold(queued, chunks) && last.n <= last.buffer.Length && last.buffer[..last.n] == data
    ensures Hold(queued + [last], chunks + [data])
  {
  }

  /** The loop has `script[i..]` and `left` successful writes before it, and has queued `chunks`. */
  predicate SoFar(whole: Copy, script: seq<ReadResult>, i: nat, left: nat, chunks: seq<seq<Byte>>) {
    && i <= |script|
    && var rest := Copied(script[i..], left);
       whole == Copy(chunks + rest.chunks, rest.ending)
  }

  lemma SoFarBegins(script: seq<ReadResult>, room: nat)
    ensures SoFar(Copied(script, room), script, 0, room, [])
  {
    assert script[0..] == script;
  }

  lemma SoFarStep(whole: Copy, script: seq<ReadResult>, i: nat, left: nat, chunks: seq<seq<Byte>>)
    requires SoFar(whole, script, i, left, chunks) && i < |script|
    ensures var r := script[i];
            if r.data != [] && left == 0 then whole == Copy(chunks, WriteFailed)
            else
              var now := if r.data != [] then chunks + [r.data] else chunks;
              if r.failed then whole == Copy(now, ReadFailed)
              else SoFar(whole, script, i + 1, left - if r.data != [] then 1 else 0, now)
  {
    assert script[i..][0] == script[i] && script[i..][1..] == script[i + 1..];
  }

  lemma SoFarEnds(whole: Copy, script: seq<ReadResult>, left: nat, chunks: seq<seq<Byte>>)
    requires SoFar(whole, script, |script|, left, chunks)
    ensures whole == Copy(chunks, Cancelled)
  {
  }

  /** One round's buffer is allocated and read into, which no payload already queued notices. */
  method ReadIntoFresh(r: ReadResult, queued: seq<Slice>, ghost chunks: seq<seq<Byte>>) returns (s: Slice)
    requires |r.data| <= BUFFER_SIZE && Hold(queued, chunks)
    ensures fresh(s.buffer) && s.n == |r.data| <= s.buffer.Length == BUFFER_SIZE && s.buffer[..s.n] == r.data
    ensures Hold(queued, chunks) && Hold(queued + [s], chunks + [r.data])
  {
    var buffer := new Byte[BUFFER_SIZE](_ => 0);
    var n := Read(buffer, r);
    s := Slice(buffer, n);
    HoldOneMore(queued, chunks, s, r.data);
  }

  /**
   * CopyReaderToSessionWriter over a reader that makes the given returns, until it fails, a session
   * write fails after `room` successes, or the context ends. When the context ends, the helper may still
   * be in a Read, whose return is then `late`. Each round reads into a buffer of its own, so what is in
   * the queue at the end is what was read, whatever was read later.
   */
  method CopyReaderToSessionWriter(script: seq<ReadResult>, room: nat, late: Option<ReadResult>)
    returns (queued: seq<Slice>, ending: Ending)
    requires forall r :: r in script ==> |r.data| <= BUFFER_SIZE
    requires late.Some? ==> |late.value.data| <= BUFFER_SIZE
    ensures Hold(queued, Copied(script, room).chunks)
    ensures ending == Copied(script, room).ending
  {
    hide Copied, Hold, SoFar;
    HoldNothing();
    SoFarBegins(script, room);
    queued := [];
    ghost var whole, chunks := Copied(script, room), [];
    var i := 0;
    while i < |script|
      invariant i <= |script| && |queued| <= room
      invariant Hold(queued, chunks) && SoFar(whole, script, i, room - |queued|, chunks)
    {
      SoFarStep(whole, script, i, room - |queued|, chunks);
      var s := ReadIntoFresh(script[i], queued, chunks);
      if s.n > 0 {
        if |queued| == room {
          return queued, WriteFailed;
        }
        queued := queued + [s];
        chunks := chunks + [script[i].data];
      }
      if script[i].failed {
        return queued, ReadFailed;
      }
      i := i + 1;
    }
    SoFarEnds(whole, script, room - |queued|, chunks);
    if late.Some? {
      var unused := ReadIntoFresh(late.value, queued, chunks);
    }
    return queued, Cancelled;
  }

  // ---- Messages into a writer ------------------------------------------------------------

  /** The bytes a sequence of bodies carries for the local writer: the other payload types are skipped. */
  function Bytes(bodies: seq<Body>): seq<Byte> {
    if bodies == [] then []
    else
      var last := bodies[|bodies| - 1];
      Bytes(bodies[..|bodies| - 1]) + (if last.payloadType == PAYLOAD_OUTPUT then last.payload else [])
  }

  /** How many of the bodies are for the local writer. */
  function Outputs(bodies: seq<Body>): nat {
    if bodies == [] then 0
    else Outputs(bodies[..|bodies| - 1]) + (if bodies[|bodies| - 1].payloadType == PAYLOAD_OUTPUT then 1 else 0)
  }

  lemma BytesOneMore(bodies: seq<Body>, b: Body)
    ensures Bytes(bodies + [b]) == Bytes(bodies) + (if b.payloadType == PAYLOAD_OUTPUT then b.payload else [])
    ensures Outputs(bodies + [b]) == Outputs(bodies) + (if b.payloadType == PAYLOAD_OUTPUT then 1 else 0)
  {
    assert (bodies + [b])[..|bodies|] == bodies;
  }

  /**
   * CopySessionReaderToWriter over a session that returns the given bodies and then an error, into a
   * writer whose write number `room`, counted from 0, fails. The bytes offered, those of the failing
   * write included, are those of the bodies taken.
   */
  method CopySessionReaderToWriter(script: seq<Body>, room: nat)
    returns (offered: seq<Byte>, taken: nat, ending: Ending)
    ensures taken <= |script| && offered == Bytes(script[..taken])
    ensures ending == (if Outputs(script[..taken]) > room then WriteFailed else ReadFailed)
    ensures ending == ReadFailed ==> taken == |script|
    ensures ending == WriteFailed ==> taken > 0 && Outputs(script[..taken - 1]) == room
  {
    offered, taken := [], 0;
    var writes := 0;
    while taken < |script|
      invariant taken <= |script| && offered == Bytes(script[..taken])
      invariant writes == Outputs(script[..taken]) <= room
    {
      var body := script[taken];
      BytesOneMore(script[..taken], body);
      assert script[..taken + 1] == script[..taken] + [body];
      taken := taken + 1;
      if body.payloadType != PAYLOAD_OUTPUT {
        continue;
      }
      offered := offered + body.payload;
      if writes == room {
        return offered, taken, WriteFailed;
      }
      writes := writes + 1;
    }
    return offered, taken, ReadFailed;
  }
}
