/** `RetryRead::retry_read`: fill a buffer in place from a reader that may give short reads, be
    interrupted, fail, or report end of file. */
module RetryRead {
  import opened Prelude

  datatype Error = ReadFailed

  /** What the next `read` call does. */
  datatype Event =
    | Short(limit: nat)   // deliver at most `limit` bytes, but at least one if any are left
    | Interrupt
    | Fatal
    | Eof                 // report end of file, even with bytes left

  datatype ReadOutcome = Got(n: nat) | Interrupted | Failed

  /** A reader is a stream of bytes and a finite script; after the script every read is as long as
      possible. */
  class Reader {
    var stream: seq<Byte>
    var script: seq<Event>
    ghost var eofs: nat   // how often end of file was reported

    constructor (stream: seq<Byte>, script: seq<Event>)
      ensures this.stream == stream && this.script == script && eofs == 0
    {
      this.stream := stream;
      this.script := script;
      eofs := 0;
    }

    /** One `Read::read` into `buf[from..]`. */
    method Read(buf: array<Byte>, from: nat) returns (r: ReadOutcome)
      requires from < buf.Length
      modifies this, buf
      ensures buf[..from] == old(buf[..from])
      ensures script == if old(script) == [] then [] else old(script)[1..]
      ensures r.Got? ==>
        && r.n <= buf.Length - from && r.n <= |old(stream)|
        && buf[from..from + r.n] == old(stream)[..r.n]
        && buf[from + r.n..] == old(buf[from + r.n..])
        && stream == old(stream)[r.n..]
        && eofs == old(eofs) + (if r.n == 0 then 1 else 0)
        && (r.n == 0 <==> old(stream) == [] || (old(script) != [] && old(script)[0].Eof?))
      ensures !r.Got? ==> stream == old(stream) && buf[..] == old(buf[..]) && eofs == old(eofs)
      ensures !r.Got? ==> old(script) != []
      ensures r.Failed? <==> old(script) != [] && old(script)[0].Fatal?
    {
      var event := Short(buf.Length);
      if script != [] {
        event, script := script[0], script[1..];
      }
      match event
      case Interrupt => r := Interrupted;
      case Fatal => r := Failed;
      case Eof =>
        r := Got(0);
        eofs := eofs + 1;
      case Short(limit) =>
        var n := Min(if limit == 0 then 1 else limit, Min(buf.Length - from, |stream|));
        forall i | 0 <= i < n { buf[from + i] := stream[i]; }
        r := Got(n);
        if n == 0 { eofs := eofs + 1; }
        stream := stream[n..];
    }
  }

  /** The script never reports end of file while bytes are left. */
  predicate NoEarlyEof(script: seq<Event>) {
    forall i :: 0 <= i < |script| ==> !script[i].Eof?
  }

  lemma {:induction false} Extend(b: seq<Byte>, s: seq<Byte>, c: nat, n: nat)
    requires c + n <= |b| && c + n <= |s|
    requires b[..c] == s[..c] && b[c..c + n] == s[c..][..n]
    ensures b[..c + n] == s[..c + n]
  {
    assert b[..c + n] == b[..c] + b[c..c + n];
    assert s[..c + n] == s[..c] + s[c..][..n];
  }

  /** `retry_read`. */
  method RetryRead(reader: Reader, buf: array<Byte>) returns (r: Result<nat, Error>)
    modifies reader, buf
    // The first `count` bytes are the next `count` bytes of the stream; the rest is untouched.
    ensures r.Ok? ==>
      && r.value <= buf.Length && r.value <= |old(reader.stream)|
      && buf[..r.value] == old(reader.stream)[..r.value]
      && buf[r.value..] == old(buf[r.value..])
      && reader.stream == old(reader.stream)[r.value..]
    // Short exactly if this call met end of file, and without early end of file as long as the stream allows.
    ensures r.Ok? ==> reader.eofs == old(reader.eofs) + (if r.value < buf.Length then 1 else 0)
    ensures r.Ok? && old(NoEarlyEof(reader.script)) ==>
      r.value == Min(buf.Length, |old(reader.stream)|)
    // A failure comes from the script, and loses no byte that is not in the buffer.
    ensures r.Err? ==>
      && (exists i :: 0 <= i < |old(reader.script)| && old(reader.script)[i].Fatal?)
      && |reader.stream| <= |old(reader.stream)|
      && var lost := |old(reader.stream)| - |reader.stream|;
         && lost <= buf.Length
         && buf[..lost] == old(reader.stream)[..lost]
         && reader.stream == old(reader.stream)[lost..]
         && buf[lost..] == old(buf[lost..])
  {
    var count := 0;
    ghost var stream0, script0, done := reader.stream, reader.script, 0;
    while count < buf.Length
      invariant 0 <= count <= buf.Length && count <= |stream0|
      invariant buf[..count] == stream0[..count]
      invariant buf[count..] == old(buf[count..])
      invariant reader.stream == stream0[count..] && reader.eofs == old(reader.eofs)
      invariant 0 <= done <= |script0| && reader.script == script0[done..]
      decreases |reader.script|, buf.Length - count
    {
      var got := reader.Read(buf, count);
      ghost var next := if done < |script0| then done + 1 else done;
      assert reader.script == script0[next..];
      match got
      case Interrupted => done := next;
      case Failed =>
        assert script0[done].Fatal?;
        return Err(ReadFailed);
      case Got(n) =>
        assert done < |script0| ==> script0[done..][0] == script0[done];
        if n == 0 { break; }
        ghost var all := buf[..];
        assert all[..count] == buf[..count] && all[count..count + n] == buf[count..count + n];
        Extend(all, stream0, count, n);
        assert buf[..count + n] == all[..count + n];
        count := count + n;
        done := next;
    }
    r := Ok(count);
  }
}
