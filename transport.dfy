/**
 * The connection as the codec sees it: an inbound byte stream read with the
 * semantics of io.ReadFull, and outbound writes whose outcomes are given in
 * advance, since they depend on the network.
 */
module Transport {
  import opened Common
  import opened ScarError

  /** How the inbound stream ends once its pending bytes are used up. */
  datatype Tail = Closed | Broken(reason: string)

  /** The bytes the peer has sent and not yet been read, then the way the stream ends. */
  datatype Stream = Stream(pending: seq<byte>, tail: Tail)

  /**
   * io.ReadFull into a buffer of `n` bytes: the buffer, or the error, and the
   * stream that is left. A zero-length read succeeds without touching the
   * stream. A short read has consumed every pending byte; it reports EOF on a
   * closed stream when no byte came, unexpected EOF when some did, and the
   * stream's own failure on a broken one.
   */
  function ReadFullFrom(s: Stream, n: nat): (r: (Result<seq<byte>, Cause>, Stream))
    ensures r.0.Ok? <==> n <= |s.pending|
    ensures r.0.Ok? ==> |r.0.value| == n && s.pending == r.0.value + r.1.pending && r.1.tail == s.tail
    ensures r.0.Err? ==> r.1 == Stream([], s.tail)
    ensures r.0 == Err(Eof) <==> (n > 0 && s.pending == [] && s.tail == Closed)
    ensures r.0 == Err(UnexpectedEof) <==> (0 < |s.pending| < n && s.tail == Closed)
    ensures r.0.Err? && s.tail.Broken? ==> r.0.error == NetError(s.tail.reason)
  {
    if n <= |s.pending| then (Ok(s.pending[..n]), Stream(s.pending[n..], s.tail))
    else
      var err := match s.tail
        case Closed => if s.pending == [] then Eof else UnexpectedEof
        case Broken(reason) => NetError(reason);
      (Err(err), Stream([], s.tail))
  }

  /** What a single Write call does: accepts the whole buffer, or fails after writing some of it. */
  datatype WriteOutcome = Accept | Fail(written: nat, cause: Cause)

  function NextOutcome(script: seq<WriteOutcome>): WriteOutcome
  {
    if script == [] then Accept else script[0]
  }

  function RestOfScript(script: seq<WriteOutcome>): seq<WriteOutcome>
  {
    if script == [] then [] else script[1..]
  }

  /** The prefix of `b` that reaches the peer under outcome `o`. */
  function Written(b: seq<byte>, o: WriteOutcome): (w: seq<byte>)
    ensures w <= b
    ensures o.Accept? ==> w == b
  {
    match o
    case Accept => b
    case Fail(k, _) => if k < |b| then b[..k] else b
  }

  /**
   * One connection: what is left to read, what has been written, the outcomes
   * of the coming Write calls (once they run out, every write is accepted),
   * and whether it is still open.
   */
  class Conn {
    var inbound: Stream
    var sent: seq<byte>
    var script: seq<WriteOutcome>
    var open: bool

    constructor (inbound: Stream, script: seq<WriteOutcome>)
      ensures this.inbound == inbound && this.script == script && sent == [] && open
    {
      this.inbound := inbound;
      this.script := script;
      sent := [];
      open := true;
    }

    /** io.ReadFull(conn, buffer) with len(buffer) == n. */
    method ReadFull(n: nat) returns (buffer: seq<byte>, err: Option<Cause>)
      modifies this`inbound
      ensures var (r, rest) := ReadFullFrom(old(inbound), n);
        inbound == rest && (if r.Ok? then err.None? && buffer == r.value else err == Some(r.error))
    {
      var (r, rest) := ReadFullFrom(inbound, n);
      inbound := rest;
      if r.Ok? {
        buffer, err := r.value, None;
      } else {
        buffer, err := [], Some(r.error);
      }
    }

    /** conn.Write(b): the next scripted outcome decides how much of `b` is sent and whether it fails. */
    method Write(b: seq<byte>) returns (err: Option<Cause>)
      modifies this`sent, this`script
      ensures sent == old(sent) + Written(b, NextOutcome(old(script)))
      ensures script == RestOfScript(old(script))
      ensures err.None? <==> NextOutcome(old(script)).Accept?
      ensures err.Some? ==> err.value == NextOutcome(old(script)).cause
    {
      var o := NextOutcome(script);
      sent := sent + Written(b, o);
      script := RestOfScript(script);
      err := if o.Accept? then None else Some(o.cause);
    }

    /** conn.Close(). */
    method Close()
      modifies this`open
      ensures !open
    {
      open := false;
    }
  }
}
