/**
 * The framing codec. A frame is a big-endian uint32 exchange id, a big-endian
 * uint32 payload length and that many payload bytes, the JSON encoding of the
 * exchange's fields. Every read failure is reported through one of the four
 * sentinels of the error package.
 */
module Scarnet {
  import opened Common
  import opened ScarError
  import opened Exchange
  import opened Transport
  import Json

  /* ---------------------------------------------------------------------- */
  /* Big-endian uint32                                                       */
  /* ---------------------------------------------------------------------- */

  /** binary.BigEndian.PutUint32: the most significant byte first. */
  function Be32(x: uint32): (b: seq<byte>)
    ensures |b| == 4
  {
    // x >> 8, x >> 16 and x >> 24, each step a division by 256; byte() keeps the low 8 bits
    var n := x as int;
    var q1 := n / 0x100;
    var q2 := q1 / 0x100;
    var q3 := q2 / 0x100;
    [(q3 % 0x100) as byte, (q2 % 0x100) as byte, (q1 % 0x100) as byte, (n % 0x100) as byte]
  }

  /** binary.BigEndian.Uint32. */
  function Uint32Be(b: seq<byte>): uint32
    requires |b| == 4
  {
    (b[0] as int * 0x100_0000 + b[1] as int * 0x1_0000 + b[2] as int * 0x100 + b[3] as int) as uint32
  }

  /** Decoding an encoded uint32 gives it back. */
  lemma Be32RoundTrip(x: uint32)
    ensures Uint32Be(Be32(x)) == x
  {
    var n := x as int;
    var q1 := n / 0x100;
    var q2 := q1 / 0x100;
    var q3 := q2 / 0x100;
    assert n == q1 * 0x100 + n % 0x100;
    assert q1 == q2 * 0x100 + q1 % 0x100;
    assert q2 == q3 * 0x100 + q2 % 0x100;
    assert q3 < 0x100;
  }

  /** Encoding a decoded 4-byte word gives it back: the two are inverse bijections. */
  lemma Uint32BeRoundTrip(b: seq<byte>)
    requires |b| == 4
    ensures Be32(Uint32Be(b)) == b
  {
    var n := Uint32Be(b) as int;
    var q2 := b[0] as int * 0x100 + b[1] as int;
    var q1 := q2 * 0x100 + b[2] as int;
    assert n == q1 * 0x100 + b[3] as int;
    assert n / 0x100 == q1 && n % 0x100 == b[3] as int;
    assert q1 / 0x100 == q2 && q1 % 0x100 == b[2] as int;
    assert q2 / 0x100 == b[0] as int && q2 % 0x100 == b[1] as int;
  }

  /* ---------------------------------------------------------------------- */
  /* Reading                                                                 */
  /* ---------------------------------------------------------------------- */

  /** checkIoError's choice: end of stream means the user disconnected, anything else is an I/O error. */
  function Classify(c: Cause): (f: Failure)
    ensures f.UserDisconnected? <==> c == Eof
    ensures !f.UserDisconnected? ==> f == IoError(c)
  {
    if c == Eof then UserDisconnected else IoError(c)
  }

  /** checkIoError: ErrUserDisconnected for io.EOF, otherwise ErrIo wrapping the cause. */
  method CheckIoError(errs: Sentinels, c: Cause) returns (e: Error)
    requires errs.Valid()
    modifies errs.io`err
    ensures errs.Valid()
    ensures e == errs.For(Classify(c))
    ensures c == Eof ==> e == errs.userDisconnected && errs.io.err == old(errs.io.err)
    ensures c != Eof ==> e == errs.io && e.Unwrap() == Some(c)
    ensures e.ErrorString() == FailureText(Classify(c))
  {
    if c == Eof {
      return errs.userDisconnected;
    }
    e := errs.Raise(IoError(c));
  }

  /**
   * The switch that ends ReadExchange: the payload is unmarshalled into the
   * struct of the variant the id names; an id outside the three known ones
   * is rejected whatever the payload.
   */
  function DecodePayload(id: uint32, payload: seq<byte>, c: Json.Codec): (r: Result<Exchange, Failure>)
    ensures r.Ok? ==> Id(r.value) == id
    ensures r == Err(UnknownExchange(UnknownAction(id))) <==> id > MessageRequestId
    ensures r.Err? && id <= MessageRequestId ==> r.error.SerializationError? && r.error.cause.JsonError?
    ensures id <= MessageRequestId ==> (r.Ok? <==> Json.Unmarshal(c, payload, Tags(id)).Ok?)
    ensures id <= MessageRequestId && r.Ok? ==> Fields(r.value) == Json.Unmarshal(c, payload, Tags(id)).value
    ensures id <= MessageRequestId && r.Err? ==> r.error == SerializationError(JsonError(Json.Unmarshal(c, payload, Tags(id)).error))
  {
    if id > MessageRequestId then Err(UnknownExchange(UnknownAction(id)))
    else match Json.Unmarshal(c, payload, Tags(id))
      case Err(e) => Err(SerializationError(JsonError(e)))
      case Ok(fields) => Ok(Build(id, fields))
  }

  /**
   * ReadExchange as a function of the inbound stream: the id, the length and
   * the payload are read in turn, each read failure classified as it occurs,
   * and then the payload is decoded. Also gives what is left to read.
   */
  function ReadFrame(s: Stream, c: Json.Codec): (r: (Result<Exchange, Failure>, Stream))
    ensures r.1.tail == s.tail
    ensures r.0.Ok? ==> |r.1.pending| + 8 <= |s.pending|
  {
    var (idRead, s1) := ReadFullFrom(s, 4);
    if idRead.Err? then (Err(Classify(idRead.error)), s1)
    else
      var id := Uint32Be(idRead.value);
      var (lenRead, s2) := ReadFullFrom(s1, 4);
      if lenRead.Err? then (Err(Classify(lenRead.error)), s2)
      else
        var (payloadRead, s3) := ReadFullFrom(s2, Uint32Be(lenRead.value) as nat);
        if payloadRead.Err? then (Err(Classify(payloadRead.error)), s3)
        else (DecodePayload(id, payloadRead.value, c), s3)
  }

  /** The payload length a frame's header declares. */
  function DeclaredLength(p: seq<byte>): nat
    requires |p| >= 8
  {
    Uint32Be(p[4..8]) as nat
  }

  /** The bytes hold a whole frame: the 8-byte header and as many payload bytes as it declares. */
  predicate HoldsFrame(p: seq<byte>)
  {
    |p| >= 8 && DeclaredLength(p) <= |p| - 8
  }

  /**
   * On a whole frame, ReadExchange consumes exactly the header and the
   * declared payload: the id is the first word, the payload the bytes after
   * the second, and the outcome is the payload's decoding under that id.
   */
  lemma ReadFrameComplete(s: Stream, c: Json.Codec)
    requires HoldsFrame(s.pending)
    ensures var n := DeclaredLength(s.pending);
      ReadFrame(s, c) == (DecodePayload(Uint32Be(s.pending[..4]), s.pending[8..8 + n], c), Stream(s.pending[8 + n..], s.tail))
  {
    var p := s.pending;
    var n := DeclaredLength(p);
    var s1 := Stream(p[4..], s.tail);
    assert ReadFullFrom(s, 4) == (Ok(p[..4]), s1);
    assert p[4..][..4] == p[4..8];
    assert p[4..][4..] == p[8..];
    var s2 := Stream(p[8..], s.tail);
    assert ReadFullFrom(s1, 4) == (Ok(p[4..8]), s2);
    assert p[8..][..n] == p[8..8 + n];
    assert p[8..][n..] == p[8 + n..];
    assert ReadFullFrom(s2, n) == (Ok(p[8..8 + n]), Stream(p[8 + n..], s.tail));
  }

  /**
   * On anything less than a whole frame, every pending byte is consumed and
   * the failure is a disconnect exactly when the stream closed cleanly right
   * before one of the three fields; otherwise it is an I/O error carrying
   * io.ErrUnexpectedEOF or the stream's own failure.
   */
  lemma ReadFrameShort(s: Stream, c: Json.Codec)
    requires !HoldsFrame(s.pending)
    ensures ReadFrame(s, c).1 == Stream([], s.tail)
    ensures ReadFrame(s, c).0 ==
      if s.tail == Closed && |s.pending| in {0, 4, 8} then Err(UserDisconnected)
      else Err(IoError(if s.tail == Closed then UnexpectedEof else NetError(s.tail.reason)))
  {
    var p := s.pending;
    if |p| >= 4 {
      assert p[4..][..|p| - 4] == p[4..];
    }
    if |p| >= 8 {
      assert p[4..][..4] == p[4..8];
      assert p[4..][4..] == p[8..];
    }
  }

  /** A disconnect is reported exactly when the stream closed cleanly right before a field. */
  lemma DisconnectOnlyAtFieldBoundary(s: Stream, c: Json.Codec)
    ensures ReadFrame(s, c).0 == Err(UserDisconnected) <==>
      (!HoldsFrame(s.pending) && s.tail == Closed && |s.pending| in {0, 4, 8})
  {
    if HoldsFrame(s.pending) {
      ReadFrameComplete(s, c);
    } else {
      ReadFrameShort(s, c);
    }
  }

  /** An unknown id is reported exactly when a whole frame with an id other than 0, 1 or 2 was read. */
  lemma UnknownIdAfterPayload(s: Stream, c: Json.Codec)
    ensures ReadFrame(s, c).0.Err? && ReadFrame(s, c).0.error.UnknownExchange? <==>
      (HoldsFrame(s.pending) && Uint32Be(s.pending[..4]) > MessageRequestId)
    ensures HoldsFrame(s.pending) && Uint32Be(s.pending[..4]) > MessageRequestId ==>
      ReadFrame(s, c).0 == Err(UnknownExchange(UnknownAction(Uint32Be(s.pending[..4]))))
      && ReadFrame(s, c).1.pending == s.pending[8 + DeclaredLength(s.pending)..]
  {
    if HoldsFrame(s.pending) {
      ReadFrameComplete(s, c);
    } else {
      ReadFrameShort(s, c);
    }
  }

  /**
   * ReadExchange's switch on the id: a known id unmarshals the payload into
   * that variant, reporting a JSON failure through ErrSerialization; any other
   * id is reported through ErrUnknown. The outcome is DecodePayload's.
   */
  method DecodeExchange(errs: Sentinels, id: uint32, payload: seq<byte>, c: Json.Codec) returns (x: Option<Exchange>, err: Option<Error>)
    requires errs.Valid()
    modifies errs.serialization`err, errs.unknown`err
    ensures errs.Valid()
    ensures DecodePayload(id, payload, c).Ok? ==> x == Some(DecodePayload(id, payload, c).value) && err.None?
    ensures DecodePayload(id, payload, c).Err? ==>
      var f := DecodePayload(id, payload, c).error;
      x.None? && err == Some(errs.For(f)) && err.value.ErrorString() == FailureText(f)
    ensures DecodePayload(id, payload, c).Err? ==> err.Some? && err.value.Unwrap() == Some(DecodePayload(id, payload, c).error.cause)
    ensures err.None? || err.value != errs.serialization ==> errs.serialization.err == old(errs.serialization.err)
    ensures err.None? || err.value != errs.unknown ==> errs.unknown.err == old(errs.unknown.err)
  {
    if id == SignupRequestId || id == LoginRequestId || id == MessageRequestId {
      match Json.Unmarshal(c, payload, Tags(id))
      case Err(msg) =>
        var r := errs.Raise(SerializationError(JsonError(msg)));
        return None, Some(r);
      case Ok(fields) =>
        return Some(Build(id, fields)), None;
    } else {
      var r := errs.Raise(UnknownExchange(UnknownAction(id)));
      return None, Some(r);
    }
  }

  /**
   * ReadExchange: three reads from the connection, then the switch on the id.
   * The outcome and the stream left over are those of ReadFrame; a failure is
   * the sentinel that reports it, wrapped with its cause, and no other
   * sentinel changes.
   */
  method ReadExchange(errs: Sentinels, conn: Conn, c: Json.Codec) returns (x: Option<Exchange>, err: Option<Error>)
    requires errs.Valid()
    modifies conn`inbound, errs.io`err, errs.serialization`err, errs.unknown`err
    ensures errs.Valid()
    ensures conn.inbound == ReadFrame(old(conn.inbound), c).1
    ensures ReadFrame(old(conn.inbound), c).0.Ok? ==> x == Some(ReadFrame(old(conn.inbound), c).0.value) && err.None?
    ensures ReadFrame(old(conn.inbound), c).0.Err? ==>
      var f := ReadFrame(old(conn.inbound), c).0.error;
      x.None? && err == Some(errs.For(f)) && err.value.ErrorString() == FailureText(f)
    ensures ReadFrame(old(conn.inbound), c).0.Err? && !ReadFrame(old(conn.inbound), c).0.error.UserDisconnected? ==>
      err.Some? && err.value.Unwrap() == Some(ReadFrame(old(conn.inbound), c).0.error.cause)
    ensures err.None? || err.value != errs.io ==> errs.io.err == old(errs.io.err)
    ensures err.None? || err.value != errs.serialization ==> errs.serialization.err == old(errs.serialization.err)
    ensures err.None? || err.value != errs.unknown ==> errs.unknown.err == old(errs.unknown.err)
  {
    ghost var s0 := conn.inbound;
    // read exchange id
    var buffer, e := conn.ReadFull(4);
    if e.Some? {
      var r := CheckIoError(errs, e.value);
      return None, Some(r);
    }
    var id := Uint32Be(buffer);
    ghost var s1 := conn.inbound;
    assert s1 == ReadFullFrom(s0, 4).1;

    // read data length
    buffer, e := conn.ReadFull(4);
    if e.Some? {
      var r := CheckIoError(errs, e.value);
      return None, Some(r);
    }
    var dataLen := Uint32Be(buffer);
    ghost var s2 := conn.inbound;
    assert s2 == ReadFullFrom(s1, 4).1;

    // read data
    buffer, e := conn.ReadFull(dataLen as nat);
    if e.Some? {
      var r := CheckIoError(errs, e.value);
      return None, Some(r);
    }
    assert ReadFrame(s0, c) == (DecodePayload(id, buffer, c), conn.inbound);

    x, err := DecodeExchange(errs, id, buffer, c);
  }

  /* ---------------------------------------------------------------------- */
  /* Writing                                                                 */
  /* ---------------------------------------------------------------------- */

  /** The bytes WriteExchange puts on the wire: id, payload length (as uint32) and payload. */
  function Frame(x: Exchange, c: Json.Codec): seq<byte>
  {
    var payload := Marshal(x, c);
    Be32(Id(x)) + Be32(ToUint32(|payload|)) + payload
  }

  /** The payload's length fits the uint32 length field without wrapping. */
  predicate Framable(x: Exchange, c: Json.Codec)
  {
    |Marshal(x, c)| < Uint32Modulus
  }

  /**
   * A frame reads back as its id, its payload length taken modulo 2^32 (the
   * uint32 conversion), and its payload.
   */
  lemma FrameLayout(x: Exchange, c: Json.Codec)
    ensures var f := Frame(x, c);
      && |f| == 8 + |Marshal(x, c)|
      && Uint32Be(f[..4]) == Id(x)
      && DeclaredLength(f) == |Marshal(x, c)| % Uint32Modulus
      && f[8..] == Marshal(x, c)
  {
    var f := Frame(x, c);
    var payload := Marshal(x, c);
    assert f[..4] == Be32(Id(x));
    assert f[4..8] == Be32(ToUint32(|payload|));
    Be32RoundTrip(Id(x));
    Be32RoundTrip(ToUint32(|payload|));
  }

  /**
   * Reading back what WriteExchange wrote gives the same exchange and leaves
   * exactly what followed it, provided the JSON codec round-trips and the
   * payload is shorter than 2^32 bytes.
   */
  lemma ReadFrameOfFrame(x: Exchange, rest: seq<byte>, tail: Tail, c: Json.Codec)
    requires Json.RoundTrips(c)
    requires Framable(x, c)
    ensures ReadFrame(Stream(Frame(x, c) + rest, tail), c) == (Ok(x), Stream(rest, tail))
  {
    var f := Frame(x, c);
    var p := f + rest;
    var payload := Marshal(x, c);
    FrameLayout(x, c);
    assert p[..4] == f[..4] && p[4..8] == f[4..8];
    assert HoldsFrame(p);
    ReadFrameComplete(Stream(p, tail), c);
    assert p[8..8 + |payload|] == payload;
    assert p[8 + |payload|..] == rest;
    Json.UnmarshalMarshal(c, Tags(Id(x)), Fields(x));
  }

  /** What the three writes of WriteExchange sent, what remains of the script, and the failure returned. */
  datatype WriteReport = WriteReport(sent: seq<byte>, script: seq<WriteOutcome>, failure: Option<Failure>)

  /**
   * WriteExchange against a script of write outcomes: a failed id or length
   * write is returned (classified as checkIoError does) and nothing more is
   * written; a failed payload write is only logged.
   */
  function WriteFrame(x: Exchange, c: Json.Codec, script: seq<WriteOutcome>): WriteReport
  {
    var payload := Marshal(x, c);
    var idBytes := Be32(Id(x));
    var o1 := NextOutcome(script);
    var script1 := RestOfScript(script);
    if o1.Fail? then WriteReport(Written(idBytes, o1), script1, Some(Classify(o1.cause)))
    else
      var lenBytes := Be32(ToUint32(|payload|));
      var o2 := NextOutcome(script1);
      var script2 := RestOfScript(script1);
      if o2.Fail? then WriteReport(idBytes + Written(lenBytes, o2), script2, Some(Classify(o2.cause)))
      else WriteReport(idBytes + lenBytes + Written(payload, NextOutcome(script2)), RestOfScript(script2), None)
  }

  /**
   * Whatever the outcomes, what is sent is a prefix of the frame. A failure is
   * returned exactly when the id or length write failed, and then nothing of
   * the payload was sent; otherwise the whole header was sent, and with every
   * write accepted the whole frame was.
   */
  lemma WriteFrameSendsPrefix(x: Exchange, c: Json.Codec, script: seq<WriteOutcome>)
    ensures var rep := WriteFrame(x, c, script);
      && rep.sent <= Frame(x, c)
      && (rep.failure.Some? <==>
          (NextOutcome(script).Fail? || NextOutcome(RestOfScript(script)).Fail?))
      && (rep.failure.Some? ==> |rep.sent| <= 8)
      && (rep.failure.None? ==> |rep.sent| >= 8)
      && (rep.failure.None? && NextOutcome(RestOfScript(RestOfScript(script))).Accept? ==> rep.sent == Frame(x, c))
      && (NextOutcome(script).Fail? ==> rep.script == RestOfScript(script) && rep.sent <= Be32(Id(x)))
      && (NextOutcome(script).Accept? && NextOutcome(RestOfScript(script)).Fail? ==>
          rep.script == RestOfScript(RestOfScript(script))
          && Be32(Id(x)) <= rep.sent && rep.sent[4..] <= Be32(ToUint32(|Marshal(x, c)|)))
  {
  }

  /**
   * WriteExchange: id, then length, then payload, each a separate write. An
   * id or length write failure is returned through checkIoError; a payload
   * write failure is only logged and nil is returned.
   */
  method WriteExchange(errs: Sentinels, conn: Conn, x: Exchange, c: Json.Codec) returns (err: Option<Error>)
    requires errs.Valid()
    modifies conn`sent, conn`script, errs.io`err
    ensures errs.Valid()
    ensures conn.sent == old(conn.sent) + WriteFrame(x, c, old(conn.script)).sent
    ensures conn.script == WriteFrame(x, c, old(conn.script)).script
    ensures err.None? <==> WriteFrame(x, c, old(conn.script)).failure.None?
    ensures err.Some? ==>
      var f := WriteFrame(x, c, old(conn.script)).failure.value;
      err.value == errs.For(f) && err.value.ErrorString() == FailureText(f)
      && (!f.UserDisconnected? ==> err.value.Unwrap() == Some(f.cause))
    ensures err.None? || err.value != errs.io ==> errs.io.err == old(errs.io.err)
  {
    ghost var sent0, script0 := conn.sent, conn.script;
    ghost var rep := WriteFrame(x, c, script0);
    var data := Marshal(x, c);

    // write exchange id
    var e := conn.Write(Be32(Id(x)));
    if e.Some? {
      assert rep == WriteReport(Written(Be32(Id(x)), NextOutcome(script0)), conn.script, Some(Classify(e.value)));
      var r := CheckIoError(errs, e.value);
      return Some(r);
    }

    // write data length
    ghost var sent1 := conn.sent;
    e := conn.Write(Be32(ToUint32(|data|)));
    if e.Some? {
      assert rep.failure == Some(Classify(e.value)) && rep.script == conn.script;
      assert conn.sent == sent0 + rep.sent;
      var r := CheckIoError(errs, e.value);
      return Some(r);
    }

    // write data; a failure here is only logged
    e := conn.Write(data);
    assert rep.failure.None? && rep.script == conn.script;
    assert conn.sent == sent0 + rep.sent;
    return None;
  }
}
