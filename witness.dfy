/**
 * A concrete codec that satisfies `Json.RoundTrips`, so the lemmas that take
 * that predicate as a hypothesis are about something. It is not JSON text: a
 * string is written as three bytes per character followed by 0xFF, and an
 * object of two string members as its four strings in order.
 */
module JsonWitness {
  import opened Common
  import opened Json

  const Terminator: byte := 0xFF

  /** Each character as three big-endian bytes (the first at most 0x10), then the terminator. */
  function EncodeString(s: string): (b: seq<byte>)
    ensures |b| == 3 * |s| + 1
  {
    if s == [] then [Terminator]
    else
      var n := s[0] as int;
      [(n / 0x1_0000) as byte, (n / 0x100 % 0x100) as byte, (n % 0x100) as byte] + EncodeString(s[1..])
  }

  /** Reads one string off the front of `b`, giving it and the bytes after its terminator. */
  function DecodeString(b: seq<byte>): Option<(string, seq<byte>)>
    decreases |b|
  {
    if b == [] then None
    else if b[0] == Terminator then Some(([], b[1..]))
    else if |b| < 3 then None
    else
      var n := b[0] as int * 0x1_0000 + b[1] as int * 0x100 + b[2] as int;
      if 0xD800 <= n < 0xE000 || 0x11_0000 <= n then None
      else match DecodeString(b[3..])
        case None => None
        case Some((s, rest)) => Some(([n as char] + s, rest))
  }

  /** The three bytes written for a character give its code point back. */
  lemma CharBytes(n: int)
    requires 0 <= n < 0x11_0000
    ensures n / 0x1_0000 <= 0x10
    ensures n == (n / 0x1_0000) * 0x1_0000 + (n / 0x100 % 0x100) * 0x100 + n % 0x100
  {
    var q := n / 0x100;
    assert n == q * 0x100 + n % 0x100;
    assert q == (q / 0x100) * 0x100 + q % 0x100;
    assert q / 0x100 == n / 0x1_0000;
  }

  /** A string reads back from its encoding, whatever follows it. */
  lemma {:induction false} DecodeEncodeString(s: string, rest: seq<byte>)
    ensures DecodeString(EncodeString(s) + rest) == Some((s, rest))
    decreases |s|
  {
    var b := EncodeString(s) + rest;
    if s == [] {
      assert b[1..] == rest;
    } else {
      var n := s[0] as int;
      CharBytes(n);
      var head := [(n / 0x1_0000) as byte, (n / 0x100 % 0x100) as byte, (n % 0x100) as byte];
      assert b == head + (EncodeString(s[1..]) + rest);
      assert b[0] != Terminator && |b| >= 3;
      assert b[0] as int * 0x1_0000 + b[1] as int * 0x100 + b[2] as int == n;
      assert b[3..] == EncodeString(s[1..]) + rest;
      DecodeEncodeString(s[1..], rest);
      assert [n as char] + s[1..] == s;
    }
  }

  function Encode(d: Document): seq<byte>
  {
    if d.Object? && |d.members| == 2 && d.members[0].1.JString? && d.members[1].1.JString? then
      EncodeString(d.members[0].0) + (EncodeString(d.members[0].1.s)
      + (EncodeString(d.members[1].0) + EncodeString(d.members[1].1.s)))
    else []
  }

  /** An object of two strings costs three bytes per character plus four terminators. */
  lemma EncodeLength(keys: (string, string), vals: (string, string))
    ensures |Encode(StringObject(keys, vals))| == 3 * (|keys.0| + |vals.0| + |keys.1| + |vals.1|) + 4
  {
  }

  function Decode(b: seq<byte>): Result<Document, string>
  {
    match DecodeString(b)
    case None => Err("invalid")
    case Some((k0, b1)) =>
      match DecodeString(b1)
      case None => Err("invalid")
      case Some((v0, b2)) =>
        match DecodeString(b2)
        case None => Err("invalid")
        case Some((k1, b3)) =>
          match DecodeString(b3)
          case None => Err("invalid")
          case Some((v1, b4)) =>
            if b4 == [] then Ok(StringObject((k0, k1), (v0, v1))) else Err("invalid")
  }

  function Witness(): Codec
  {
    Codec(Encode, Decode)
  }

  /** The witness codec gives back every object of two string members it encoded. */
  lemma WitnessRoundTrips()
    ensures RoundTrips(Witness())
  {
    forall keys: (string, string), vals: (string, string)
      ensures Decode(Encode(StringObject(keys, vals))) == Ok(StringObject(keys, vals))
    {
      ObjectRoundTrips(keys, vals);
    }
  }

  /** One object: its four strings are read back in turn and nothing is left over. */
  lemma ObjectRoundTrips(keys: (string, string), vals: (string, string))
    ensures Decode(Encode(StringObject(keys, vals))) == Ok(StringObject(keys, vals))
  {
    var e3 := EncodeString(vals.1);
    var b2 := EncodeString(keys.1) + e3;
    var b1 := EncodeString(vals.0) + b2;
    var b0 := EncodeString(keys.0) + b1;
    assert Encode(StringObject(keys, vals)) == b0;
    DecodeEncodeString(keys.0, b1);
    DecodeEncodeString(vals.0, b2);
    DecodeEncodeString(keys.1, e3);
    assert e3 == e3 + [];
    DecodeEncodeString(vals.1, []);
    assert DecodeString(e3) == Some((vals.1, []));
  }
}
