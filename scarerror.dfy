/**
 * The error package: an `Error` object with a message, a loggable flag, a
 * wrapped cause and attached data, and the four package-level sentinels that
 * every failure of the protocol is reported through.
 */
module ScarError {
  import opened Common

  /** The Go `error` values, other than the package's own, that the codec and the server receive and wrap. */
  datatype Cause =
    | Eof                        // io.EOF: the stream ended before the first byte of a read
    | UnexpectedEof              // io.ErrUnexpectedEOF: the stream ended part-way through a read
    | NetError(reason: string)   // any other failure the connection reports
    | JsonError(reason: string)  // a failure reported by encoding/json
    | UnknownAction(id: uint32)  // the error ReadExchange builds for an id it does not know

  /** Decimal digits of `n`, as fmt's %d prints an unsigned integer. */
  function Decimal(n: nat): (s: string)
    ensures |s| > 0
    ensures forall i :: 0 <= i < |s| ==> '0' <= s[i] <= '9'
    decreases n
  {
    var digit := ['0' + (n % 10) as char];
    if n < 10 then digit else Decimal(n / 10) + digit
  }

  /** The text `Error()` gives for each cause. */
  function CauseText(c: Cause): string
  {
    match c
    case Eof => "EOF"
    case UnexpectedEof => "unexpected EOF"
    case NetError(reason) => reason
    case JsonError(reason) => reason
    case UnknownAction(id) => "unknwon action error: " + Decimal(id as nat)
  }

  /** Whatever a caller hands to SetData: only its identity matters here. */
  datatype Datum = Datum(tag: nat)

  class Error {
    var err: Option<Cause>
    var message: string
    var data: Option<Datum>
    var loggable: bool

    /** New: an error with no cause and no data. */
    constructor New(msg: string, loggable: bool)
      ensures message == msg && this.loggable == loggable
      ensures err == None && data == None
    {
      message := msg;
      this.loggable := loggable;
      err := None;
      data := None;
    }

    /** Sets the cause (Go allows a nil one) and hands back the receiver itself. */
    method Wrap(cause: Option<Cause>) returns (r: Error)
      modifies this`err
      ensures r == this
      ensures Unwrap() == cause
      ensures message == old(message) && loggable == old(loggable) && data == old(data)
    {
      err := cause;
      r := this;
    }

    function Unwrap(): Option<Cause>
      reads this
    {
      err
    }

    /** Attaches data and hands back the receiver itself; nothing else changes. */
    method SetData(d: Option<Datum>) returns (r: Error)
      modifies this`data
      ensures r == this && data == d
      ensures err == old(err) && message == old(message) && loggable == old(loggable)
    {
      data := d;
      r := this;
    }

    /**
     * Error(): the message alone when there is no cause, otherwise the
     * cause's text, a comma and the message. Either way the message ends it.
     */
    function ErrorString(): (s: string)
      reads this
      ensures err.None? <==> s == message
      ensures |message| <= |s| && s[|s| - |message|..] == message
      ensures err.Some? ==> s[..|s| - |message|] == CauseText(err.value) + ", "
    {
      match err
      case None => message
      case Some(c) => CauseText(c) + ", " + message
    }
  }

  /** Which sentinel a failure is reported through, and what it wraps. */
  datatype Failure =
    | UserDisconnected
    | IoError(cause: Cause)
    | SerializationError(cause: Cause)
    | UnknownExchange(cause: Cause)

  const UserDisconnectedMessage: string := "user disconnected"
  const IoErrorMessage: string := "io error"

  /** The text the reporting sentinel prints once it has been raised for `f`. */
  function FailureText(f: Failure): string
  {
    if f.UserDisconnected? then UserDisconnectedMessage
    else CauseText(f.cause) + ", " + IoErrorMessage
  }

  /** The package-level sentinels ErrUserDisconnected, ErrIo, ErrSerialization and ErrUnknown. */
  class Sentinels {
    const userDisconnected: Error
    const io: Error
    const serialization: Error
    const unknown: Error

    /**
     * Four distinct objects; only the first is not loggable, the other three
     * share one message; ErrUserDisconnected is never wrapped.
     */
    ghost predicate Valid()
      reads userDisconnected, io, serialization, unknown
    {
      && userDisconnected != io && userDisconnected != serialization && userDisconnected != unknown
      && io != serialization && io != unknown && serialization != unknown
      && userDisconnected.message == UserDisconnectedMessage && !userDisconnected.loggable
      && userDisconnected.err.None?
      && io.message == IoErrorMessage && io.loggable
      && serialization.message == IoErrorMessage && serialization.loggable
      && unknown.message == IoErrorMessage && unknown.loggable
    }

    constructor ()
      ensures Valid()
      ensures fresh(userDisconnected) && fresh(io) && fresh(serialization) && fresh(unknown)
      ensures io.err.None? && serialization.err.None? && unknown.err.None?
      ensures userDisconnected.data.None? && io.data.None? && serialization.data.None? && unknown.data.None?
    {
      userDisconnected := new Error.New(UserDisconnectedMessage, false);
      io := new Error.New(IoErrorMessage, true);
      serialization := new Error.New(IoErrorMessage, true);
      unknown := new Error.New(IoErrorMessage, true);
    }

    /** The sentinel that reports `f`. */
    function For(f: Failure): Error
    {
      match f
      case UserDisconnected => userDisconnected
      case IoError(_) => io
      case SerializationError(_) => serialization
      case UnknownExchange(_) => unknown
    }

    /**
     * The sentinels' causes once `f` has been reported, given what they were
     * before: a disconnect leaves all three as they were; any other failure
     * leaves its own sentinel wrapping the failure's cause and the other two
     * as they were.
     */
    ghost predicate ReportedOnly(f: Failure, io0: Option<Cause>, ser0: Option<Cause>, unk0: Option<Cause>)
      reads io, serialization, unknown
    {
      if f.UserDisconnected? then io.err == io0 && serialization.err == ser0 && unknown.err == unk0
      else
        && For(f).err == Some(f.cause)
        && (io != For(f) ==> io.err == io0)
        && (serialization != For(f) ==> serialization.err == ser0)
        && (unknown != For(f) ==> unknown.err == unk0)
    }

    /** Only ErrUserDisconnected reports a disconnect, and only ErrUserDisconnected is not loggable. */
    lemma ForDisconnect(f: Failure)
      requires Valid()
      ensures For(f) == userDisconnected <==> f.UserDisconnected?
      ensures For(f).loggable <==> !f.UserDisconnected?
    {
    }

    /**
     * Reports `f` the way the codec does: ErrUserDisconnected as it is, any
     * other sentinel after Wrap with the cause. Only that sentinel changes.
     */
    method Raise(f: Failure) returns (e: Error)
      requires Valid()
      modifies For(f)`err
      ensures Valid()
      ensures e == For(f)
      ensures !f.UserDisconnected? ==> e.err == Some(f.cause)
      ensures e.data == old(e.data)
      ensures e.ErrorString() == FailureText(f)
    {
      e := For(f);
      if !f.UserDisconnected? {
        e := e.Wrap(Some(f.cause));
      }
    }
  }
}
