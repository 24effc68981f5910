# scarnet in Dafny

scarnet is a small TCP chat protocol written in Go. A client sends
*exchanges* over a connection. Each exchange is framed as:

- a 4-byte big-endian exchange id (0 signup, 1 login, 2 message);
- a 4-byte big-endian payload length;
- the payload, which is the JSON encoding of the exchange's two string fields.

The server, `scarnetd`, keeps an in-memory map from user name to password.
It serves each connection with a loop: read an exchange, dispatch it by
variant, repeat until the first read error, then close the connection.
Failures are reported through four package-level error objects, the
*sentinels* of the `scarerror` package. The codec wraps the underlying cause
into one of them.

This project models:

- the exchange variants and their wire ids;
- the framing in both directions (`ReadExchange`, `WriteExchange`);
- `checkIoError`;
- the error object and its sentinels;
- the server's account store and its per-connection loop.

It proves what these promise, as listed below.

Modules, one per source file, plus shared types and three for the environment:

- `Common`: bytes, `uint32` with explicit wrap-around, `Option` and `Result`.
- `Json`: the part of `encoding/json` that the exchanges rely on.
  - A `Codec` is any pair of total encode and decode functions.
  - The one fact the protocol needs from it, that decoding what was encoded
    gives it back, is the predicate `RoundTrips`. It is taken as a hypothesis
    by the lemmas that need it.
  - Binding a decoded object to a struct of two tagged string fields is
    modelled with exact key matching: unknown keys are skipped, `null`
    leaves a field, a later duplicate key wins, and a non-string value is an
    error. Go's fallback to a case-insensitive key match is not modelled.
- `JsonWitness`: one concrete codec (not JSON text) that satisfies
  `RoundTrips`, so the lemmas assuming it are not vacuous.
- `Transport`: the connection.
  - The inbound side is a `Stream`: the bytes not yet read, then how the
    stream ends (closed, or broken with a reason). `ReadFullFrom` gives it
    the semantics of `io.ReadFull`.
  - Writes follow a script of outcomes given in advance. Each outcome either
    accepts the whole buffer or fails after a prefix.
- `ScarError`: the `Error` class, the `Cause` values it wraps, and the
  `Sentinels` class holding `ErrUserDisconnected`, `ErrIo`,
  `ErrSerialization` and `ErrUnknown`.
- `Exchange`: the variants, `ExchangeId()` and `Marshal()`.
- `Scarnet`: the framing.
  - `ReadFrame` and `WriteFrame` are the specification functions.
  - `ReadExchange` and `WriteExchange` are the methods proved against them.
- `Scarnetd`: the `Server` class and the connection loop `HandleConnection`.
  - `Dispatch`, `Replay` and `Session` are the specification functions of
    the store and of a whole connection.

Two consequences of the code are easy to miss. A clean end of stream
counts as a disconnect at more than the id, and an unknown id consumes more
than the header:

- `ReadExchange` reports `ErrUserDisconnected` whenever the stream ends
  cleanly right before the id, the length, or a non-empty payload
  (`io.ReadFull` returns `io.EOF` for each of them). This is not limited to
  the id. A declared length of 0 reads an empty payload successfully, so
  that frame goes on to JSON decoding instead.
- An unknown id is rejected only after the whole declared payload has been
  read, so the stream stays aligned on frame boundaries.

## Model

| member | source | states |
|---|---|---|
| Exchange.IdsAreDistinct | src/scarnet/exchange.go:23-51 | Each variant's `ExchangeId()` is its constant (signup 0, login 1, message 2), and two exchanges have the same id exactly when they are the same variant |
| Exchange.Build | src/scarnet/scarnet.go:83-108 | The value built for a known id has that id and carries the given field values |
| Exchange.PayloadSchemas | src/scarnet/exchange.go:18-55 | `Marshal()` encodes only the two fields, under their tags: Signup and Login with equal fields give the same bytes, and Message uses the keys "to" and "msg" |
| Json.BindLastWins | src/scarnet/scarnet.go:86-104 | Unmarshalling an object into a two-field struct succeeds exactly when every tagged member is a string or null, and each field then holds the last string given to its key |
| Json.UnmarshalMarshal | src/scarnet/exchange.go:27-29 | With a round-tripping codec, unmarshalling what `Marshal()` produced gives back the same field values |
| ScarError.Error.New | src/scarerror/scarerror.go:50-55 | A new error has the given message and loggable flag, no cause and no data |
| ScarError.Error.Wrap | src/scarerror/scarerror.go:29-36 | `Wrap` returns the receiver itself, `Unwrap()` then gives the new cause, and message, flag and data do not change |
| ScarError.Error.SetData | src/scarerror/scarerror.go:38-41 | `SetData` returns the receiver itself and changes the data only |
| ScarError.Error.ErrorString | src/scarerror/scarerror.go:43-48 | `Error()` is the message alone exactly when there is no cause; otherwise it is the cause's text, ", ", and then the message |
| ScarError.Sentinels.constructor | src/scarerror/scarerror.go:8-13 | The four sentinels are distinct objects. Only `ErrUserDisconnected` is not loggable. The other three carry "io error". None has a cause or data |
| ScarError.Sentinels.ForDisconnect | src/scarerror/scarerror.go:8-13 | The sentinel reporting a failure is `ErrUserDisconnected` exactly for a disconnect, and it is loggable exactly otherwise |
| ScarError.Sentinels.Raise | src/scarerror/scarerror.go:29-32 | Reporting a failure wraps its cause into its own sentinel (never into `ErrUserDisconnected`) and changes no other sentinel; the result prints as the cause's text followed by ", io error" |
| Transport.ReadFullFrom | src/scarnet/scarnet.go:62-80 | A read of n bytes succeeds exactly when n bytes are pending and then takes exactly those. A failed read consumes everything and gives EOF when no byte came from a closed stream, unexpected EOF when some did, and the stream's own error when the stream is broken |
| Transport.Conn.ReadFull | src/scarnet/scarnet.go:62-80 | Reading from the connection is `ReadFullFrom` on its inbound stream |
| Transport.Conn.Write | src/scarnet/scarnet.go:138-151 | A write appends the prefix that its outcome lets through and fails exactly when the outcome is a failure |
| Scarnet.Be32RoundTrip | src/scarnet/scarnet.go:66-73 | Big-endian decoding of a big-endian encoded uint32 gives it back |
| Scarnet.Uint32BeRoundTrip | src/scarnet/scarnet.go:66-73 | Big-endian encoding of any decoded 4-byte word gives the word back, so the two are inverse bijections |
| Scarnet.Classify | src/scarnet/scarnet.go:52-57 | A failure is a disconnect exactly when the cause is `io.EOF`; anything else is an I/O error carrying that cause |
| Scarnet.CheckIoError | src/scarnet/scarnet.go:52-57 | `checkIoError` gives `ErrUserDisconnected` for `io.EOF` with `ErrIo` untouched, and otherwise `ErrIo` wrapping the cause |
| Scarnet.DecodePayload | src/scarnet/scarnet.go:83-108 | A decoded exchange has the frame's id. The result is `ErrUnknown` exactly for an id above 2. For a known id, decoding succeeds exactly when `json.Unmarshal` of the payload into that variant's struct does, and the fields are the unmarshalled ones; otherwise it fails with `ErrSerialization` wrapping Unmarshal's error |
| Scarnet.DecodeExchange | src/scarnet/scarnet.go:83-110 | The switch on the id returns `DecodePayload`'s exchange, or its failure through the matching sentinel, whose `Unwrap()` is the failure's cause. Only the sentinels' causes may change, and only the raised one's |
| Scarnet.ReadFrame | src/scarnet/scarnet.go:59-110 | Reading never changes how the stream ends, and a successful read consumes at least the 8 header bytes |
| Scarnet.ReadFrameComplete | src/scarnet/scarnet.go:59-80 | On a whole frame, the id is the first big-endian word and the payload is the declared number of bytes after the second. Exactly 8 + length bytes are consumed |
| Scarnet.ReadFrameShort | src/scarnet/scarnet.go:52-80 | On less than a whole frame, everything pending is consumed. The failure is a disconnect exactly when the stream closed cleanly with 0, 4 or 8 bytes pending; otherwise it is `ErrIo` with unexpected EOF or the stream's error |
| Scarnet.DisconnectOnlyAtFieldBoundary | src/scarnet/scarnet.go:52-80 | `ErrUserDisconnected` is reported exactly when the stream closed cleanly right before the id, the length, or a non-empty payload (a frame declaring length 0 has no payload read to fail) |
| Scarnet.UnknownIdAfterPayload | src/scarnet/scarnet.go:75-108 | `ErrUnknown` is reported exactly when a whole frame with an id other than 0, 1 or 2 was read; its declared payload has then been consumed |
| Scarnet.ReadExchange | src/scarnet/scarnet.go:59-110 | The method's result and what it leaves on the connection are `ReadFrame`'s. A failure is the reporting sentinel, which prints as `FailureText` and whose `Unwrap()` is the failure's cause (none for a disconnect). Only the raised sentinel's cause changes; no sentinel's message, flag or data does |
| Scarnet.FrameLayout | src/scarnet/scarnet.go:133-151 | The bytes written are the id, the payload length modulo 2^32 and the payload, in that order, and they read back as such |
| Scarnet.ReadFrameOfFrame | src/scarnet/scarnet.go:59-157 | With a round-tripping JSON codec and a payload under 2^32 bytes, reading back a written frame gives the same exchange and leaves exactly what followed it |
| Scarnet.WriteFrameSendsPrefix | src/scarnet/scarnet.go:133-157 | What is sent is always a prefix of the frame. An error is returned exactly when the id or length write failed. After a failed id write no further write happens and only part of the id was sent; after a failed length write no payload write happens and only the id and part of the length were sent. With all writes accepted the whole frame is sent |
| Scarnet.WriteExchange | src/scarnet/scarnet.go:112-157 | The method sends, consumes outcomes and returns errors as `WriteFrame` says, reporting an id or length write failure through `checkIoError`, so `Unwrap()` gives the write's own error. `ErrIo`'s cause changes only when `ErrIo` is returned, and nothing else of it ever changes |
| Scarnetd.Server.constructor | cmd/scarnetd/main.go:20-24 | `NewServer` starts with no accounts |
| Scarnetd.Server.CheckUserCredentials | cmd/scarnetd/main.go:26-43 | It answers true exactly when the name is registered with this very password. It never modifies the store, and it logs an unknown user, a success or a wrong password |
| Scarnetd.Server.CreateUser | cmd/scarnetd/main.go:45-58 | It answers true exactly when the name was free, and then adds it with this password; a taken name leaves the store unchanged |
| Scarnetd.Server.Serve | cmd/scarnetd/main.go:93-103 | Signup goes to `CreateUser`, login to `CheckUserCredentials`, and a message is only logged, as `Dispatch` says |
| Scarnetd.ServeOne | cmd/scarnetd/main.go:81-103 | One pass of the loop body consumes one frame. On a successful read it dispatches the exchange as `Dispatch` says; on a failed read the store is unchanged and the line is the disconnect or error line for that failure. The sentinels keep their causes after a successful read or a disconnect. After any other failure, the sentinel that reported it wraps its cause and the other two keep theirs (`Sentinels.ReportedOnly`) |
| Scarnetd.ReplayStep | cmd/scarnetd/main.go:80-104 | Handling one more exchange applies its dispatch to the accounts so far and appends its log line |
| Scarnetd.SessionStep | cmd/scarnetd/main.go:80-92 | After a successful read, the session delivers that exchange and then the session on what is left |
| Scarnetd.SessionStop | cmd/scarnetd/main.go:82-91 | A session whose first read fails delivers nothing and ends with that failure |
| Scarnetd.HandleConnection | cmd/scarnetd/main.go:77-105 | The loop handles, in order, exactly the exchanges delivered before the first read failure. The accounts and log are those of replaying them, plus a final disconnect or error line. Nothing is written to the connection, and it ends closed. Afterwards only the sentinel that reported the final failure has a new cause, and none does after a disconnect |
| Scarnetd.ReplayKeepsAccounts | cmd/scarnetd/main.go:45-58 | No account is ever removed and a registered password never changes |
| Scarnetd.ReplayOnlySignupsAdd | cmd/scarnetd/main.go:93-103 | Every new account comes from a signup in the handled exchanges, with that signup's password |
| Scarnetd.NoSignupNoChange | cmd/scarnetd/main.go:93-103 | Logins and messages alone never change the accounts |
| Scarnetd.FirstSignupWins | cmd/scarnetd/main.go:49-57 | Of repeated signups for a free name, exactly the first succeeds and keeps its password; every later one logs that the user exists |
| Scarnetd.DuplicateSignupKeepsFirstPassword | cmd/scarnetd/main.go:26-58 | After a signup, a second signup with another password fails; then the first password logs in and the second does not |
| Scarnetd.SessionOfFrames | cmd/scarnetd/main.go:80-104 | A connection carrying written frames delivers those exchanges in the order they were written, then whatever follows |
| Scarnetd.CleanCloseAfterFrames | cmd/scarnetd/main.go:84-87 | A connection that closes cleanly after whole frames ends as a disconnect, not an error |
| Scarnetd.AliceReplay | cmd/scarnetd/main.go:26-58 | Signup(alice, secret), then logins with the right password, a wrong password and an unknown user: the logged outcomes and the final store |
| Scarnetd.AliceSession | cmd/scarnetd/main.go:77-105 | The same four exchanges sent as frames over one cleanly closed connection are delivered in order and end as a disconnect |
| JsonWitness.WitnessRoundTrips | src/scarnet/exchange.go:27-29 | A concrete codec decodes every two-string object it encoded, so the round-trip hypothesis can be met |
| Scarnetd.WitnessCarriesAlice | cmd/scarnetd/main.go:77-105 | Under that codec the end-to-end run, sent as frames over a cleanly closed connection, is delivered in order and ends as a disconnect |

## Left out

- Concurrency is not modelled. This includes the server's `sync.RWMutex`, the goroutine per connection, and interleavings between connections.
  - Each method runs alone.
  - A sentinel wrapped on one connection can be re-wrapped by another in the Go program. The model never has two connections at once.
- Accepting connections is left out: `net.Listen`, the accept loop, and the address in log lines. After a failed `Accept` the Go code goes on to use a nil connection, which is not modelled.
- Logging through `slog` becomes `Event` values in the connection loop. The log lines written inside the codec and on a failed payload write are not modelled.
- Json.BindLastWins: matches keys exactly. It does not model Go's fallback of matching a struct tag case-insensitively.
- Json error messages only approximate `encoding/json`'s texts.
- The JSON text format itself (escaping, whitespace, numbers) is not modelled; see `Json.RoundTrips`.
- The `json.Marshal` error branches of `WriteExchange` (src/scarnet/scarnet.go:118-132) are not modelled. `json.Marshal` cannot fail on a struct of two strings, so those branches cannot run. They also name `ErrSerialization` unqualified, which Go would not compile.
- src/scarnet/scarnet.go repeats the type declarations of src/scarnet/exchange.go (lines 20-51). Both copies are modelled once, by `Exchange`.
- The `Data` field of `Error` holds an opaque `Datum`. `SetData` is not used by the codec or the server.
- Wrapping an `Error` inside another `Error` is not modelled. In the codec and the server, causes are always `io`, network, JSON or formatted errors.
- Go's `errors.Is` walks the cause chain, and the model compares identities instead. The result is the same: a returned error's chain contains `ErrUserDisconnected` only when the error is `ErrUserDisconnected` itself, because every cause the codec and the server wrap is an I/O, JSON or id failure and never a scarerror `Error`.
- Go's chain of `if` type assertions in the loop is modelled as one `match`. At most one of them holds for any exchange.
- `make([]byte, dataLen)` allocates up to 4 GiB for a large declared length. Memory exhaustion is not modelled; the read simply fails when the stream ends first.
- Scarnet.ReadFrameOfFrame: covers field values that are valid UTF-8 only. A Dafny `string` is a sequence of Unicode scalar values, while a Go string is arbitrary bytes. The server loses nothing this way, because `json.Unmarshal` turns invalid UTF-8 into U+FFFD, which the model's strings can hold. A client string with invalid UTF-8, which `json.Marshal` rewrites the same way, cannot be expressed.
- Scarnet.ReadFrameOfFrame: requires the payload to be shorter than 2^32 bytes. A longer payload has its length field wrapped by `uint32(len(data))`, so it does not read back. The wrap-around itself is modelled in `Frame` and `FrameLayout`.
- The demo client cmd/scarchat/main.go is not part of this model.
