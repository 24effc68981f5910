/**
 * The server: an in-memory account store and the per-connection loop that
 * reads exchanges in order, dispatches each by variant and stops at the first
 * read error. Outcomes are only logged; the log lines are modelled as events.
 */
module Scarnetd {
  import opened Common
  import opened ScarError
  import opened Exchange
  import opened Transport
  import opened Scarnet
  import Json
  import JsonWitness

  /** username to password */
  type Users = map<string, string>

  /** The lines the server logs while handling a connection. */
  datatype Event =
    | UserCreated(username: string)
    | UserExists(username: string)
    | LoginSucceeded(username: string)
    | NoUserExists(username: string)
    | IncorrectPassword(username: string)
    | MessageReceived(message: string)
    | Disconnected
    | ReadRequestError(error: string)

  /**
   * What handling one exchange does to the accounts and what it logs: a
   * signup creates the account if the name is free, a login checks the
   * credentials, a message is only logged.
   */
  function Dispatch(users: Users, x: Exchange): (Users, Event)
  {
    match x
    case SignupRequest(u, p) =>
      if u !in users then (users[u := p], UserCreated(u)) else (users, UserExists(u))
    case LoginRequest(u, p) =>
      (users, if u !in users then NoUserExists(u) else if users[u] == p then LoginSucceeded(u) else IncorrectPassword(u))
    case MessageRequest(_, m) =>
      (users, MessageReceived(m))
  }

  class Server {
    var users: Users

    /** NewServer: no accounts. */
    constructor ()
      ensures users == map[]
    {
      users := map[];
    }

    /**
     * CheckUserCredentials: true exactly when the name is registered with
     * this very password. The accounts are only read.
     */
    method CheckUserCredentials(req: Exchange) returns (ok: bool, logged: Event)
      requires req.LoginRequest?
      ensures ok <==> req.username in users && users[req.username] == req.password
      ensures logged == (if req.username !in users then NoUserExists(req.username)
                         else if ok then LoginSucceeded(req.username) else IncorrectPassword(req.username))
      ensures (users, logged) == Dispatch(users, req)
    {
      if req.username !in users {
        return false, NoUserExists(req.username);
      }
      if users[req.username] == req.password {
        return true, LoginSucceeded(req.username);
      } else {
        logged := IncorrectPassword(req.username);
      }
      return false, logged;
    }

    /**
     * CreateUser: inserts the account and answers true exactly when the name
     * was free; a taken name keeps its password and nothing changes.
     */
    method CreateUser(req: Exchange) returns (created: bool, logged: Event)
      requires req.SignupRequest?
      modifies this
      ensures created <==> req.username !in old(users)
      ensures users == if created then old(users)[req.username := req.password] else old(users)
      ensures logged == if created then UserCreated(req.username) else UserExists(req.username)
      ensures (users, logged) == Dispatch(old(users), req)
    {
      if req.username !in users {
        users := users[req.username := req.password];
        return true, UserCreated(req.username);
      } else {
        logged := UserExists(req.username);
      }
      return false, logged;
    }

    /** The loop body's type switch: each request goes to its own handler. */
    method Serve(x: Exchange) returns (logged: Event)
      modifies this
      ensures users == Dispatch(old(users), x).0 && logged == Dispatch(old(users), x).1
    {
      match x {
        case SignupRequest(_, _) =>
          var _, e := CreateUser(x);
          logged := e;
        case LoginRequest(_, _) =>
          var _, e := CheckUserCredentials(x);
          logged := e;
        case MessageRequest(_, m) =>
          logged := MessageReceived(m);
      }
    }
  }

  /** One more exchange handled: its dispatch applies to the accounts so far and its line ends the log. */
  lemma ReplayStep(users: Users, xs: seq<Exchange>, x: Exchange)
    ensures Replay(users, xs + [x]).0 == Dispatch(Replay(users, xs).0, x).0
    ensures Replay(users, xs + [x]).1 == Replay(users, xs).1 + [Dispatch(Replay(users, xs).0, x).1]
  {
    assert (xs + [x])[..|xs|] == xs;
  }

  /** The accounts and the log after handling `xs` in order. */
  function Replay(users: Users, xs: seq<Exchange>): (r: (Users, seq<Event>))
    ensures |r.1| == |xs|
    decreases |xs|
  {
    if xs == [] then (users, [])
    else
      var (before, log) := Replay(users, xs[..|xs| - 1]);
      var (after, e) := Dispatch(before, xs[|xs| - 1]);
      (after, log + [e])
  }

  /**
   * The exchanges a connection delivers, in order, and the failure that ends
   * it: frames are read until the first read fails, whatever follows.
   */
  function Session(s: Stream, c: Json.Codec): (r: (seq<Exchange>, Failure))
    decreases |s.pending|
  {
    var (read, rest) := ReadFrame(s, c);
    if read.Err? then ([], read.error)
    else
      var (xs, f) := Session(rest, c);
      ([read.value] + xs, f)
  }

  /** One step of a session: a frame read, then the session on what is left. */
  lemma SessionStep(s: Stream, c: Json.Codec)
    requires ReadFrame(s, c).0.Ok?
    ensures Session(s, c).0 == [ReadFrame(s, c).0.value] + Session(ReadFrame(s, c).1, c).0
    ensures Session(s, c).1 == Session(ReadFrame(s, c).1, c).1
  {
  }

  /** A session whose first read fails delivers nothing and ends with that failure. */
  lemma SessionStop(s: Stream, c: Json.Codec)
    requires ReadFrame(s, c).0.Err?
    ensures Session(s, c).0 == [] && Session(s, c).1 == ReadFrame(s, c).0.error
  {
  }

  /** The line logged when the loop stops: a disconnect, or the read error's text. */
  function Farewell(f: Failure): Event
  {
    if f.UserDisconnected? then Disconnected else ReadRequestError(FailureText(f))
  }

  /**
   * One pass of the loop body: read an exchange and dispatch it, giving its
   * log line, or, when the read fails, the line logged as the loop stops.
   */
  method ServeOne(server: Server, errs: Sentinels, conn: Conn, c: Json.Codec) returns (line: Event, more: bool)
    requires errs.Valid()
    modifies server, conn`inbound, errs.io`err, errs.serialization`err, errs.unknown`err
    ensures errs.Valid()
    ensures conn.inbound == ReadFrame(old(conn.inbound), c).1
    ensures more <==> ReadFrame(old(conn.inbound), c).0.Ok?
    ensures more ==> var x := ReadFrame(old(conn.inbound), c).0.value;
      server.users == Dispatch(old(server.users), x).0 && line == Dispatch(old(server.users), x).1
    ensures !more ==> server.users == old(server.users) && line == Farewell(ReadFrame(old(conn.inbound), c).0.error)
    ensures more ==>
      errs.io.err == old(errs.io.err) && errs.serialization.err == old(errs.serialization.err) && errs.unknown.err == old(errs.unknown.err)
    ensures !more ==>
      errs.ReportedOnly(ReadFrame(old(conn.inbound), c).0.error, old(errs.io.err), old(errs.serialization.err), old(errs.unknown.err))
  {
    var request, err := ReadExchange(errs, conn, c);
    if err.Some? {
      errs.ForDisconnect(ReadFrame(old(conn.inbound), c).0.error);
      line := if err.value == errs.userDisconnected then Disconnected else ReadRequestError(err.value.ErrorString());
      return line, false;
    }
    line := server.Serve(request.value);
    more := true;
  }

  /** One more pass of the loop: the exchange read moves from the rest of the session to what was handled. */
  lemma LoopStep(users: Users, done: seq<Exchange>, s: Stream, c: Json.Codec)
    requires ReadFrame(s, c).0.Ok?
    ensures var (x, rest) := (ReadFrame(s, c).0.value, ReadFrame(s, c).1);
      && done + Session(s, c).0 == (done + [x]) + Session(rest, c).0
      && Session(s, c).1 == Session(rest, c).1
      && Replay(users, done + [x]).0 == Dispatch(Replay(users, done).0, x).0
      && Replay(users, done + [x]).1 == Replay(users, done).1 + [Dispatch(Replay(users, done).0, x).1]
  {
    var x := ReadFrame(s, c).0.value;
    SessionStep(s, c);
    Reassociate(done, x, Session(ReadFrame(s, c).1, c).0);
    ReplayStep(users, done, x);
  }

  /** The last pass of the loop: nothing more is delivered and the session ends with the failed read. */
  lemma LoopStop(done: seq<Exchange>, s: Stream, c: Json.Codec)
    requires ReadFrame(s, c).0.Err?
    ensures done + Session(s, c).0 == done && Session(s, c).1 == ReadFrame(s, c).0.error
  {
    SessionStop(s, c);
    assert done + [] == done;
  }

  /**
   * The goroutine that serves one connection: read, dispatch, repeat, until a
   * read fails; then close the connection. The accounts and the log are those
   * of replaying, in order, the exchanges the connection delivers before its
   * first failure, and nothing is ever written back to the peer.
   */
  method HandleConnection(server: Server, errs: Sentinels, conn: Conn, c: Json.Codec) returns (log: seq<Event>)
    requires errs.Valid()
    modifies server, conn`inbound, conn`open, errs.io`err, errs.serialization`err, errs.unknown`err
    ensures errs.Valid()
    ensures !conn.open
    ensures conn.sent == old(conn.sent) && conn.script == old(conn.script)
    ensures server.users == Replay(old(server.users), Session(old(conn.inbound), c).0).0
    ensures log == Replay(old(server.users), Session(old(conn.inbound), c).0).1 + [Farewell(Session(old(conn.inbound), c).1)]
    ensures errs.ReportedOnly(Session(old(conn.inbound), c).1, old(errs.io.err), old(errs.serialization.err), old(errs.unknown.err))
  {
    ghost var s0, u0 := conn.inbound, server.users;
    ghost var io0, ser0, unk0 := errs.io.err, errs.serialization.err, errs.unknown.err;
    ghost var done: seq<Exchange> := [];
    log := [];
    assert done + Session(s0, c).0 == Session(s0, c).0;
    while true
      invariant errs.Valid()
      invariant conn.sent == old(conn.sent) && conn.script == old(conn.script)
      invariant Session(s0, c).0 == done + Session(conn.inbound, c).0
      invariant Session(s0, c).1 == Session(conn.inbound, c).1
      invariant server.users == Replay(u0, done).0
      invariant log == Replay(u0, done).1
      invariant errs.io.err == io0 && errs.serialization.err == ser0 && errs.unknown.err == unk0
      decreases |conn.inbound.pending|
    {
      ghost var before := conn.inbound;
      var line, more := ServeOne(server, errs, conn, c);
      log := log + [line];
      if !more {
        LoopStop(done, before, c);
        assert Session(s0, c).1 == ReadFrame(before, c).0.error;
        assert errs.ReportedOnly(Session(s0, c).1, io0, ser0, unk0);
        break;
      }
      LoopStep(u0, done, before, c);
      done := done + [ReadFrame(before, c).0.value];
    }
    conn.Close();
  }

  /* ---------------------------------------------------------------------- */
  /* Properties of the store                                                 */
  /* ---------------------------------------------------------------------- */

  /** No account is ever removed, and a registered password never changes. */
  lemma {:induction false} ReplayKeepsAccounts(users: Users, xs: seq<Exchange>)
    ensures users.Keys <= Replay(users, xs).0.Keys
    ensures forall u | u in users :: Replay(users, xs).0[u] == users[u]
    decreases |xs|
  {
    if xs != [] {
      ReplayKeepsAccounts(users, xs[..|xs| - 1]);
    }
  }

  /** Every account that was not there before was made by a signup in `xs`, with that password. */
  lemma {:induction false} ReplayOnlySignupsAdd(users: Users, xs: seq<Exchange>)
    ensures forall u | u in Replay(users, xs).0 && u !in users ::
      exists i :: 0 <= i < |xs| && xs[i] == SignupRequest(u, Replay(users, xs).0[u])
    decreases |xs|
  {
    if xs != [] {
      var init := xs[..|xs| - 1];
      ReplayOnlySignupsAdd(users, init);
      ReplayKeepsAccounts(Replay(users, init).0, [xs[|xs| - 1]]);
      forall u | u in Replay(users, xs).0 && u !in users
        ensures exists i :: 0 <= i < |xs| && xs[i] == SignupRequest(u, Replay(users, xs).0[u])
      {
        var before := Replay(users, init).0;
        if u in before {
          var i :| 0 <= i < |init| && init[i] == SignupRequest(u, before[u]);
          assert xs[i] == init[i];
        } else {
          assert xs[|xs| - 1] == SignupRequest(u, Replay(users, xs).0[u]);
        }
      }
    }
  }

  /** Logins and messages never change the accounts: only a signup can. */
  lemma NoSignupNoChange(users: Users, xs: seq<Exchange>)
    requires forall i | 0 <= i < |xs| :: !xs[i].SignupRequest?
    ensures Replay(users, xs).0 == users
  {
    ReplayKeepsAccounts(users, xs);
    ReplayOnlySignupsAdd(users, xs);
    assert Replay(users, xs).0.Keys == users.Keys;
  }

  /** Signups for one name with the passwords `ps`, one after another. */
  function Signups(u: string, ps: seq<string>): (xs: seq<Exchange>)
    ensures |xs| == |ps|
    ensures forall i | 0 <= i < |ps| :: xs[i] == SignupRequest(u, ps[i])
  {
    seq(|ps|, i requires 0 <= i < |ps| => SignupRequest(u, ps[i]))
  }

  /**
   * However many signups for a free name arrive, exactly the first succeeds,
   * every later one is told the user exists, and the first password stays.
   */
  lemma {:induction false} FirstSignupWins(users: Users, u: string, ps: seq<string>)
    requires u !in users
    requires ps != []
    ensures Replay(users, Signups(u, ps)).0 == users[u := ps[0]]
    ensures Replay(users, Signups(u, ps)).1 == [UserCreated(u)] + seq(|ps| - 1, _ => UserExists(u))
    decreases |ps|
  {
    var xs := Signups(u, ps);
    if |ps| > 1 {
      var init := ps[..|ps| - 1];
      assert xs[..|xs| - 1] == Signups(u, init);
      FirstSignupWins(users, u, init);
      assert Replay(users, xs).1 == Replay(users, Signups(u, init)).1 + [UserExists(u)];
    } else {
      assert xs[..0] == [];
    }
  }

  /**
   * Create then verify, as a store is expected to behave: a second signup
   * with another password fails, the first password logs in and the second
   * does not.
   */
  lemma DuplicateSignupKeepsFirstPassword(users: Users, u: string, p1: string, p2: string)
    requires u !in users
    requires p1 != p2
    ensures var xs := [SignupRequest(u, p1), SignupRequest(u, p2), LoginRequest(u, p1), LoginRequest(u, p2)];
      && Replay(users, xs).0 == users[u := p1]
      && Replay(users, xs).1 == [UserCreated(u), UserExists(u), LoginSucceeded(u), IncorrectPassword(u)]
  {
    var xs := [SignupRequest(u, p1), SignupRequest(u, p2), LoginRequest(u, p1), LoginRequest(u, p2)];
    var after := users[u := p1];
    assert xs[..1][..0] == [];
    assert Replay(users, xs[..1]).0 == after && Replay(users, xs[..1]).1 == [UserCreated(u)];
    assert xs[..2][..1] == xs[..1];
    assert Replay(users, xs[..2]).0 == after && Replay(users, xs[..2]).1 == [UserCreated(u), UserExists(u)];
    assert xs[..3][..2] == xs[..2];
    assert Replay(users, xs[..3]).0 == after;
    assert Replay(users, xs[..3]).1 == [UserCreated(u), UserExists(u), LoginSucceeded(u)];
    assert xs[..4][..3] == xs[..3];
    assert xs[..4] == xs;
  }

  /* ---------------------------------------------------------------------- */
  /* Properties of a session                                                 */
  /* ---------------------------------------------------------------------- */

  /** The frames of `xs`, back to back, as a client writes them. */
  function Frames(xs: seq<Exchange>, c: Json.Codec): seq<byte>
    decreases |xs|
  {
    if xs == [] then [] else Frame(xs[0], c) + Frames(xs[1..], c)
  }

  /**
   * A connection carrying the frames of `xs` and then `rest` delivers `xs`,
   * in the order they were written, and then whatever `rest` delivers.
   */
  lemma {:induction false} SessionOfFrames(xs: seq<Exchange>, rest: seq<byte>, tail: Tail, c: Json.Codec)
    requires Json.RoundTrips(c)
    requires forall i | 0 <= i < |xs| :: Framable(xs[i], c)
    ensures Session(Stream(Frames(xs, c) + rest, tail), c).0 == xs + Session(Stream(rest, tail), c).0
    ensures Session(Stream(Frames(xs, c) + rest, tail), c).1 == Session(Stream(rest, tail), c).1
    decreases |xs|
  {
    if xs != [] {
      var after := Frames(xs[1..], c) + rest;
      var s := Stream(Frames(xs, c) + rest, tail);
      assert s.pending == Frame(xs[0], c) + after;
      ReadFrameOfFrame(xs[0], after, tail, c);
      SessionStep(s, c);
      SessionOfFrames(xs[1..], rest, tail, c);
      Regroup(xs, Session(Stream(rest, tail), c).0);
    } else {
      assert Frames(xs, c) + rest == rest;
      assert xs + Session(Stream(rest, tail), c).0 == Session(Stream(rest, tail), c).0;
    }
  }

  lemma Reassociate<T>(xs: seq<T>, x: T, ys: seq<T>)
    ensures xs + ([x] + ys) == (xs + [x]) + ys
  {
  }

  lemma Regroup<T>(xs: seq<T>, ys: seq<T>)
    requires xs != []
    ensures xs + ys == [xs[0]] + (xs[1..] + ys)
  {
    assert xs == [xs[0]] + xs[1..];
  }

  /** A connection that closes cleanly after whole frames ends with a disconnect, not an error. */
  lemma CleanCloseAfterFrames(xs: seq<Exchange>, c: Json.Codec)
    requires Json.RoundTrips(c)
    requires forall i | 0 <= i < |xs| :: Framable(xs[i], c)
    ensures Session(Stream(Frames(xs, c), Closed), c).0 == xs
    ensures Session(Stream(Frames(xs, c), Closed), c).1 == UserDisconnected
  {
    SessionOfFrames(xs, [], Closed, c);
    assert Frames(xs, c) + [] == Frames(xs, c);
    assert Session(Stream([], Closed), c).0 == [];
    assert xs + [] == xs;
  }

  /** The four exchanges of the end-to-end run. */
  function AliceExchanges(): (xs: seq<Exchange>)
    ensures |xs| == 4
  {
    [SignupRequest("alice", "secret"), LoginRequest("alice", "secret"), LoginRequest("alice", "wrong"), LoginRequest("bob", "x")]
  }

  /**
   * The end-to-end run on a fresh server: Signup{alice, secret} creates the
   * account, Login{alice, secret} succeeds, Login{alice, wrong} meets the
   * wrong password and Login{bob, x} an unknown user.
   */
  lemma AliceReplay()
    ensures Replay(map[], AliceExchanges()).0 == map["alice" := "secret"]
    ensures Replay(map[], AliceExchanges()).1 == [UserCreated("alice"), LoginSucceeded("alice"), IncorrectPassword("alice"), NoUserExists("bob")]
  {
    var xs := AliceExchanges();
    var alice := map["alice" := "secret"];
    assert xs[..1][..0] == [];
    assert Replay(map[], xs[..1]).0 == alice && Replay(map[], xs[..1]).1 == [UserCreated("alice")];
    assert xs[..2][..1] == xs[..1];
    assert Replay(map[], xs[..2]).0 == alice;
    assert Replay(map[], xs[..2]).1 == [UserCreated("alice"), LoginSucceeded("alice")];
    assert xs[..3][..2] == xs[..2];
    assert Replay(map[], xs[..3]).0 == alice;
    assert Replay(map[], xs[..3]).1 == [UserCreated("alice"), LoginSucceeded("alice"), IncorrectPassword("alice")];
    assert xs[..4][..3] == xs[..3];
    assert "bob" !in alice;
    assert xs[..4] == xs;
  }

  /**
   * Sent as frames over one connection that then closes cleanly, the run is
   * delivered in order and the connection ends as a disconnect.
   */
  lemma AliceSession(c: Json.Codec)
    requires Json.RoundTrips(c)
    requires forall i | 0 <= i < 4 :: Framable(AliceExchanges()[i], c)
    ensures Session(Stream(Frames(AliceExchanges(), c), Closed), c).0 == AliceExchanges()
    ensures Session(Stream(Frames(AliceExchanges(), c), Closed), c).1 == UserDisconnected
  {
    CleanCloseAfterFrames(AliceExchanges(), c);
  }

  /** Every exchange's payload under the witness codec is far below the 2^32-byte limit. */
  lemma WitnessFramable(x: Exchange)
    requires |Fields(x).0| < 0x1000_0000 && |Fields(x).1| < 0x1000_0000
    ensures Framable(x, JsonWitness.Witness())
  {
    JsonWitness.EncodeLength(Tags(Id(x)), Fields(x));
    assert Marshal(x, JsonWitness.Witness()) == JsonWitness.Encode(Json.StringObject(Tags(Id(x)), Fields(x)));
    assert |Tags(Id(x)).0| <= 8 && |Tags(Id(x)).1| <= 8;
  }

  /** The end-to-end run, sent as frames under the witness codec, is delivered in order and ends as a disconnect. */
  lemma WitnessCarriesAlice()
    ensures Session(Stream(Frames(AliceExchanges(), JsonWitness.Witness()), Closed), JsonWitness.Witness()).0 == AliceExchanges()
    ensures Session(Stream(Frames(AliceExchanges(), JsonWitness.Witness()), Closed), JsonWitness.Witness()).1 == UserDisconnected
  {
    JsonWitness.WitnessRoundTrips();
    forall i | 0 <= i < 4
      ensures Framable(AliceExchanges()[i], JsonWitness.Witness())
    {
      WitnessFramable(AliceExchanges()[i]);
    }
    AliceSession(JsonWitness.Witness());
  }
}
