/**
 * The closed set of exchanges a client may send, their wire ids and the JSON
 * schema of each payload.
 */
module Exchange {
  import opened Common
  import Json

  const SignupRequestId: uint32 := 0
  const LoginRequestId: uint32 := 1
  const MessageRequestId: uint32 := 2

  datatype Exchange =
    | SignupRequest(username: string, password: string)
    | LoginRequest(username: string, password: string)
    | MessageRequest(receiver: string, message: string)

  /** ExchangeId(): the wire id of each variant. */
  function Id(x: Exchange): uint32
  {
    match x
    case SignupRequest(_, _) => SignupRequestId
    case LoginRequest(_, _) => LoginRequestId
    case MessageRequest(_, _) => MessageRequestId
  }

  /** Every variant has one of the three known ids, and no two variants share one. */
  lemma IdsAreDistinct(x: Exchange, y: Exchange)
    ensures Id(x) in {0, 1, 2}
    ensures x.SignupRequest? <==> Id(x) == 0
    ensures x.LoginRequest? <==> Id(x) == 1
    ensures x.MessageRequest? <==> Id(x) == 2
    ensures Id(x) == Id(y) <==> (x.SignupRequest? == y.SignupRequest? && x.LoginRequest? == y.LoginRequest?)
  {
  }

  /** The json tags of the payload struct of the variant with this id. */
  function Tags(id: uint32): (string, string)
  {
    if id == MessageRequestId then ("to", "msg") else ("username", "password")
  }

  /** The values of a variant's two fields, in declaration order. */
  function Fields(x: Exchange): (string, string)
  {
    match x
    case SignupRequest(u, p) => (u, p)
    case LoginRequest(u, p) => (u, p)
    case MessageRequest(r, m) => (r, m)
  }

  /** The variant with id `id` built from field values, for the three known ids. */
  function Build(id: uint32, fields: (string, string)): (x: Exchange)
    requires id <= MessageRequestId
    ensures Id(x) == id && Fields(x) == fields
  {
    if id == SignupRequestId then SignupRequest(fields.0, fields.1)
    else if id == LoginRequestId then LoginRequest(fields.0, fields.1)
    else MessageRequest(fields.0, fields.1)
  }

  /** Marshal(): the JSON encoding of the variant's own two fields under their tags. */
  function Marshal(x: Exchange, c: Json.Codec): seq<byte>
  {
    Json.Marshal(c, Tags(Id(x)), Fields(x))
  }

  /**
   * The payload carries the fields only: Signup and Login with equal fields
   * marshal to the same bytes, so on the wire only the id tells them apart,
   * and a Message payload is keyed "to" and "msg".
   */
  lemma PayloadSchemas(u: string, p: string, c: Json.Codec)
    ensures Marshal(SignupRequest(u, p), c) == Marshal(LoginRequest(u, p), c)
    ensures Marshal(SignupRequest(u, p), c) == c.encode(Json.Object([("username", Json.JString(u)), ("password", Json.JString(p))]))
    ensures Marshal(MessageRequest(u, p), c) == c.encode(Json.Object([("to", Json.JString(u)), ("msg", Json.JString(p))]))
  {
  }
}
