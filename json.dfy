/**
 * The part of Go's encoding/json that the exchanges rely on.
 *
 * The text format itself (escaping, whitespace, number syntax) is not modelled:
 * a `Codec` is any pair of total functions between documents and bytes, and the
 * one fact the protocol needs from it, that decoding what was encoded gives the
 * document back, is the predicate `RoundTrips`, taken as a hypothesis by the
 * lemmas that need it.  What IS modelled is how a decoded document is bound to
 * a Go struct of two string fields by their `json:"..."` tags.
 */
module Json {
  import opened Common

  /** A member value, as far as binding it to a string field cares. */
  datatype Value = JString(s: string) | JNull | JOther

  /** A decoded top-level document: `null`, an object (members in text order) or anything else. */
  datatype Document = Null | Object(members: seq<(string, Value)>) | NotObject

  /** json.Marshal and json.Unmarshal, up to the document level; decode errors carry their message. */
  datatype Codec = Codec(encode: Document -> seq<byte>, decode: seq<byte> -> Result<Document, string>)

  /** The object json.Marshal builds from a struct whose string fields carry these tags and values. */
  function StringObject(keys: (string, string), vals: (string, string)): Document
  {
    Object([(keys.0, JString(vals.0)), (keys.1, JString(vals.1))])
  }

  /** The codec gives back every object of two string members that it encoded. */
  ghost predicate RoundTrips(c: Codec)
  {
    forall keys: (string, string), vals: (string, string) ::
      c.decode(c.encode(StringObject(keys, vals))) == Ok(StringObject(keys, vals))
  }

  /** json.Marshal of a struct with two string fields tagged `keys`. It cannot fail for such a struct. */
  function Marshal(c: Codec, keys: (string, string), vals: (string, string)): seq<byte>
  {
    c.encode(StringObject(keys, vals))
  }

  /** The message json.Unmarshal reports when a field tagged `key` meets a non-string value. */
  function TypeError(key: string): string
  {
    "json: cannot unmarshal into Go struct field " + key + " of type string"
  }

  /**
   * Assigns the members of an object, in order, to the two fields tagged `keys`,
   * starting from the field values `acc`: members with other keys are skipped,
   * `null` leaves a field as it is, a string overwrites it, and anything else
   * is a type error.
   */
  function Bind(members: seq<(string, Value)>, keys: (string, string), acc: (string, string)): Result<(string, string), string>
    decreases |members|
  {
    if members == [] then Ok(acc)
    else
      var (k, v) := members[0];
      if k != keys.0 && k != keys.1 then Bind(members[1..], keys, acc)
      else match v
        case JOther => Err(TypeError(k))
        case JNull => Bind(members[1..], keys, acc)
        case JString(s) => Bind(members[1..], keys, if k == keys.0 then (s, acc.1) else (acc.0, s))
  }

  /** json.Unmarshal into a fresh struct of two string fields tagged `keys`. */
  function Unmarshal(c: Codec, data: seq<byte>, keys: (string, string)): Result<(string, string), string>
  {
    match c.decode(data)
    case Err(e) => Err(e)
    case Ok(Null) => Ok(("", ""))
    case Ok(NotObject) => Err("json: cannot unmarshal into Go value of type struct")
    case Ok(Object(members)) => Bind(members, keys, ("", ""))
  }

  /** The last string given to `key` among `members`, or `dflt` when there is none. */
  function LastString(members: seq<(string, Value)>, key: string, dflt: string): string
    decreases |members|
  {
    if members == [] then dflt
    else
      var last := members[|members| - 1];
      if last.0 == key && last.1.JString? then last.1.s
      else LastString(members[..|members| - 1], key, dflt)
  }

  /** No member tagged with one of `keys` holds a non-string, non-null value. */
  predicate WellTyped(members: seq<(string, Value)>, keys: (string, string))
  {
    forall i :: 0 <= i < |members| && (members[i].0 == keys.0 || members[i].0 == keys.1) ==> !members[i].1.JOther?
  }

  /**
   * Binding succeeds exactly when the tagged members are well typed, and then
   * each field holds the last string given to its key (a later duplicate wins).
   */
  lemma {:induction false} BindLastWins(members: seq<(string, Value)>, keys: (string, string), acc: (string, string))
    requires keys.0 != keys.1
    ensures Bind(members, keys, acc).Ok? <==> WellTyped(members, keys)
    ensures WellTyped(members, keys) ==>
      Bind(members, keys, acc) == Ok((LastString(members, keys.0, acc.0), LastString(members, keys.1, acc.1)))
    decreases |members|
  {
    if members != [] {
      var (k, v) := members[0];
      var rest := members[1..];
      var acc' := if k in {keys.0, keys.1} && v.JString? then (if k == keys.0 then (v.s, acc.1) else (acc.0, v.s)) else acc;
      BindLastWins(rest, keys, acc');
      assert WellTyped(members, keys) <==> (!(k in {keys.0, keys.1} && v.JOther?) && WellTyped(rest, keys)) by {
        if WellTyped(members, keys) {
          forall i | 0 <= i < |rest| && (rest[i].0 == keys.0 || rest[i].0 == keys.1) ensures !rest[i].1.JOther? {
            assert rest[i] == members[i + 1];
          }
        }
      }
      LastStringCons(members, keys.0, acc.0);
      LastStringCons(members, keys.1, acc.1);
    }
  }

  /** Peeling the first member off: the last string is found in the rest, or else it is the first member's. */
  lemma {:induction false} LastStringCons(members: seq<(string, Value)>, key: string, dflt: string)
    requires members != []
    ensures LastString(members, key, dflt) ==
      LastString(members[1..], key, if members[0].0 == key && members[0].1.JString? then members[0].1.s else dflt)
    decreases |members|
  {
    if |members| > 1 {
      var init := members[..|members| - 1];
      assert init[1..] == members[1..][..|members[1..]| - 1];
      assert init[0] == members[0];
      LastStringCons(init, key, dflt);
    }
  }

  /** Decoding what Marshal produced gives the same two field values back. */
  lemma UnmarshalMarshal(c: Codec, keys: (string, string), vals: (string, string))
    requires RoundTrips(c)
    requires keys.0 != keys.1
    ensures Unmarshal(c, Marshal(c, keys, vals), keys) == Ok(vals)
  {
    var members := StringObject(keys, vals).members;
    assert c.decode(c.encode(StringObject(keys, vals))) == Ok(StringObject(keys, vals));
    BindLastWins(members, keys, ("", ""));
    assert members[..1] == [members[0]];
  }
}
