/** JSON values and the token stream a streaming generator writes and a streaming parser
    reads (RFC 8259). A value is written as one token for a scalar, and as a start token,
    the tokens of its children and an end token for an array or an object. `ParseValue`
    reads one value back; `ParseTokens` proves it reads back exactly what was written. */
module JsonTree {
  import opened Wrappers

  datatype Json =
    | JNull
    | JBool(b: bool)
    | JNumber(n: int)
    | JString(s: string)
    | JArray(elements: seq<Json>)
    | JObject(members: seq<Member>)

  datatype Member = Member(name: string, value: Json)

  datatype Token =
    | StartArray
    | EndArray
    | StartObject
    | EndObject
    | FieldName(name: string)
    | ValueNull
    | ValueBool(b: bool)
    | ValueNumber(n: int)
    | ValueString(s: string)

  /** The tokens that write `j`. */
  function Tokens(j: Json): seq<Token>
    decreases j, 1
  {
    match j
    case JNull => [ValueNull]
    case JBool(b) => [ValueBool(b)]
    case JNumber(n) => [ValueNumber(n)]
    case JString(s) => [ValueString(s)]
    case JArray(es) => [StartArray] + ElementsTokens(es) + [EndArray]
    case JObject(ms) => [StartObject] + MembersTokens(ms) + [EndObject]
  }

  /** The tokens of the elements of an array, one after the other. */
  function ElementsTokens(es: seq<Json>): seq<Token>
    decreases es, 0
  {
    if es == [] then [] else Tokens(es[0]) + ElementsTokens(es[1..])
  }

  /** The tokens of the members of an object: each name, then its value. */
  function MembersTokens(ms: seq<Member>): seq<Token>
    decreases ms, 0
  {
    if ms == [] then [] else [FieldName(ms[0].name)] + Tokens(ms[0].value) + MembersTokens(ms[1..])
  }

  /** Reads one value from the front of `ts`; returns it with the tokens after it, or `None`
      when the front of `ts` is not a well-formed value. */
  function ParseValue(ts: seq<Token>): (r: Option<(Json, seq<Token>)>)
    ensures r.Some? ==> |r.value.1| < |ts|
    decreases |ts|, 0
  {
    if ts == [] then None
    else match ts[0]
      case ValueNull => Some((JNull, ts[1..]))
      case ValueBool(b) => Some((JBool(b), ts[1..]))
      case ValueNumber(n) => Some((JNumber(n), ts[1..]))
      case ValueString(s) => Some((JString(s), ts[1..]))
      case StartArray =>
        (match ParseElements(ts[1..])
         case None => None
         case Some((es, rest)) => Some((JArray(es), rest)))
      case StartObject =>
        (match ParseMembers(ts[1..])
         case None => None
         case Some((ms, rest)) => Some((JObject(ms), rest)))
      case _ => None
  }

  /** Reads array elements up to and including the closing `EndArray`. */
  function ParseElements(ts: seq<Token>): (r: Option<(seq<Json>, seq<Token>)>)
    ensures r.Some? ==> |r.value.1| < |ts|
    decreases |ts|, 1
  {
    if ts == [] then None
    else if ts[0] == EndArray then Some(([], ts[1..]))
    else match ParseValue(ts)
      case None => None
      case Some((j, rest)) =>
        match ParseElements(rest)
        case None => None
        case Some((es, rest')) => Some(([j] + es, rest'))
  }

  /** Reads object members up to and including the closing `EndObject`. */
  function ParseMembers(ts: seq<Token>): (r: Option<(seq<Member>, seq<Token>)>)
    ensures r.Some? ==> |r.value.1| < |ts|
    decreases |ts|, 1
  {
    if ts == [] then None
    else if ts[0] == EndObject then Some(([], ts[1..]))
    else if !ts[0].FieldName? then None
    else match ParseValue(ts[1..])
      case None => None
      case Some((j, rest)) =>
        match ParseMembers(rest)
        case None => None
        case Some((ms, rest')) => Some(([Member(ts[0].name, j)] + ms, rest'))
  }

  /** No value is written starting with a closing or a field-name token. */
  lemma TokensStartWithValue(j: Json)
    ensures |Tokens(j)| > 0
    ensures Tokens(j)[0] != EndArray && Tokens(j)[0] != EndObject && !Tokens(j)[0].FieldName?
  {
  }

  /** Round trip: parsing what was written for `j` reads `j` back and stops right after it. */
  lemma {:induction false} ParseTokens(j: Json, rest: seq<Token>)
    ensures ParseValue(Tokens(j) + rest) == Some((j, rest))
    decreases j, 1
  {
    match j
    case JArray(es) =>
      ParseElementsTokens(es, rest);
      assert Tokens(j) + rest == [StartArray] + (ElementsTokens(es) + [EndArray] + rest);
    case JObject(ms) =>
      ParseMembersTokens(ms, rest);
      assert Tokens(j) + rest == [StartObject] + (MembersTokens(ms) + [EndObject] + rest);
    case _ =>
  }

  lemma {:induction false} ParseElementsTokens(es: seq<Json>, rest: seq<Token>)
    ensures ParseElements(ElementsTokens(es) + [EndArray] + rest) == Some((es, rest))
    decreases es, 0
  {
    if es != [] {
      var ts := ElementsTokens(es) + [EndArray] + rest;
      var tail := ElementsTokens(es[1..]) + [EndArray] + rest;
      assert ts == Tokens(es[0]) + tail;
      TokensStartWithValue(es[0]);
      ParseTokens(es[0], tail);
      ParseElementsTokens(es[1..], rest);
      assert [es[0]] + es[1..] == es;
    }
  }

  lemma {:induction false} ParseMembersTokens(ms: seq<Member>, rest: seq<Token>)
    ensures ParseMembers(MembersTokens(ms) + [EndObject] + rest) == Some((ms, rest))
    decreases ms, 0
  {
    if ms != [] {
      var tail := MembersTokens(ms[1..]) + [EndObject] + rest;
      MembersTokensSplit(ms, rest);
      ParseTokens(ms[0].value, tail);
      ParseMembersTokens(ms[1..], rest);
      MembersStep(MembersTokens(ms) + [EndObject] + rest, ms[0].name, ms[0].value, tail, ms[1..], rest);
      assert [Member(ms[0].name, ms[0].value)] + ms[1..] == ms;
    }
  }

  /** The shape of `[a] + x + y + z`, for any sequences. */
  lemma ConcatShape(a: Token, x: seq<Token>, y: seq<Token>, z: seq<Token>)
    ensures [a] + x + y + z != []
    ensures ([a] + x + y + z)[0] == a
    ensures ([a] + x + y + z)[1..] == x + (y + z)
  {
    assert [a] + x + y + z == [a] + (x + (y + z));
  }

  /** The tokens of a non-empty member list, followed by the closing token and `rest`: the
      first name, then the first value, then the tokens of the other members. */
  lemma MembersTokensSplit(ms: seq<Member>, rest: seq<Token>)
    requires ms != []
    ensures MembersTokens(ms) + [EndObject] + rest != []
    ensures (MembersTokens(ms) + [EndObject] + rest)[0] == FieldName(ms[0].name)
    ensures (MembersTokens(ms) + [EndObject] + rest)[1..]
      == Tokens(ms[0].value) + (MembersTokens(ms[1..]) + [EndObject] + rest)
  {
    var x := Tokens(ms[0].value);
    var y := MembersTokens(ms[1..]);
    assert MembersTokens(ms) + [EndObject] + rest == [FieldName(ms[0].name)] + x + y + ([EndObject] + rest);
    ConcatShape(FieldName(ms[0].name), x, y, [EndObject] + rest);
    assert y + ([EndObject] + rest) == MembersTokens(ms[1..]) + [EndObject] + rest;
  }

  /** One step of `ParseMembers`: a name, a value and the members after it. */
  lemma MembersStep(ts: seq<Token>, n: string, j: Json, tail: seq<Token>, ms: seq<Member>, rest: seq<Token>)
    requires ts != [] && ts[0] == FieldName(n)
    requires ParseValue(ts[1..]) == Some((j, tail))
    requires ParseMembers(tail) == Some((ms, rest))
    ensures ParseMembers(ts) == Some(([Member(n, j)] + ms, rest))
  {
  }

  /** Writing elements one more at a time appends that element's tokens. */
  lemma {:induction false} ElementsTokensAppend(es: seq<Json>, j: Json)
    ensures ElementsTokens(es + [j]) == ElementsTokens(es) + Tokens(j)
    decreases es
  {
    if es == [] {
      assert [j][1..] == [];
    } else {
      assert (es + [j])[1..] == es[1..] + [j];
      ElementsTokensAppend(es[1..], j);
    }
  }

  /** A `JsonGenerator`: the tokens written so far. */
  class JsonGenerator {
    var tokens: seq<Token>

    constructor ()
      ensures tokens == []
    {
      tokens := [];
    }

    /** `writeStartArray()`. */
    method WriteStartArray()
      modifies this
      ensures tokens == old(tokens) + [StartArray]
    {
      tokens := tokens + [StartArray];
    }

    /** `writeEndArray()`. */
    method WriteEndArray()
      modifies this
      ensures tokens == old(tokens) + [EndArray]
    {
      tokens := tokens + [EndArray];
    }

    /** Writes the whole of one value. */
    method WriteTree(j: Json)
      modifies this
      ensures tokens == old(tokens) + Tokens(j)
    {
      tokens := tokens + Tokens(j);
    }
  }
}
