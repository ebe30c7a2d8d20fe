/** `CloudEventBatchDeserializer`: reads a JSON array and deserializes each element in turn,
    appending to an `ArrayList`. If reading the array or any element fails with an
    `InvalidDefinitionException`, it tries once to read a single event from the parser
    instead; if that fails as well, the original exception is thrown. The result is a batch
    view over the list.

    Jackson itself is not part of this model. Which non-array values make `readValue`
    throw which exception is the function `nonArray`; the single-event deserializer is
    `fromNode` for a tree and `fromParser` for the parser's remaining tokens. A value that
    is not well-formed JSON makes `readValue` throw a parse exception, which is not an
    `InvalidDefinitionException`.

    Where the parser stands when the fallback reads: `readValue` throws an
    `InvalidDefinitionException` before it consumes the value, so after a failed array
    read the fallback reads the whole input, the non-array value included; after an element
    failed, the array has been read whole, so the fallback reads the tokens after it. */
module BatchDeserializer {
  import opened Wrappers
  import opened JsonTree
  import Batch
  import BatchSerializer

  /** The exceptions the deserializer can see: Jackson's `InvalidDefinitionException`, and
      any other exception. The detail tells one exception from another. */
  datatype DeserializationError = InvalidDefinition(detail: string) | OtherError(detail: string)

  /** The parse exception `readValue` throws for tokens that are not one JSON value. */
  const Malformed := OtherError("malformed JSON")

  /** `ctxt.readValue(p, ArrayNode.class)`: the elements of the array at the front of the
      stream and the tokens after it. */
  function ReadArrayNode(p: seq<Token>, nonArray: Json -> DeserializationError): (r: Result<(seq<Json>, seq<Token>), DeserializationError>)
    ensures r.Success? <==> ParseValue(p).Some? && ParseValue(p).value.0.JArray?
    ensures r.Success? ==> r.value == (ParseValue(p).value.0.elements, ParseValue(p).value.1)
    ensures ParseValue(p).None? ==> r == Failure(Malformed)
  {
    match ParseValue(p)
    case None => Failure(Malformed)
    case Some((JArray(es), rest)) => Success((es, rest))
    case Some((j, _)) => Failure(nonArray(j))
  }

  /** The events the element loop adds before it stops, and the exception that stopped it
      (`None` when every element was deserialized). */
  datatype ElementsOutcome = ElementsOutcome(events: seq<Batch.Event>, failure: Option<DeserializationError>)

  /** Deserializes the elements in array order, stopping at the first exception. */
  function DeserializeElements(es: seq<Json>, fromNode: Json -> Result<Batch.Event, DeserializationError>): (o: ElementsOutcome)
    ensures |o.events| <= |es|
    ensures o.failure.None? ==> |o.events| == |es|
    ensures forall i :: 0 <= i < |o.events| ==> fromNode(es[i]) == Success(o.events[i])
    ensures o.failure.Some? ==> |o.events| < |es| && fromNode(es[|o.events|]) == Failure(o.failure.value)
  {
    if es == [] then ElementsOutcome([], None)
    else match fromNode(es[0])
      case Failure(x) => ElementsOutcome([], Some(x))
      case Success(e) =>
        var tail := DeserializeElements(es[1..], fromNode);
        ElementsOutcome([e] + tail.events, tail.failure)
  }

  /** The `catch` block: an `InvalidDefinitionException` gets one single-event read from
      where the parser stands, whose event is appended; if that read throws, or for any
      other exception, the original exception is thrown. */
  function Recover(added: seq<Batch.Event>, x: DeserializationError, remaining: seq<Token>,
                   fromParser: seq<Token> -> Result<Batch.Event, DeserializationError>): (r: Result<seq<Batch.Event>, DeserializationError>)
    ensures r.Failure? ==> r.error == x
    ensures r.Success? <==> x.InvalidDefinition? && fromParser(remaining).Success?
    ensures r.Success? ==> r.value == added + [fromParser(remaining).value]
  {
    if x.InvalidDefinition? then
      match fromParser(remaining)
      case Success(e) => Success(added + [e])
      case Failure(_) => Failure(x)
    else Failure(x)
  }

  /** The events of the batch `deserialize` returns, or the exception it throws. */
  function DeserializeSpec(p: seq<Token>, nonArray: Json -> DeserializationError,
                           fromNode: Json -> Result<Batch.Event, DeserializationError>,
                           fromParser: seq<Token> -> Result<Batch.Event, DeserializationError>): Result<seq<Batch.Event>, DeserializationError>
  {
    match ReadArrayNode(p, nonArray)
    case Failure(x) => Recover([], x, p, fromParser)
    case Success((es, rest)) =>
      var o := DeserializeElements(es, fromNode);
      match o.failure
      case None => Success(o.events)
      case Some(x) => Recover(o.events, x, rest, fromParser)
  }

  /** How many single-event fallback reads `deserialize` makes. */
  function FallbackAttempts(p: seq<Token>, nonArray: Json -> DeserializationError,
                            fromNode: Json -> Result<Batch.Event, DeserializationError>): nat
  {
    match ReadArrayNode(p, nonArray)
    case Failure(x) => if x.InvalidDefinition? then 1 else 0
    case Success((es, _)) =>
      var o := DeserializeElements(es, fromNode);
      if o.failure.Some? && o.failure.value.InvalidDefinition? then 1 else 0
  }

  class CloudEventBatchDeserializer {
    const nonArray: Json -> DeserializationError
    const fromNode: Json -> Result<Batch.Event, DeserializationError>
    const fromParser: seq<Token> -> Result<Batch.Event, DeserializationError>
    /** How many single-event reads this deserializer has made. */
    ghost var fallbackReads: nat

    constructor (nonArray: Json -> DeserializationError,
                 fromNode: Json -> Result<Batch.Event, DeserializationError>,
                 fromParser: seq<Token> -> Result<Batch.Event, DeserializationError>)
      ensures this.nonArray == nonArray && this.fromNode == fromNode && this.fromParser == fromParser
    {
      this.nonArray := nonArray;
      this.fromNode := fromNode;
      this.fromParser := fromParser;
      fallbackReads := 0;
    }

    /** `this.deserializer.deserialize(p, ctxt)`: one single-event read from `ts`. */
    method ReadSingleEvent(ts: seq<Token>) returns (r: Result<Batch.Event, DeserializationError>)
      modifies this
      ensures r == fromParser(ts)
      ensures fallbackReads == old(fallbackReads) + 1
    {
      fallbackReads := fallbackReads + 1;
      r := fromParser(ts);
    }

    /** The `catch` block for exception `x`, with the batch built so far: one single-event
        read for an `InvalidDefinitionException`, appended on success; otherwise `x`. */
    method Catch(batch: Batch.EventList, x: DeserializationError, remaining: seq<Token>)
      returns (failure: Option<DeserializationError>)
      modifies this, batch
      ensures fallbackReads == old(fallbackReads) + (if x.InvalidDefinition? then 1 else 0)
      ensures Recover(old(batch.elements), x, remaining, fromParser).Success? <==> failure.None?
      ensures failure.None? ==> batch.elements == Recover(old(batch.elements), x, remaining, fromParser).value
      ensures failure.Some? ==> failure.value == Recover(old(batch.elements), x, remaining, fromParser).error
      ensures failure.Some? ==> batch.elements == old(batch.elements)
    {
      if x.InvalidDefinition? {
        var single := ReadSingleEvent(remaining);
        match single
        case Success(e) =>
          var _ := batch.Add(e);
          failure := None;
        case Failure(_) =>
          failure := Some(x);
      } else {
        failure := Some(x);
      }
    }

    /** The `for` loop over the array's elements: appends each deserialized event in array
        order until an element throws. */
    method AddElements(batch: Batch.EventList, es: seq<Json>) returns (caught: Option<DeserializationError>)
      modifies batch
      ensures batch.elements == old(batch.elements) + DeserializeElements(es, fromNode).events
      ensures caught == DeserializeElements(es, fromNode).failure
    {
      ghost var o := DeserializeElements(es, fromNode);
      var i := 0;
      caught := None;
      while i < |es| && caught.None?
        invariant 0 <= i <= |es| && i <= |o.events|
        invariant forall k :: 0 <= k < i ==> fromNode(es[k]).Success?
        invariant caught.None? ==> batch.elements == old(batch.elements) + o.events[..i]
        invariant caught.Some? ==> o.failure == caught && batch.elements == old(batch.elements) + o.events
        decreases |es| - i, if caught.None? then 1 else 0
      {
        DeserializeElementsPrefix(es, fromNode, i);
        match fromNode(es[i])
        case Success(e) =>
          var _ := batch.Add(e);
          assert o.events[..i + 1] == o.events[..i] + [e];
          i := i + 1;
        case Failure(x) =>
          caught := Some(x);
          assert o.events[..i] == o.events;
      }
      if caught.None? {
        DeserializeElementsPrefix(es, fromNode, i);
        assert o.events[..i] == o.events;
      }
    }

    /** `deserialize`: the batch, a view over a fresh list, or the exception thrown. The
        single-event reads it makes are counted in `fallbackReads`. */
    method Deserialize(p: seq<Token>) returns (r: Result<Batch.CloudEventBatch, DeserializationError>)
      modifies this
      ensures DeserializeSpec(p, nonArray, fromNode, fromParser).Success? <==> r.Success?
      ensures r.Success? ==> fresh(r.value) && fresh(r.value.events)
      ensures r.Success? ==> r.value.events.elements == DeserializeSpec(p, nonArray, fromNode, fromParser).value
      ensures r.Failure? ==> r.error == DeserializeSpec(p, nonArray, fromNode, fromParser).error
      ensures fallbackReads == old(fallbackReads) + FallbackAttempts(p, nonArray, fromNode)
      ensures fallbackReads <= old(fallbackReads) + 1
    {
      var batch := new Batch.EventList();
      var failure: Option<DeserializationError>;
      var read := ReadArrayNode(p, nonArray);
      if read.Failure? {
        failure := Catch(batch, read.error, p);
      } else {
        var (es, rest) := read.value;
        var caught := AddElements(batch, es);
        if caught.None? {
          failure := None;
        } else {
          failure := Catch(batch, caught.value, rest);
        }
      }
      if failure.Some? {
        return Failure(failure.value);
      }
      var view := Batch.CloudEventBatch.From(batch);
      r := Success(view);
    }
  }

  /** Where the loop stands after `i` elements that all deserialized: the events so far are
      the first `i` of the outcome, and element `i` either adds the next one or is the one
      that stops the loop. */
  lemma DeserializeElementsPrefix(es: seq<Json>, fromNode: Json -> Result<Batch.Event, DeserializationError>, i: nat)
    requires i <= |es|
    requires forall k :: 0 <= k < i ==> fromNode(es[k]).Success?
    ensures i <= |DeserializeElements(es, fromNode).events|
    ensures i == |es| ==> DeserializeElements(es, fromNode).failure.None?
    ensures i < |es| && fromNode(es[i]).Failure? ==>
      |DeserializeElements(es, fromNode).events| == i
      && DeserializeElements(es, fromNode).failure == Some(fromNode(es[i]).error)
    ensures i < |es| && fromNode(es[i]).Success? ==> i < |DeserializeElements(es, fromNode).events|
  {
    var o := DeserializeElements(es, fromNode);
    if o.failure.Some? {
      assert fromNode(es[|o.events|]).Failure?;
    }
  }

  /** Every element deserializes: the batch holds one event per element, in array order,
      and no fallback read is made. */
  lemma AllElementsDeserialize(p: seq<Token>, nonArray: Json -> DeserializationError,
                               fromNode: Json -> Result<Batch.Event, DeserializationError>,
                               fromParser: seq<Token> -> Result<Batch.Event, DeserializationError>,
                               es: seq<Json>, rest: seq<Token>)
    requires ReadArrayNode(p, nonArray) == Success((es, rest))
    requires forall i :: 0 <= i < |es| ==> fromNode(es[i]).Success?
    ensures DeserializeSpec(p, nonArray, fromNode, fromParser).Success?
    ensures |DeserializeSpec(p, nonArray, fromNode, fromParser).value| == |es|
    ensures forall i :: 0 <= i < |es| ==>
      DeserializeSpec(p, nonArray, fromNode, fromParser).value[i] == fromNode(es[i]).value
    ensures FallbackAttempts(p, nonArray, fromNode) == 0
  {
    DeserializeElementsPrefix(es, fromNode, |es|);
  }

  /** Reading the array throws an `InvalidDefinitionException` and the single-event read
      succeeds: the batch is exactly that one event. */
  lemma ArrayReadFallsBack(p: seq<Token>, nonArray: Json -> DeserializationError,
                           fromNode: Json -> Result<Batch.Event, DeserializationError>,
                           fromParser: seq<Token> -> Result<Batch.Event, DeserializationError>,
                           x: DeserializationError, e: Batch.Event)
    requires ReadArrayNode(p, nonArray) == Failure(x) && x.InvalidDefinition?
    requires fromParser(p) == Success(e)
    ensures DeserializeSpec(p, nonArray, fromNode, fromParser) == Success([e])
    ensures FallbackAttempts(p, nonArray, fromNode) == 1
  {
    assert [] + [e] == [e];
  }

  /** A single event sent where a batch is expected: when `readValue` refuses the non-array
      value `j` with an `InvalidDefinitionException`, the fallback reads `j` itself, and the
      batch is the one event it yields. */
  lemma BareValueFallsBack(j: Json, rest: seq<Token>, nonArray: Json -> DeserializationError,
                           fromNode: Json -> Result<Batch.Event, DeserializationError>,
                           fromParser: seq<Token> -> Result<Batch.Event, DeserializationError>,
                           e: Batch.Event)
    requires !j.JArray? && nonArray(j).InvalidDefinition?
    requires fromParser(Tokens(j) + rest) == Success(e)
    ensures ReadArrayNode(Tokens(j) + rest, nonArray) == Failure(nonArray(j))
    ensures DeserializeSpec(Tokens(j) + rest, nonArray, fromNode, fromParser) == Success([e])
    ensures FallbackAttempts(Tokens(j) + rest, nonArray, fromNode) == 1
  {
    ParseTokens(j, rest);
    assert [] + [e] == [e];
  }

  /** An element throws an `InvalidDefinitionException` and the single-event read succeeds:
      the events already added stay, and the fallback's event follows them. */
  lemma ElementFallsBack(p: seq<Token>, nonArray: Json -> DeserializationError,
                         fromNode: Json -> Result<Batch.Event, DeserializationError>,
                         fromParser: seq<Token> -> Result<Batch.Event, DeserializationError>,
                         es: seq<Json>, rest: seq<Token>, i: nat, e: Batch.Event)
    requires ReadArrayNode(p, nonArray) == Success((es, rest))
    requires i < |es| && (forall k :: 0 <= k < i ==> fromNode(es[k]).Success?)
    requires fromNode(es[i]).Failure? && fromNode(es[i]).error.InvalidDefinition?
    requires fromParser(rest) == Success(e)
    ensures DeserializeSpec(p, nonArray, fromNode, fromParser).Success?
    ensures |DeserializeSpec(p, nonArray, fromNode, fromParser).value| == i + 1
    ensures forall k :: 0 <= k < i ==> DeserializeSpec(p, nonArray, fromNode, fromParser).value[k] == fromNode(es[k]).value
    ensures DeserializeSpec(p, nonArray, fromNode, fromParser).value[i] == e
    ensures FallbackAttempts(p, nonArray, fromNode) == 1
  {
    DeserializeElementsPrefix(es, fromNode, i);
  }

  /** Whatever the fallback read throws, the exception thrown is never the fallback's: it is
      the one from reading the array, or the one from the first element that failed. */
  lemma ThrowsOriginalException(p: seq<Token>, nonArray: Json -> DeserializationError,
                                fromNode: Json -> Result<Batch.Event, DeserializationError>,
                                fromParser: seq<Token> -> Result<Batch.Event, DeserializationError>)
    ensures DeserializeSpec(p, nonArray, fromNode, fromParser).Failure? ==>
      (ReadArrayNode(p, nonArray).Failure?
       && DeserializeSpec(p, nonArray, fromNode, fromParser).error == ReadArrayNode(p, nonArray).error)
      || (ReadArrayNode(p, nonArray).Success?
          && DeserializeElements(ReadArrayNode(p, nonArray).value.0, fromNode).failure
             == Some(DeserializeSpec(p, nonArray, fromNode, fromParser).error))
  {
  }

  /** An exception other than `InvalidDefinitionException`, from the array read or from an
      element, is thrown as it is, with no fallback read. */
  lemma OtherExceptionsPropagate(p: seq<Token>, nonArray: Json -> DeserializationError,
                                 fromNode: Json -> Result<Batch.Event, DeserializationError>,
                                 fromParser: seq<Token> -> Result<Batch.Event, DeserializationError>,
                                 x: DeserializationError)
    requires !x.InvalidDefinition?
    requires ReadArrayNode(p, nonArray) == Failure(x)
             || (ReadArrayNode(p, nonArray).Success?
                 && DeserializeElements(ReadArrayNode(p, nonArray).value.0, fromNode).failure == Some(x))
    ensures DeserializeSpec(p, nonArray, fromNode, fromParser) == Failure(x)
    ensures FallbackAttempts(p, nonArray, fromNode) == 0
  {
  }

  /** Round trip of the batch format: when the single-event deserializer reads back what the
      single-event serializer writes, deserializing the serializer's output gives the same
      events in the same order, and the parser stops right after the array. */
  lemma {:induction false} SerializeThenDeserialize(events: seq<Batch.Event>, rest: seq<Token>,
                                                    serializer: Batch.Event -> Json,
                                                    nonArray: Json -> DeserializationError,
                                                    fromNode: Json -> Result<Batch.Event, DeserializationError>,
                                                    fromParser: seq<Token> -> Result<Batch.Event, DeserializationError>)
    requires forall e :: fromNode(serializer(e)) == Success(e)
    ensures ReadArrayNode(Tokens(JArray(BatchSerializer.Serialized(events, serializer))) + rest, nonArray)
            == Success((BatchSerializer.Serialized(events, serializer), rest))
    ensures DeserializeSpec(Tokens(JArray(BatchSerializer.Serialized(events, serializer))) + rest,
                            nonArray, fromNode, fromParser) == Success(events)
  {
    var js := BatchSerializer.Serialized(events, serializer);
    ParseTokens(JArray(js), rest);
    DeserializeElementsPrefix(js, fromNode, |js|);
    var o := DeserializeElements(js, fromNode);
    assert forall i :: 0 <= i < |events| ==> o.events[i] == events[i] by {
      forall i | 0 <= i < |events| ensures o.events[i] == events[i] {
        assert fromNode(js[i]) == Success(o.events[i]);
        assert js[i] == serializer(events[i]);
      }
    }
    assert o.events == events;
    assert ReadArrayNode(Tokens(JArray(js)) + rest, nonArray) == Success((js, rest));
  }
}
