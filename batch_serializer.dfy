/** `CloudEventBatchSerializer`: the JSON batch format of the CloudEvents JSON Event Format
    (section 4): a batch is written as one JSON array whose elements are the single-event
    JSON forms of the batch's events, in iteration order. The single-event serializer is
    not part of this model; it is the function `serializer`. */
module BatchSerializer {
  import opened JsonTree
  import Batch

  /** The single-event forms of `events`, in order. */
  function Serialized(events: seq<Batch.Event>, serializer: Batch.Event -> Json): seq<Json> {
    seq(|events|, i requires 0 <= i < |events| => serializer(events[i]))
  }

  class CloudEventBatchSerializer {
    const serializer: Batch.Event -> Json

    constructor (serializer: Batch.Event -> Json)
      ensures this.serializer == serializer
    {
      this.serializer := serializer;
    }

    /** `serialize`: a start-array token, each event's form in the batch's iteration order,
        an end-array token. The batch's `getEvents()` is its own iteration here. */
    method Serialize(value: Batch.CloudEventBatch, gen: JsonGenerator)
      modifies gen
      ensures gen.tokens == old(gen.tokens) + Tokens(JArray(Serialized(value.events.elements, serializer)))
    {
      gen.WriteStartArray();
      ghost var events := value.events.elements;
      var it := value.Iterator();
      var more := it.HasNext();
      while more
        invariant it.list == value.events && value.events.elements == events
        invariant it.cursor <= |events| && (more <==> it.cursor < |events|)
        invariant gen.tokens == old(gen.tokens) + [StartArray]
                                + ElementsTokens(Serialized(events[..it.cursor], serializer))
        decreases |events| - it.cursor
      {
        ghost var done := events[..it.cursor];
        var e := it.Next();
        assert events[..it.cursor] == done + [e];
        assert Serialized(done + [e], serializer) == Serialized(done, serializer) + [serializer(e)];
        ElementsTokensAppend(Serialized(done, serializer), serializer(e));
        gen.WriteTree(serializer(e));
        more := it.HasNext();
      }
      assert events[..it.cursor] == events;
      gen.WriteEndArray();
    }
  }

  /** What `Serialize` writes for `events` is one array and nothing after it; it has exactly
      as many elements as there are events, and element `i` is the form of event `i`. */
  lemma SerializedBatchIsOneArray(events: seq<Batch.Event>, serializer: Batch.Event -> Json)
    ensures ParseValue(Tokens(JArray(Serialized(events, serializer)))).Some?
    ensures ParseValue(Tokens(JArray(Serialized(events, serializer)))).value.1 == []
    ensures ParseValue(Tokens(JArray(Serialized(events, serializer)))).value.0.JArray?
    ensures |ParseValue(Tokens(JArray(Serialized(events, serializer)))).value.0.elements| == |events|
    ensures forall i :: 0 <= i < |events| ==>
      ParseValue(Tokens(JArray(Serialized(events, serializer)))).value.0.elements[i] == serializer(events[i])
  {
    var ts := Tokens(JArray(Serialized(events, serializer)));
    ParseTokens(JArray(Serialized(events, serializer)), []);
    assert ts + [] == ts;
  }

  /** The output always opens and closes one array. */
  lemma SerializedBatchIsFramed(events: seq<Batch.Event>, serializer: Batch.Event -> Json)
    ensures Tokens(JArray(Serialized(events, serializer)))[0] == StartArray
    ensures Tokens(JArray(Serialized(events, serializer)))[|Tokens(JArray(Serialized(events, serializer)))| - 1] == EndArray
  {
  }

  /** An empty batch is written as an empty array. */
  lemma EmptyBatchIsEmptyArray(serializer: Batch.Event -> Json)
    ensures Tokens(JArray(Serialized([], serializer))) == [StartArray, EndArray]
  {
    assert Serialized([], serializer) == [];
  }
}
