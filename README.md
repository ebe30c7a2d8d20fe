# CloudEvents Java SDK core, modelled in Dafny

This project models the in-memory core of the CloudEvents Java SDK and proves properties of it:

- the version 1.0 event envelope `CloudEventV1`: attribute lookup by name, the attribute visitor, `equals` and `hashCode`;
- the two event data wrappers:
  - `StringCloudEventData`, whose bytes are the UTF-8 encoding of its string (section 3 of RFC 3629);
  - `ByteBufferCloudEventData`, a window over a `java.nio.ByteBuffer`;
- the extension registry `ExtensionProvider`;
- the batch view `CloudEventBatch.from`, which forwards every `Collection` operation to the wrapped list;
- the JSON batch framing of section 4 of the CloudEvents JSON Event Format:
  - `CloudEventBatchSerializer` writes one array of single-event forms;
  - `CloudEventBatchDeserializer` reads that array back, with its one-shot single-event fallback.

Modules, one file each:

| file | module | what it holds |
|---|---|---|
| `wrappers.dfy` | `Wrappers` | `Option`, `Result` and `Outcome`; `EqualsArg`, the argument of an `equals(Object)`: `null`, an object of the same class, or an object of another class |
| `values.dfy` | `Values` | bytes, URIs, timestamps, attribute and extension values |
| `cloud_event_v1.dfy` | `V1` | the event as a datatype, `getAttribute`, `visitAttributes` (imperative, against a recording visitor class), `equals`, `hashCode` |
| `utf8.dfy` | `Utf8` | the UTF-8 encoder `String.getBytes(UTF_8)` and a validating decoder paired with it |
| `string_data.dfy` | `StringData` | `StringCloudEventData` as a datatype |
| `byte_buffer_data.dfy` | `ByteBufferData` | `ByteBuffer` as a class over an `array`, and `ByteBufferCloudEventData` as a class holding a reference to one |
| `extension_provider.dfy` | `Provider` | the registry as a class with a mutable map |
| `event_batch.dfy` | `Batch` | the `ArrayList` a batch wraps (a class over a `seq`), its iterator, and the forwarding batch view |
| `json_tree.dfy` | `JsonTree` | JSON values, the token stream a streaming generator writes, and a parser that reads one value back |
| `batch_serializer.dfy` | `BatchSerializer` | the serializer's framing loop |
| `batch_deserializer.dfy` | `BatchDeserializer` | the deserializer's array loop and fallback, specified by a function |

Modelling choices:

- Values without mutators are datatypes: the event, the string data, and JSON.
- Objects whose state changes or is shared are classes with `modifies` and `reads` frames: the byte buffer, the extension registry, the list, the iterator, the batch, the generator and the visitor.
- `equals(Object)` takes an `EqualsArg`, so the `null` and other-class branches stay visible.
- `hashCode` takes the hash function it combines with (`Objects.hash`, `String.hashCode`, `ByteBuffer.hashCode`) as a parameter. The lemmas about it hold for every such function.
- The single-event JSON serializer and deserializers are parameters, as are the `readFrom` methods of the two built-in extensions. Their code is not part of this model.

## Model

| member | source | states |
|---|---|---|
| V1.GetSpecVersion | core/src/main/java/io/cloudevents/core/v1/CloudEventV1.java:61-63 | the spec version of a `CloudEventV1` is always 1.0 |
| V1.GetAttribute | core/src/main/java/io/cloudevents/core/v1/CloudEventV1.java:96-114 | throws `NoSuchAttribute(name)` exactly when `name` is none of the seven lower-case attribute names; for a known name, returns that attribute's stored field, `null` included |
| V1.Visits | core/src/main/java/io/cloudevents/core/v1/CloudEventV1.java:122-158 | the calls `visitAttributes` makes: id, source and type always, then each optional attribute whose field is non-null, in that order (its properties are the lemmas below) |
| V1.NameInjective | core/src/main/java/io/cloudevents/core/v1/CloudEventV1.java:122-158 | helper for `V1.VisitNamesDistinct`: the lower-cased enum names used as visitor keys are distinct for distinct attributes |
| V1.VisitsFollowEnumOrder | core/src/main/java/io/cloudevents/core/v1/CloudEventV1.java:122-158 | the visit sequence equals the reference walk over the attributes in enum order (id, source, type, datacontenttype, dataschema, subject, time), skipping unset ones |
| V1.PresentInOrderMembers | core/src/main/java/io/cloudevents/core/v1/CloudEventV1.java:135-158 | a visit in the reference walk carries its attribute's stored value, and every set attribute in the walk is visited |
| V1.VisitedIffPresent | core/src/main/java/io/cloudevents/core/v1/CloudEventV1.java:122-158 | an attribute is visited iff its field is non-null; id, source and type are always visited |
| V1.PresentInOrderDistinct | core/src/main/java/io/cloudevents/core/v1/CloudEventV1.java:122-158 | walking distinct attributes visits each name at most once |
| V1.VisitNamesDistinct | core/src/main/java/io/cloudevents/core/v1/CloudEventV1.java:122-158 | no attribute name is visited twice, and every visited name is an attribute name |
| V1.VisitAgreesWithGetAttribute | core/src/main/java/io/cloudevents/core/v1/CloudEventV1.java:96-158 | the value passed for each visited name is exactly what `getAttribute` returns for that name |
| V1.CompleteVisit | core/src/main/java/io/cloudevents/core/v1/CloudEventV1.java:122-158 | a visit completes without exception iff the visitor accepts every call; an exception names a refused attribute |
| V1.RecordingVisitor.SetAttribute | core/src/main/java/io/cloudevents/core/v1/CloudEventV1.java:123-126 | a writer call either records the attribute or throws for a name the writer refuses, leaving its log unchanged |
| V1.VisitAttributes | core/src/main/java/io/cloudevents/core/v1/CloudEventV1.java:122-159 | the visitor receives the calls in order up to the first one it refuses; the method's outcome is that refusal, or success when there is none |
| V1.ArraysEqualsIsEquality | core/src/main/java/io/cloudevents/core/v1/CloudEventV1.java:173 | `Arrays.equals` on the data (nulls included) is equality of contents |
| V1.Equals | core/src/main/java/io/cloudevents/core/v1/CloudEventV1.java:161-175 | `null` and other classes are unequal; otherwise the nine fields are compared, the data with `Arrays.equals` (proved to be value equality by `V1.EqualsIsStructural`) |
| V1.EqualsIsStructural | core/src/main/java/io/cloudevents/core/v1/CloudEventV1.java:161-175 | two events are `equals` iff all nine fields agree |
| V1.EqualsIsEquivalence | core/src/main/java/io/cloudevents/core/v1/CloudEventV1.java:161-175 | `equals` is reflexive and symmetric; `null` and other classes are unequal |
| V1.HashCode | core/src/main/java/io/cloudevents/core/v1/CloudEventV1.java:177-180 | the hash combines the nine fields that `equals` compares (proved consistent with `equals` by `V1.EqualEventsHashEqually`) |
| V1.EqualEventsHashEqually | core/src/main/java/io/cloudevents/core/v1/CloudEventV1.java:161-180 | equal events hash equally, whatever the combining hash function |
| Utf8.EncodeScalar | core/src/main/java/io/cloudevents/core/data/StringCloudEventData.java:28-30 | each scalar value becomes one to four octets by the ranges of RFC 3629, with continuation octets after the first |
| Utf8.DecodeEncode | core/src/main/java/io/cloudevents/core/data/StringCloudEventData.java:28-30 | decoding the UTF-8 encoding of any string gives the string back |
| Utf8.EncodeInjective | core/src/main/java/io/cloudevents/core/data/StringCloudEventData.java:28-30 | two strings have the same encoding iff they are the same string |
| Utf8.EncodeLength | core/src/main/java/io/cloudevents/core/data/StringCloudEventData.java:28-30 | the encoding is between one and four times as long as the string |
| Utf8.AsciiEncodesToItself | core/src/main/java/io/cloudevents/core/data/StringCloudEventData.java:28-30 | an ASCII string encodes to its own character codes, one octet each |
| StringData.Wrap | core/src/main/java/io/cloudevents/core/data/StringCloudEventData.java:18-21 | `wrap(null)` throws `NullPointerException`; any other string is wrapped and `getValue` returns it |
| StringData.GetValue | core/src/main/java/io/cloudevents/core/data/StringCloudEventData.java:23-25 | the wrapped string itself (see `StringData.GetValueOfWrap`) |
| StringData.GetValueOfWrap | core/src/main/java/io/cloudevents/core/data/StringCloudEventData.java:23-25 | wrapping a string then reading it back gives the same string |
| StringData.ToBytes | core/src/main/java/io/cloudevents/core/data/StringCloudEventData.java:28-30 | the bytes decode, as UTF-8, back to the value; they number between one and four per character |
| StringData.Equals | core/src/main/java/io/cloudevents/core/data/StringCloudEventData.java:32-38 | same class and equal strings; `null` and other classes are unequal (proved iff equal bytes by `StringData.EqualsAgreesWithBytes`) |
| StringData.HashCode | core/src/main/java/io/cloudevents/core/data/StringCloudEventData.java:40-43 | the string's own hash (equal for equal wrappers, by `StringData.EqualsAgreesWithBytes`) |
| StringData.EqualsAgreesWithBytes | core/src/main/java/io/cloudevents/core/data/StringCloudEventData.java:28-43 | wrappers are equal iff their strings are iff their bytes are; equal wrappers hash equally; `null` and other classes are unequal |
| StringData.AsciiBytes | core/src/main/java/io/cloudevents/core/data/StringCloudEventData.java:28-30 | an ASCII value's bytes are its character codes |
| ByteBufferData.ByteBuffer.Duplicate | core/src/main/java/io/cloudevents/core/data/ByteBufferCloudEventData.java:25 | a fresh buffer over the same array, with the same position, limit and read-only flag |
| ByteBufferData.ByteBuffer.AsReadOnlyBuffer | core/src/main/java/io/cloudevents/core/data/ByteBufferCloudEventData.java:33 | a fresh read-only buffer over the same array with the same window |
| ByteBufferData.ByteBuffer.Get | core/src/main/java/io/cloudevents/core/data/ByteBufferCloudEventData.java:27 | underflow, with nothing changed, iff the array is longer than what remains; otherwise the array gets the next bytes and the cursor advances by its length |
| ByteBufferData.BufferEquals | core/src/main/java/io/cloudevents/core/data/ByteBufferCloudEventData.java:41 | `ByteBuffer.equals`: the same buffer, or as many remaining bytes, equal position by position (proved to be content equality by `ByteBufferData.BufferEqualsIsContentEquality`) |
| ByteBufferData.BufferEqualsIsContentEquality | core/src/main/java/io/cloudevents/core/data/ByteBufferCloudEventData.java:41 | two buffers are `equals` iff their remaining bytes are the same |
| ByteBufferData.ByteBufferCloudEventData.Wrap | core/src/main/java/io/cloudevents/core/data/ByteBufferCloudEventData.java:18-21 | `wrap(null)` throws `NullPointerException`; otherwise the wrapper holds the caller's buffer itself, not a copy |
| ByteBufferData.ByteBufferCloudEventData.ToBytes | core/src/main/java/io/cloudevents/core/data/ByteBufferCloudEventData.java:24-29 | a fresh array holding exactly the remaining bytes; no existing object changes, so the wrapped buffer's position stays put |
| ByteBufferData.ByteBufferCloudEventData.ToByteBuffer | core/src/main/java/io/cloudevents/core/data/ByteBufferCloudEventData.java:32-34 | a fresh read-only view sharing the array, with the same remaining bytes |
| ByteBufferData.ByteBufferCloudEventData.Equals | core/src/main/java/io/cloudevents/core/data/ByteBufferCloudEventData.java:37-42 | the same wrapper or equal buffers; `null` and other classes are unequal (see `ByteBufferData.EqualsIsContentEquality`) |
| ByteBufferData.ByteBufferCloudEventData.HashCode | core/src/main/java/io/cloudevents/core/data/ByteBufferCloudEventData.java:44-47 | the hash of the remaining bytes (equal for equal wrappers, by `ByteBufferData.EqualsIsContentEquality`) |
| ByteBufferData.EqualsIsContentEquality | core/src/main/java/io/cloudevents/core/data/ByteBufferCloudEventData.java:37-47 | wrappers are equal iff their remaining bytes are; equal wrappers hash equally; `null` and other classes are unequal |
| Provider.Create | core/src/main/java/io/cloudevents/core/provider/ExtensionProvider.java:55 | `factory.get()` throws exactly when the factory does, with its exception; otherwise a fresh, empty extension of the factory's class |
| Provider.Extension.ReadFrom | core/src/main/java/io/cloudevents/core/provider/ExtensionProvider.java:56 | throws exactly when the class's reading fails on the event, leaving the extension unchanged; otherwise the extension holds what its class reads from the event |
| Provider.ParseOutcome | core/src/main/java/io/cloudevents/core/provider/ExtensionProvider.java:52-60 | the result is `null` exactly when the class has no key or a `null` factory; an exception only comes from a registered factory's `get()` or `readFrom` |
| Provider.ExtensionProvider.constructor | core/src/main/java/io/cloudevents/core/provider/ExtensionProvider.java:41-45 | the registry holds exactly the two built-in extensions, distributed tracing and dataref, each with its own factory |
| Provider.ExtensionProvider.RegisterExtension | core/src/main/java/io/cloudevents/core/provider/ExtensionProvider.java:47-49 | the class now maps to the factory, replacing any earlier one; every other entry is unchanged |
| Provider.ExtensionProvider.ParseExtension | core/src/main/java/io/cloudevents/core/provider/ExtensionProvider.java:52-60 | `null` iff `get` finds no factory (an absent key or a `null` value); the exception of `get()` or `readFrom` when one throws; otherwise a fresh extension of the factory's class holding what it read from the event; the registry is unchanged |
| Provider.RegisterThenParse | core/src/main/java/io/cloudevents/core/provider/ExtensionProvider.java:47-60 | a parse right after a registration uses the registered factory: its extension, or the exception its `get()` or `readFrom` throws |
| Provider.RegisterNullThenParse | core/src/main/java/io/cloudevents/core/provider/ExtensionProvider.java:47-60 | after registering `null` for a class, the class is a key, yet parsing it returns `null` |
| Provider.ParseOutcomeOfRegistered | core/src/main/java/io/cloudevents/core/provider/ExtensionProvider.java:47-60 | registering a factory that creates and reads without throwing makes parsing its class yield exactly the fields it reads; parsing any other class is unaffected |
| Batch.RemoveFirstAt | api/src/main/java/io/cloudevents/CloudEventBatch.java:50-52 | cutting out the first occurrence found at an index is removing the first occurrence |
| Batch.RemoveFirstRemovesOne | api/src/main/java/io/cloudevents/CloudEventBatch.java:50-52 | `remove(o)` takes away exactly one occurrence when there is one, and leaves the list as it was otherwise |
| Batch.FilterAppend | api/src/main/java/io/cloudevents/CloudEventBatch.java:65-72 | filtering keeps relative order: it distributes over concatenation |
| Batch.FilterCounts | api/src/main/java/io/cloudevents/CloudEventBatch.java:65-72 | a filter keeps every element whose membership in `c` matches, as often as it occurs, and nothing else |
| Batch.RetainAndRemovePartition | api/src/main/java/io/cloudevents/CloudEventBatch.java:65-72 | what `retainAll(c)` keeps and what `removeAll(c)` keeps make up the whole list |
| Batch.EventList.IndexOf | api/src/main/java/io/cloudevents/CloudEventBatch.java:25-27 | the first index holding an element `equals` to `o`, or -1 iff there is none |
| Batch.EventList.ContainsAll | api/src/main/java/io/cloudevents/CloudEventBatch.java:55-57 | true iff every element of `c` is in the list |
| Batch.EventList.BatchRemove | api/src/main/java/io/cloudevents/CloudEventBatch.java:65-72 | keeps, in order, the elements whose membership in `c` equals the flag; reports whether the size changed |
| Batch.ListIterator.Next | api/src/main/java/io/cloudevents/CloudEventBatch.java:30-32 | yields the element at the cursor and advances the cursor by one |
| Batch.CloudEventBatch.From | api/src/main/java/io/cloudevents/CloudEventBatch.java:12-13 | a fresh batch whose backing list is the caller's list, not a copy |
| Batch.CloudEventBatch.Size | api/src/main/java/io/cloudevents/CloudEventBatch.java:15-17 | the size of the wrapped list |
| Batch.CloudEventBatch.IsEmpty | api/src/main/java/io/cloudevents/CloudEventBatch.java:20-22 | true iff the wrapped list has no elements |
| Batch.CloudEventBatch.Contains | api/src/main/java/io/cloudevents/CloudEventBatch.java:25-27 | true iff the wrapped list holds an element equal to `o` |
| Batch.CloudEventBatch.Iterator | api/src/main/java/io/cloudevents/CloudEventBatch.java:30-32 | the wrapped list's own iterator, at its first element |
| Batch.CloudEventBatch.ToArray | api/src/main/java/io/cloudevents/CloudEventBatch.java:35-37 | a fresh array with the list's elements in order |
| Batch.CloudEventBatch.Add | api/src/main/java/io/cloudevents/CloudEventBatch.java:45-47 | the wrapped list gains `e` at its end, every earlier element stays, and the call reports a change |
| Batch.CloudEventBatch.Remove | api/src/main/java/io/cloudevents/CloudEventBatch.java:50-52 | true iff `o` was in the wrapped list, which loses its first occurrence of `o` |
| Batch.CloudEventBatch.ContainsAll | api/src/main/java/io/cloudevents/CloudEventBatch.java:55-57 | true iff every element of `c` is in the wrapped list |
| Batch.CloudEventBatch.AddAll | api/src/main/java/io/cloudevents/CloudEventBatch.java:60-62 | the wrapped list gains `c` at its end, in order; a change iff `c` is not empty |
| Batch.CloudEventBatch.RemoveAll | api/src/main/java/io/cloudevents/CloudEventBatch.java:65-67 | the wrapped list keeps, in order, the elements not in `c` |
| Batch.CloudEventBatch.RetainAll | api/src/main/java/io/cloudevents/CloudEventBatch.java:70-72 | the wrapped list keeps, in order, the elements in `c` |
| Batch.CloudEventBatch.Clear | api/src/main/java/io/cloudevents/CloudEventBatch.java:75-77 | the wrapped list is empty |
| Batch.ViewWritesThrough | api/src/main/java/io/cloudevents/CloudEventBatch.java:7-47 | a change through the batch is seen in the list, and one made to the list is seen through the batch: the batch is a view, not a read-only copy |
| JsonTree.ParseValue | formats/json-jackson/src/main/java/io/cloudevents/jackson/CloudEventBatchDeserializer.java:29 | reading a value always consumes at least one token; what it reads back is fixed by `JsonTree.ParseTokens` |
| JsonTree.ParseTokens | formats/json-jackson/src/main/java/io/cloudevents/jackson/CloudEventBatchDeserializer.java:29 | reading what was written for a value gives that value back and stops right after it |
| JsonTree.ElementsTokensAppend | formats/json-jackson/src/main/java/io/cloudevents/jackson/CloudEventBatchSerializer.java:22-24 | writing one more element appends that element's tokens |
| JsonTree.JsonGenerator.WriteStartArray | formats/json-jackson/src/main/java/io/cloudevents/jackson/CloudEventBatchSerializer.java:21 | appends a start-array token |
| JsonTree.JsonGenerator.WriteEndArray | formats/json-jackson/src/main/java/io/cloudevents/jackson/CloudEventBatchSerializer.java:25 | appends an end-array token |
| JsonTree.JsonGenerator.WriteTree | formats/json-jackson/src/main/java/io/cloudevents/jackson/CloudEventBatchSerializer.java:23 | appends the tokens of one whole value, as the single-event serializer writes one event |
| BatchSerializer.CloudEventBatchSerializer.Serialize | formats/json-jackson/src/main/java/io/cloudevents/jackson/CloudEventBatchSerializer.java:20-26 | the generator receives exactly the tokens of one array whose elements are the events' forms, in iteration order |
| BatchSerializer.SerializedBatchIsOneArray | formats/json-jackson/src/main/java/io/cloudevents/jackson/CloudEventBatchSerializer.java:21-25 | the output reads back as one array, with nothing after it, of exactly N elements, element `i` being the form of event `i` |
| BatchSerializer.SerializedBatchIsFramed | formats/json-jackson/src/main/java/io/cloudevents/jackson/CloudEventBatchSerializer.java:21-25 | the output starts with a start-array token and ends with an end-array token |
| BatchSerializer.EmptyBatchIsEmptyArray | formats/json-jackson/src/main/java/io/cloudevents/jackson/CloudEventBatchSerializer.java:21-25 | an empty batch is written as an empty array |
| BatchDeserializer.ReadArrayNode | formats/json-jackson/src/main/java/io/cloudevents/jackson/CloudEventBatchDeserializer.java:29 | succeeds iff the input starts with an array, giving its elements and what follows; input that is not JSON is a parse error |
| BatchDeserializer.DeserializeElements | formats/json-jackson/src/main/java/io/cloudevents/jackson/CloudEventBatchDeserializer.java:30-32 | the events added are the deserialized elements in array order up to the first exception; without one, there is one event per element |
| BatchDeserializer.Recover | formats/json-jackson/src/main/java/io/cloudevents/jackson/CloudEventBatchDeserializer.java:33-38 | an exception is always the original one; success iff the exception is an `InvalidDefinitionException` and the single-event read succeeds, and then the events already added are followed by the read event |
| BatchDeserializer.DeserializeSpec | formats/json-jackson/src/main/java/io/cloudevents/jackson/CloudEventBatchDeserializer.java:26-41 | the events of the batch `deserialize` returns, or the exception it throws (its properties are the lemmas below) |
| BatchDeserializer.CloudEventBatchDeserializer.ReadSingleEvent | formats/json-jackson/src/main/java/io/cloudevents/jackson/CloudEventBatchDeserializer.java:35 | the single-event read of the given tokens, adding one to the count of reads made |
| BatchDeserializer.CloudEventBatchDeserializer.Catch | formats/json-jackson/src/main/java/io/cloudevents/jackson/CloudEventBatchDeserializer.java:33-38 | for an `InvalidDefinitionException`, one single-event read, counted, whose event is appended; if that read throws, or for any other exception and with no read, the original exception, with the batch unchanged |
| BatchDeserializer.CloudEventBatchDeserializer.AddElements | formats/json-jackson/src/main/java/io/cloudevents/jackson/CloudEventBatchDeserializer.java:30-32 | the loop appends the deserialized elements in order and stops at the first exception |
| BatchDeserializer.CloudEventBatchDeserializer.Deserialize | formats/json-jackson/src/main/java/io/cloudevents/jackson/CloudEventBatchDeserializer.java:26-41 | returns a batch over a fresh list holding the specified events, or throws the specified exception; the count of single-event reads it makes is at most one, and one exactly when an `InvalidDefinitionException` was caught |
| BatchDeserializer.AllElementsDeserialize | formats/json-jackson/src/main/java/io/cloudevents/jackson/CloudEventBatchDeserializer.java:27-32 | an array of N elements that all deserialize gives N events in array order, and no fallback read |
| BatchDeserializer.ArrayReadFallsBack | formats/json-jackson/src/main/java/io/cloudevents/jackson/CloudEventBatchDeserializer.java:27-35 | when reading the array throws `InvalidDefinitionException` and the single-event read of the same input succeeds, the batch is exactly that one event, after one fallback read |
| BatchDeserializer.BareValueFallsBack | formats/json-jackson/src/main/java/io/cloudevents/jackson/CloudEventBatchDeserializer.java:27-35 | a single value sent instead of an array, refused with `InvalidDefinitionException`, is read by the fallback itself, and the batch is the one event it yields |
| BatchDeserializer.ElementFallsBack | formats/json-jackson/src/main/java/io/cloudevents/jackson/CloudEventBatchDeserializer.java:30-35 | when element `i` throws `InvalidDefinitionException`, the `i` events already added stay and the fallback's event follows them |
| BatchDeserializer.ThrowsOriginalException | formats/json-jackson/src/main/java/io/cloudevents/jackson/CloudEventBatchDeserializer.java:33-38 | an exception thrown is always the array read's or the first failing element's, never the fallback's |
| BatchDeserializer.OtherExceptionsPropagate | formats/json-jackson/src/main/java/io/cloudevents/jackson/CloudEventBatchDeserializer.java:28-33 | any other exception, from the array read or an element, is thrown unchanged with no fallback read |
| BatchDeserializer.SerializeThenDeserialize | formats/json-jackson/src/main/java/io/cloudevents/jackson/CloudEventBatchDeserializer.java:29-32 | if the single-event deserializer reads back what the single-event serializer writes, deserializing a serialized batch gives the same events in the same order |

## Left out

- `ExtensionProvider.getInstance` and its lazily initialised singleton holder: a Dafny module-level constant cannot hold a class instance. Callers hold a provider built by its constructor instead.
- V1.CloudEventV1: the Java constructor accepts `null` for `id`, `source` and `type`. The model makes these three fields non-optional, as version 1.0 of the CloudEvents specification requires them. The other four attributes and the data may be absent.
- V1.GetAttribute: the name cannot be `null`, so the `NullPointerException` that `switch` on a `null` string throws is not modelled.
- V1.Equals compares extension values and URIs by value. In Java, a `byte[]` extension value would be compared by identity (map equality uses `Object.equals`), and `URI.equals` ignores case in the scheme and host. Neither difference is modelled.
- Getters of `CloudEventV1` (`getId`, `getSource` and the rest) are the datatype's fields. `getAttributeNames` returns a constant set defined outside the core and is not modelled.
- Batch.EventList.Contains, Batch.EventList.Remove, Batch.CloudEventBatch.Contains and Batch.CloudEventBatch.Remove take an event rather than any `Object`. Arguments of other classes and `null` are not modelled; the list would just report them absent.
- Batch.EventList.ContainsAll, Batch.EventList.AddAll, Batch.EventList.RemoveAll, Batch.EventList.RetainAll, Batch.CloudEventBatch.ContainsAll, Batch.CloudEventBatch.AddAll, Batch.CloudEventBatch.RemoveAll and Batch.CloudEventBatch.RetainAll take a sequence of events rather than a `Collection<?>`. A `null` collection, which throws `NullPointerException` in Java, is not modelled. Neither is a collection holding objects that are not events, for which `containsAll` returns false.
- Batch.CloudEventBatch: `toArray(T[] a)` is not modelled, since it depends on Java's runtime array types.
- Batch.CloudEventBatch.Size: collection sizes are unbounded integers, so `size()` saturating at `Integer.MAX_VALUE` is not modelled.
- Batch.ListIterator.Next requires an element to remain. `NoSuchElementException` and fail-fast `ConcurrentModificationException` are not modelled.
- BatchSerializer.CloudEventBatchSerializer.Serialize: the serializer calls `value.getEvents()`, which `CloudEventBatch` does not declare, because `CloudEventBatch` is itself a `Collection`. The model iterates over the batch itself.
- Jackson internals are not modelled: `JsonParser`, `DeserializationContext.readValue`, number and string formats, and which JSON shapes raise `InvalidDefinitionException` rather than another exception.
- BatchSerializer.CloudEventBatchSerializer.Serialize: a single-event serializer that throws part-way is not modelled. In Java the generator then keeps the start-array token and the elements written before the failure.
- Batch.Event is `CloudEventV1`. A batch of events of other spec versions (such as 0.3) is not modelled.
- Provider.ExtensionProvider.ParseExtension takes a `CloudEventV1`, as do `Provider.Extension.ReadFrom` and a `Supplier`'s reading. Java's `parseExtension` accepts an event of any spec version, and events of other versions are not modelled.
- The exception a non-array value raises is the parameter `nonArray`. The single-event (de)serializers are the parameters `serializer`, `fromNode` and `fromParser`, and each is assumed to write one complete JSON value.
- BatchDeserializer.DeserializeSpec: after a failed array read the fallback reads the whole input, as `readValue` throws before consuming the value; after a failed element it reads the tokens after the array. Jackson's exact parser position is not otherwise modelled.
- The `readFrom`/`writeTo` code of the concrete extensions (`DistributedTracingExtension`, `DatarefExtension`) is not part of this model. Their reading is a parameter of the provider's constructor that yields the fields read or the exception thrown.
- V1.HashCode, StringData.HashCode and ByteBufferData.ByteBufferCloudEventData.HashCode: concrete hash arithmetic (`Objects.hash`, `String.hashCode`, `ByteBuffer.hashCode`) is not modelled. The hash function is a parameter, and only "equal implies equal hash" is proved.
- Strings are sequences of Unicode scalar values. Java's UTF-16 code units and lone surrogates, which `getBytes(UTF_8)` replaces with `?`, are not modelled.
- `synchronized` on `ByteBufferCloudEventData.toBytes`, and all concurrency, are not modelled.
- `toString` of every class is not modelled.
- `KafkaMessageFactory` and the Kafka binding are not part of this model.
