/** Attribute values of a CloudEvent: the Java types the context attributes are declared with
    (String, URI, ZonedDateTime) and the closed set of kinds an extension value may take. */
module Values {

  /** An octet. Java's signed `byte b` is the octet `b & 0xFF`. */
  type Byte = b: int | 0 <= b < 0x100

  /** A `java.net.URI`, kept as an opaque token compared by its text. */
  datatype Uri = Uri(text: string)

  /** A `java.time.ZonedDateTime`, kept as an opaque token compared by its text. */
  datatype Timestamp = Timestamp(text: string)

  /** The value a context attribute holds, tagged by its Java type. */
  datatype AttributeValue =
    | StringValue(s: string)
    | UriValue(uri: Uri)
    | TimeValue(time: Timestamp)

  /** The value of an extension attribute: one of the CloudEvents attribute kinds. */
  datatype ExtensionValue =
    | ExtString(s: string)
    | ExtInteger(i: int)
    | ExtBoolean(b: bool)
    | ExtUri(uri: Uri)
    | ExtBinary(bytes: seq<Byte>)
}
