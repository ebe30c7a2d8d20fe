/** `StringCloudEventData`: event data held as a string, whose bytes are its UTF-8 encoding.
    The wrapper has one final field and no mutators, so it is a datatype. */
module StringData {
  import opened Wrappers
  import opened Values
  import Utf8

  datatype StringCloudEventData = StringCloudEventData(value: string)

  /** `wrap` (and the constructor it calls): a `null` string is rejected. */
  function Wrap(value: Option<string>): (r: Result<StringCloudEventData, NullPointerException>)
    ensures r.Failure? <==> value.None?
    ensures r.Success? ==> GetValue(r.value) == value.value
  {
    if value.None? then Failure(NullPointerException) else Success(StringCloudEventData(value.value))
  }

  function GetValue(d: StringCloudEventData): string {
    d.value
  }

  /** `toBytes`: the UTF-8 encoding of the value. It decodes back to the value and takes one
      to four octets per character. */
  function ToBytes(d: StringCloudEventData): (bs: seq<Byte>)
    ensures Utf8.Decode(bs) == Some(d.value)
    ensures |d.value| <= |bs| <= 4 * |d.value|
  {
    Utf8.DecodeEncode(d.value);
    Utf8.EncodeLength(d.value);
    Utf8.Encode(d.value)
  }

  /** `equals`: same class and equal strings. */
  function Equals(d: StringCloudEventData, o: EqualsArg<StringCloudEventData>): bool {
    match o
    case SameClass(that) => d.value == that.value
    case _ => false
  }

  /** `hashCode` is the string's hash, for whatever function `hash` stands for `String.hashCode`. */
  function HashCode(d: StringCloudEventData, hash: string -> int): int {
    hash(d.value)
  }

  /** Wrapping a string and reading it back gives the same string. */
  lemma GetValueOfWrap(s: string)
    ensures Wrap(Some(s)).Success? && GetValue(Wrap(Some(s)).value) == s
  {
  }

  /** Two wrappers are equal iff their strings are, iff their bytes are; equal wrappers hash
      equally. */
  lemma EqualsAgreesWithBytes(d: StringCloudEventData, that: StringCloudEventData, hash: string -> int)
    ensures Equals(d, SameClass(that)) <==> d == that
    ensures Equals(d, SameClass(that)) <==> ToBytes(d) == ToBytes(that)
    ensures Equals(d, SameClass(that)) ==> HashCode(d, hash) == HashCode(that, hash)
    ensures !Equals(d, Null) && !Equals(d, OtherClass)
  {
    Utf8.EncodeInjective(d.value, that.value);
  }

  /** An ASCII value's bytes are its characters, one octet each. */
  lemma AsciiBytes(d: StringCloudEventData)
    requires forall i :: 0 <= i < |d.value| ==> (d.value[i] as int) < 0x80
    ensures |ToBytes(d)| == |d.value|
    ensures forall i :: 0 <= i < |d.value| ==> ToBytes(d)[i] == d.value[i] as int
  {
    Utf8.AsciiEncodesToItself(d.value);
  }
}
