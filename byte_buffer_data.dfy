/** `ByteBufferCloudEventData`: event data held in a `java.nio.ByteBuffer`, a window
    `position..limit` over a backing array. The wrapper keeps a reference to the caller's
    buffer; `toBytes` copies the window through a duplicate so the buffer's cursor stays put. */
module ByteBufferData {
  import opened Wrappers
  import opened Values

  /** What `ByteBuffer.get(byte[])` throws when fewer bytes remain than the array holds. */
  datatype BufferUnderflowException = BufferUnderflowException

  /** The part of a heap `ByteBuffer` the model needs: the backing array (shared by
      duplicates and views), the cursor, the limit and the read-only flag. */
  class ByteBuffer {
    const hb: array<Byte>
    var position: nat
    var limit: nat
    const readOnly: bool

    ghost predicate Valid()
      reads this
    {
      position <= limit <= hb.Length
    }

    /** `remaining()`. */
    function Remaining(): nat
      reads this
      requires Valid()
    {
      limit - position
    }

    /** The bytes between the cursor and the limit. */
    function Content(): seq<Byte>
      reads this, hb
      requires Valid()
    {
      hb[position..limit]
    }

    /** `get(position() + k)`: the `k`-th remaining byte. */
    function At(k: nat): Byte
      reads this, hb
      requires Valid() && k < Remaining()
    {
      hb[position + k]
    }

    /** `ByteBuffer.wrap(bytes)`: a writable window over the whole array. */
    constructor Wrap(bytes: array<Byte>)
      ensures Valid() && hb == bytes && position == 0 && limit == bytes.Length && !readOnly
    {
      hb := bytes;
      position := 0;
      limit := bytes.Length;
      readOnly := false;
    }

    constructor View(hb: array<Byte>, position: nat, limit: nat, readOnly: bool)
      requires position <= limit <= hb.Length
      ensures Valid() && this.hb == hb && this.position == position && this.limit == limit
      ensures this.readOnly == readOnly
    {
      this.hb := hb;
      this.position := position;
      this.limit := limit;
      this.readOnly := readOnly;
    }

    /** `duplicate()`: a new buffer over the same array, with its own cursor. */
    method Duplicate() returns (d: ByteBuffer)
      requires Valid()
      ensures fresh(d) && d.Valid()
      ensures d.hb == hb && d.position == position && d.limit == limit && d.readOnly == readOnly
    {
      d := new ByteBuffer.View(hb, position, limit, readOnly);
    }

    /** `asReadOnlyBuffer()`: like `duplicate()`, but the new buffer refuses writes. */
    method AsReadOnlyBuffer() returns (d: ByteBuffer)
      requires Valid()
      ensures fresh(d) && d.Valid()
      ensures d.hb == hb && d.position == position && d.limit == limit && d.readOnly
    {
      d := new ByteBuffer.View(hb, position, limit, true);
    }

    /** `get(byte[] dst)`: copy `dst.Length` bytes from the cursor and advance it, or throw
        when not that many remain. The copy behaves like `System.arraycopy`, reading the
        source as it was before any write. */
    method Get(dst: array<Byte>) returns (outcome: Outcome<BufferUnderflowException>)
      requires Valid()
      modifies this, dst
      ensures Valid() && limit == old(limit)
      ensures outcome.Fail? <==> dst.Length > old(Remaining())
      ensures outcome.Fail? ==> position == old(position) && dst[..] == old(dst[..])
      ensures outcome.Pass? ==> position == old(position) + dst.Length
      ensures outcome.Pass? ==> dst[..] == old(hb[position..position + dst.Length])
    {
      if dst.Length > limit - position {
        return Fail(BufferUnderflowException);
      }
      var src := hb[position..position + dst.Length];
      var i := 0;
      while i < dst.Length
        invariant 0 <= i <= dst.Length
        invariant position == old(position) && limit == old(limit)
        invariant forall k :: 0 <= k < i ==> dst[k] == src[k]
      {
        dst[i] := src[i];
        i := i + 1;
      }
      position := position + dst.Length;
      outcome := Pass;
    }
  }

  /** `ByteBuffer.equals`: the same object, or the same number of remaining bytes, equal
      position by position. */
  predicate BufferEquals(a: ByteBuffer, b: ByteBuffer)
    reads a, b, a.hb, b.hb
    requires a.Valid() && b.Valid()
  {
    a == b
    || (a.Remaining() == b.Remaining()
        && forall i :: 0 <= i < a.Remaining() ==> a.At(i) == b.At(i))
  }

  /** Buffers are equal exactly when their remaining bytes are. */
  lemma BufferEqualsIsContentEquality(a: ByteBuffer, b: ByteBuffer)
    requires a.Valid() && b.Valid()
    ensures BufferEquals(a, b) <==> a.Content() == b.Content()
  {
    assert forall i :: 0 <= i < a.Remaining() ==> a.Content()[i] == a.At(i);
    assert forall i :: 0 <= i < b.Remaining() ==> b.Content()[i] == b.At(i);
  }

  class ByteBufferCloudEventData {
    const value: ByteBuffer

    /** The private constructor; `Wrap` handles `null`. */
    constructor (value: ByteBuffer)
      ensures this.value == value
    {
      this.value := value;
    }

    /** `wrap`: a `null` buffer is rejected; otherwise the wrapper keeps the caller's buffer,
        not a copy. */
    static method Wrap(value: ByteBuffer?) returns (r: Result<ByteBufferCloudEventData, NullPointerException>)
      ensures r.Failure? <==> value == null
      ensures r.Success? ==> fresh(r.value) && r.value.value == value
    {
      if value == null {
        return Failure(NullPointerException);
      }
      var d := new ByteBufferCloudEventData(value);
      r := Success(d);
    }

    /** `toBytes`: a new array holding exactly the bytes from the cursor to the limit. It
        changes no existing object, so the wrapped buffer's cursor does not move. */
    method ToBytes() returns (bytes: array<Byte>)
      requires value.Valid()
      ensures fresh(bytes)
      ensures bytes.Length == value.Remaining()
      ensures bytes[..] == value.Content()
    {
      var dup := value.Duplicate();
      bytes := new Byte[dup.Remaining()];
      var outcome := dup.Get(bytes);
    }

    /** `toByteBuffer`: a read-only view of the same bytes. */
    method ToByteBuffer() returns (view: ByteBuffer)
      requires value.Valid()
      ensures fresh(view) && view.Valid() && view.readOnly
      ensures view.hb == value.hb && view.Content() == value.Content()
    {
      view := value.AsReadOnlyBuffer();
    }

    /** `equals`: the same wrapper, or wrappers whose buffers are equal. */
    predicate Equals(o: EqualsArg<ByteBufferCloudEventData>)
      reads this, value, value.hb, if o.SameClass? then {o.value, o.value.value, o.value.value.hb} else {}
      requires value.Valid()
      requires o.SameClass? ==> o.value.value.Valid()
    {
      match o
      case SameClass(that) => this == that || BufferEquals(value, that.value)
      case _ => false
    }

    /** `hashCode`, for whatever function `hash` stands for `ByteBuffer.hashCode` (which
        depends only on the remaining bytes). */
    function HashCode(hash: seq<Byte> -> int): int
      reads this, value, value.hb
      requires value.Valid()
    {
      hash(value.Content())
    }
  }

  /** Two wrappers are equal iff their remaining bytes are; equal wrappers hash equally;
      `null` and other classes are unequal. */
  lemma EqualsIsContentEquality(d: ByteBufferCloudEventData, that: ByteBufferCloudEventData, hash: seq<Byte> -> int)
    requires d.value.Valid() && that.value.Valid()
    ensures d.Equals(SameClass(that)) <==> d.value.Content() == that.value.Content()
    ensures d.Equals(SameClass(that)) ==> d.HashCode(hash) == that.HashCode(hash)
    ensures !d.Equals(Null) && !d.Equals(OtherClass)
  {
    BufferEqualsIsContentEquality(d.value, that.value);
  }
}
