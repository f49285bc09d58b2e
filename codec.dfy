/**
 * Wire framing: RpcEncoder writes a 4-byte big-endian length and then the
 * serialized body; RpcDecoder reads one such frame at a time from a byte
 * buffer, waiting while the frame is incomplete.
 */
module Codec {
  import opened Wrappers
  import opened JavaLang
  import opened Entities

  /** One octet on the wire, as an unsigned value. */
  newtype Byte = x: int | 0 <= x < 0x100

  /** A Java byte[]: no longer than Integer.MAX_VALUE. */
  type JBytes = s: seq<Byte> | |s| <= 0x7fff_ffff

  /** An object handed to the encoder or produced by the decoder; NullMsg is a null reference. */
  datatype Message = RequestMsg(request: RpcRequest) | ResponseMsg(response: RpcResponse) | OtherMsg(className: string) | NullMsg

  /** The `genericClass` an encoder or decoder is built for. */
  datatype MessageClass = RequestClass | ResponseClass

  /** genericClass.isInstance(m). */
  predicate IsInstance(m: Message, cls: MessageClass) {
    match cls
    case RequestClass => m.RequestMsg?
    case ResponseClass => m.ResponseMsg?
  }

  /**
   * A payload serializer. Its two operations are foreign code, known only
   * through their results: a byte array, an object, or a thrown exception.
   */
  datatype Serializer = Serializer(
    serialize: Message -> Result<JBytes, Throwable>,
    deserialize: (JBytes, MessageClass) -> Result<Message, Throwable>)

  // ---------------------------------------------------------------- big-endian ints

  /** ByteBuf.writeInt's bytes: the two's-complement value, most significant byte first. */
  function IntToBytes(x: Int32): (b: seq<Byte>)
    ensures |b| == 4
  {
    var u := if x < 0 then x + 0x1_0000_0000 else x;
    var q1 := u / 0x100;
    var q2 := q1 / 0x100;
    var q3 := q2 / 0x100;
    [q3 as Byte, (q2 % 0x100) as Byte, (q1 % 0x100) as Byte, (u % 0x100) as Byte]
  }

  /** ByteBuf.readInt: four bytes, most significant first, as a signed int. */
  function BytesToInt(b: seq<Byte>): Int32
    requires |b| == 4
  {
    var u := (b[0] as int) * 0x100_0000 + (b[1] as int) * 0x1_0000 + (b[2] as int) * 0x100 + b[3] as int;
    if u >= 0x8000_0000 then u - 0x1_0000_0000 else u
  }

  /** readInt reads back exactly what writeInt wrote. */
  lemma BytesToIntOfIntToBytes(x: Int32)
    ensures BytesToInt(IntToBytes(x)) == x
  {
    var u := if x < 0 then x + 0x1_0000_0000 else x;
    var q1 := u / 0x100;
    var q2 := q1 / 0x100;
    var q3 := q2 / 0x100;
    assert u == 0x100 * q1 + u % 0x100;
    assert q1 == 0x100 * q2 + q1 % 0x100;
    assert q2 == 0x100 * q3 + q2 % 0x100;
    var b := IntToBytes(x);
    assert b[0] as int == q3 && b[1] as int == q2 % 0x100 && b[2] as int == q1 % 0x100 && b[3] as int == u % 0x100;
    assert q3 * 0x100_0000 + (q2 % 0x100) * 0x1_0000 + (q1 % 0x100) * 0x100 + u % 0x100 == u;
  }

  /** One frame on the wire: the body's length, then the body. */
  function Frame(data: JBytes): seq<Byte> {
    IntToBytes(|data|) + data
  }

  // ---------------------------------------------------------------- the buffer

  /** A Netty ByteBuf: its written bytes, a reader index and a marked reader index. */
  class ByteBuf {
    var bytes: seq<Byte>
    var readerIndex: nat
    var markedReaderIndex: nat

    ghost predicate Valid()
      reads this
    {
      readerIndex <= |bytes| && markedReaderIndex <= |bytes|
    }

    constructor (initial: seq<Byte>)
      ensures Valid() && bytes == initial && readerIndex == 0 && markedReaderIndex == 0
    {
      bytes, readerIndex, markedReaderIndex := initial, 0, 0;
    }

    function ReadableBytes(): nat
      reads this
      requires Valid()
    {
      |bytes| - readerIndex
    }

    method WriteInt(x: Int32)
      requires Valid()
      modifies this`bytes
      ensures Valid() && bytes == old(bytes) + IntToBytes(x)
    {
      bytes := bytes + IntToBytes(x);
    }

    method WriteBytes(data: seq<Byte>)
      requires Valid()
      modifies this`bytes
      ensures Valid() && bytes == old(bytes) + data
    {
      bytes := bytes + data;
    }

    method MarkReaderIndex()
      requires Valid()
      modifies this`markedReaderIndex
      ensures Valid() && markedReaderIndex == readerIndex
    {
      markedReaderIndex := readerIndex;
    }

    method ResetReaderIndex()
      requires Valid()
      modifies this`readerIndex
      ensures Valid() && readerIndex == markedReaderIndex
    {
      readerIndex := markedReaderIndex;
    }

    method ReadInt() returns (x: Int32)
      requires Valid() && ReadableBytes() >= 4
      modifies this`readerIndex
      ensures Valid() && readerIndex == old(readerIndex) + 4
      ensures x == BytesToInt(bytes[old(readerIndex)..readerIndex])
    {
      x := BytesToInt(bytes[readerIndex..readerIndex + 4]);
      readerIndex := readerIndex + 4;
    }

    method ReadBytes(n: nat) returns (data: seq<Byte>)
      requires Valid() && n <= ReadableBytes()
      modifies this`readerIndex
      ensures Valid() && readerIndex == old(readerIndex) + n
      ensures data == bytes[old(readerIndex)..readerIndex]
    {
      data := bytes[readerIndex..readerIndex + n];
      readerIndex := readerIndex + n;
    }
  }

  // ---------------------------------------------------------------- encoding

  /** What one `encode` call appends to the output buffer, and what it lets escape. */
  datatype EncodeResult = EncodeResult(written: seq<Byte>, thrown: Option<Throwable>)

  /**
   * RpcEncoder.encode: nothing for a message of another class; otherwise the
   * configured serializer (or, without one, the default SerializationUtil)
   * runs before anything is written. A failing default serializer's exception
   * escapes; a failing configured serializer's is caught and logged when it
   * is an Exception, and escapes when it is not (an Error, a bare Throwable).
   */
  function EncodeOutput(msg: Message, genericClass: MessageClass, serializer: Option<Serializer>, fallback: Serializer): (r: EncodeResult)
    ensures r.thrown.Some? ==> r.written == []
    ensures r.thrown.Some? ==> Chosen(serializer, fallback).serialize(msg) == Err(r.thrown.value)
    ensures r.thrown.Some? && serializer.Some? ==> !IsException(r.thrown.value)
  {
    if !IsInstance(msg, genericClass) then EncodeResult([], None)
    else
      match serializer
      case None =>
        (match fallback.serialize(msg)
         case Ok(data) => EncodeResult(Frame(data), None)
         case Err(e) => EncodeResult([], Some(e)))
      case Some(s) =>
        (match s.serialize(msg)
         case Ok(data) => EncodeResult(Frame(data), None)
         case Err(e) => EncodeResult([], if IsException(e) then None else Some(e)))
  }

  /** The serializer an encoder or decoder uses: the configured one, else the default. */
  function Chosen(serializer: Option<Serializer>, fallback: Serializer): Serializer {
    if serializer.Some? then serializer.value else fallback
  }

  /** A message of another class writes nothing and throws nothing. */
  lemma EncodeSkipsOtherClasses(msg: Message, genericClass: MessageClass, serializer: Option<Serializer>, fallback: Serializer)
    requires !IsInstance(msg, genericClass)
    ensures EncodeOutput(msg, genericClass, serializer, fallback) == EncodeResult([], None)
  {
  }

  /**
   * A successful encode appends 4 + |data| bytes: a big-endian length that reads
   * back as |data|, then exactly the serialized bytes.
   */
  lemma EncodeWritesOneFrame(msg: Message, genericClass: MessageClass, serializer: Option<Serializer>, fallback: Serializer, data: JBytes)
    requires IsInstance(msg, genericClass)
    requires Chosen(serializer, fallback).serialize(msg) == Ok(data)
    ensures var r := EncodeOutput(msg, genericClass, serializer, fallback);
      && r.thrown.None?
      && |r.written| == 4 + |data|
      && BytesToInt(r.written[..4]) == |data|
      && r.written[4..] == data
  {
    var r := EncodeOutput(msg, genericClass, serializer, fallback);
    assert r.written == IntToBytes(|data|) + data;
    assert r.written[..4] == IntToBytes(|data|);
    BytesToIntOfIntToBytes(|data|);
  }

  /**
   * A failing serializer writes nothing. The default serializer's failure
   * escapes; the configured serializer's escapes only when it is not an
   * Exception.
   */
  lemma EncodeFailureWritesNothing(msg: Message, genericClass: MessageClass, serializer: Option<Serializer>, fallback: Serializer, e: Throwable)
    requires IsInstance(msg, genericClass)
    requires Chosen(serializer, fallback).serialize(msg) == Err(e)
    ensures EncodeOutput(msg, genericClass, serializer, fallback).written == []
    ensures EncodeOutput(msg, genericClass, serializer, fallback).thrown == if serializer.None? || !IsException(e) then Some(e) else None
  {
  }

  class RpcEncoder {
    const genericClass: MessageClass
    /** The configured serializer; None when built with the one-argument constructor. */
    const serializer: Option<Serializer>
    /** The default SerializationUtil. */
    const fallback: Serializer

    constructor (genericClass: MessageClass, serializer: Option<Serializer>, fallback: Serializer)
      ensures this.genericClass == genericClass && this.serializer == serializer && this.fallback == fallback
    {
      this.genericClass, this.serializer, this.fallback := genericClass, serializer, fallback;
    }

    /** Appends the frame for `msg` to `out`; returns the exception that escapes, if any. */
    method Encode(msg: Message, out: ByteBuf) returns (thrown: Option<Throwable>)
      requires out.Valid()
      modifies out`bytes
      ensures out.Valid()
      ensures out.bytes == old(out.bytes) + EncodeOutput(msg, genericClass, serializer, fallback).written
      ensures thrown == EncodeOutput(msg, genericClass, serializer, fallback).thrown
    {
      thrown := None;
      if IsInstance(msg, genericClass) {
        if serializer.None? {
          var serialized := fallback.serialize(msg);
          if serialized.Err? {
            thrown := Some(serialized.error);
            return;
          }
          var data := serialized.value;
          out.WriteInt(|data|);
          out.WriteBytes(data);
        } else {
          var serialized := serializer.value.serialize(msg);
          if serialized.Ok? {
            var data := serialized.value;
            out.WriteInt(|data|);
            out.WriteBytes(data);
          } else if !IsException(serialized.error) {
            thrown := Some(serialized.error);
          }
          // otherwise the exception is caught and logged
        }
      }
    }
  }

  // ---------------------------------------------------------------- decoding

  /**
   * What one `decode` call produces: nothing yet (NeedMore), one object added
   * to the output list, a frame consumed whose body the configured serializer
   * rejected (Dropped, logged), or an exception that escapes `decode`.
   */
  datatype DecodeResult = NeedMore | Emitted(msg: Message) | Dropped(error: Throwable) | Raised(error: Throwable)

  /** What Netty's output list throws on `add(null)`. */
  const NULL_ELEMENT: Throwable := Raise(NullPointerException, "element")

  /**
   * The tail of decode once the body is read: deserialize, then add the object
   * to the output list, which rejects null. Inside the configured serializer's
   * try block an Exception (including that NullPointerException) is caught and
   * logged; anything else, and everything on the default path, escapes.
   */
  function Deliver(deserialized: Result<Message, Throwable>, configured: bool): (r: DecodeResult)
    ensures !r.NeedMore?
    ensures r.Emitted? <==> deserialized.Ok? && deserialized.value != NullMsg
    ensures r.Emitted? ==> r.msg == deserialized.value
    ensures r.Dropped? ==> configured && IsException(r.error)
    ensures configured && !r.Emitted? ==> (r.Dropped? <==> IsException(r.error))
    ensures !configured ==> !r.Dropped?
    ensures deserialized == Ok(NullMsg) ==> r.error == NULL_ELEMENT
    ensures deserialized.Err? ==> r.error == deserialized.error
  {
    match deserialized
    case Ok(m) =>
      if m != NullMsg then Emitted(m)
      else if configured then Dropped(NULL_ELEMENT) else Raised(NULL_ELEMENT)
    case Err(e) =>
      if configured && IsException(e) then Dropped(e) else Raised(e)
  }

  /** The decoder's result together with the buffer's indices afterwards and whether it asked to close the channel. */
  datatype DecodeState = DecodeState(result: DecodeResult, readerIndex: nat, markedReaderIndex: nat, closeRequested: bool)

  /** RpcDecoder.decode over the buffer's bytes and indices. */
  function DecodeStep(bytes: seq<Byte>, reader: nat, mark: nat, genericClass: MessageClass,
                      serializer: Option<Serializer>, fallback: Serializer): (s: DecodeState)
    requires reader <= |bytes|
    ensures s.readerIndex <= |bytes|
  {
    if |bytes| - reader < 4 then DecodeState(NeedMore, reader, mark, false)
    else
      var len := BytesToInt(bytes[reader..reader + 4]);
      var close := len < 0;
      if |bytes| - (reader + 4) < len then DecodeState(NeedMore, reader, reader, close)
      else if len < 0 then
        DecodeState(Raised(Raise(NegativeArraySizeException, IntToString(len))), reader + 4, reader, close)
      else
        var data: JBytes := bytes[reader + 4..reader + 4 + len];
        var next := reader + 4 + len;
        DecodeState(Deliver(Chosen(serializer, fallback).deserialize(data, genericClass), serializer.Some?), next, reader, close)
  }

  /** Fewer than four readable bytes: nothing is produced and no index moves. */
  lemma DecodeWaitsForLength(bytes: seq<Byte>, reader: nat, mark: nat, cls: MessageClass, serializer: Option<Serializer>, fallback: Serializer)
    requires reader <= |bytes| && |bytes| - reader < 4
    ensures DecodeStep(bytes, reader, mark, cls, serializer, fallback) == DecodeState(NeedMore, reader, mark, false)
  {
  }

  /** An incomplete body: nothing is produced and the reader goes back to the start of the length prefix. */
  lemma DecodeWaitsForBody(bytes: seq<Byte>, reader: nat, mark: nat, cls: MessageClass, serializer: Option<Serializer>, fallback: Serializer)
    requires reader + 4 <= |bytes|
    requires 0 <= BytesToInt(bytes[reader..reader + 4]) && |bytes| - (reader + 4) < BytesToInt(bytes[reader..reader + 4])
    ensures DecodeStep(bytes, reader, mark, cls, serializer, fallback) == DecodeState(NeedMore, reader, reader, false)
  {
  }

  /**
   * A negative length asks for the channel to be closed but does not stop the
   * decoder: the reader stays past the prefix and allocating the body throws
   * NegativeArraySizeException.
   */
  lemma DecodeNegativeLength(bytes: seq<Byte>, reader: nat, mark: nat, cls: MessageClass, serializer: Option<Serializer>, fallback: Serializer)
    requires reader + 4 <= |bytes| && BytesToInt(bytes[reader..reader + 4]) < 0
    ensures var s := DecodeStep(bytes, reader, mark, cls, serializer, fallback);
      && s.closeRequested
      && s.readerIndex == reader + 4
      && s.result.Raised? && s.result.error.kind == NegativeArraySizeException
  {
  }

  /**
   * A complete frame consumes exactly 4 + L bytes, whatever follows it, and
   * hands exactly its L body bytes to the serializer, whose result is
   * delivered to the output list.
   */
  lemma DecodeConsumesOneFrame(bytes: seq<Byte>, reader: nat, mark: nat, cls: MessageClass, serializer: Option<Serializer>, fallback: Serializer)
    requires reader + 4 <= |bytes|
    requires 0 <= BytesToInt(bytes[reader..reader + 4]) <= |bytes| - (reader + 4)
    ensures var len := BytesToInt(bytes[reader..reader + 4]);
      var data: JBytes := bytes[reader + 4..reader + 4 + len];
      var s := DecodeStep(bytes, reader, mark, cls, serializer, fallback);
      && s.readerIndex == reader + 4 + len
      && !s.closeRequested
      && s.result == Deliver(Chosen(serializer, fallback).deserialize(data, cls), serializer.Some?)
  {
  }

  /**
   * Round trip: a frame written by the encoder, wherever it sits in the buffer
   * and whatever follows it, is consumed whole by one decode, which yields
   * deserialize(serialize(x)).
   */
  lemma DecodeOfEncode(prefix: seq<Byte>, suffix: seq<Byte>, mark: nat, x: Message, encodeClass: MessageClass,
                       decodeClass: MessageClass, serializer: Option<Serializer>, fallback: Serializer, data: JBytes)
    requires IsInstance(x, encodeClass)
    requires Chosen(serializer, fallback).serialize(x) == Ok(data)
    ensures var w := EncodeOutput(x, encodeClass, serializer, fallback).written;
      var s := DecodeStep(prefix + w + suffix, |prefix|, mark, decodeClass, serializer, fallback);
      && s.readerIndex == |prefix| + |w|
      && s.result == Deliver(Chosen(serializer, fallback).deserialize(data, decodeClass), serializer.Some?)
  {
    var w := EncodeOutput(x, encodeClass, serializer, fallback).written;
    EncodeWritesOneFrame(x, encodeClass, serializer, fallback, data);
    var bytes := prefix + w + suffix;
    var r := |prefix|;
    assert bytes[r..r + 4] == w[..4];
    assert bytes[r + 4..r + 4 + |data|] == data;
    DecodeConsumesOneFrame(bytes, r, mark, decodeClass, serializer, fallback);
  }

  class RpcDecoder {
    const genericClass: MessageClass
    const serializer: Option<Serializer>
    const fallback: Serializer

    constructor (genericClass: MessageClass, serializer: Option<Serializer>, fallback: Serializer)
      ensures this.genericClass == genericClass && this.serializer == serializer && this.fallback == fallback
    {
      this.genericClass, this.serializer, this.fallback := genericClass, serializer, fallback;
    }

    /**
     * Reads at most one frame from `input`. Returns what was added to the output
     * list (or dropped, or thrown) and whether the channel was asked to close.
     */
    method Decode(input: ByteBuf) returns (result: DecodeResult, closeRequested: bool)
      requires input.Valid()
      modifies input`readerIndex, input`markedReaderIndex
      ensures input.Valid() && input.bytes == old(input.bytes)
      ensures DecodeState(result, input.readerIndex, input.markedReaderIndex, closeRequested)
           == DecodeStep(old(input.bytes), old(input.readerIndex), old(input.markedReaderIndex), genericClass, serializer, fallback)
    {
      closeRequested := false;
      if input.ReadableBytes() < 4 {
        return NeedMore, closeRequested;
      }
      input.MarkReaderIndex();
      var dataLength := input.ReadInt();
      if dataLength < 0 {
        closeRequested := true;
      }
      if input.ReadableBytes() < dataLength {
        input.ResetReaderIndex();
        return NeedMore, closeRequested;
      }
      if dataLength < 0 {
        // new byte[dataLength]
        return Raised(Raise(NegativeArraySizeException, IntToString(dataLength))), closeRequested;
      }
      var data := input.ReadBytes(dataLength);
      if serializer.None? {
        var obj := fallback.deserialize(data, genericClass);
        result := Deliver(obj, false);
      } else {
        var obj := serializer.value.deserialize(data, genericClass);
        result := Deliver(obj, true);
      }
    }
  }
}
