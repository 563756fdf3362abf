/** The text of a queued order: Base64(UTF8(JSON(order))). JSON and UTF-8 stay abstract (a
    codec of four functions that round-trip); the Base64 layer is the concrete one of RFC 4648. */
module OrderMessage {
  import opened Http
  import opened Entities
  import Base64

  datatype JsonCodec = JsonCodec(
    serialize: OrderEntity -> string,               // JsonSerializer.Serialize
    deserialize: string -> Parsed<OrderEntity>,     // JsonSerializer.Deserialize<OrderEntity>
    utf8Bytes: string -> seq<Base64.byte>,          // Encoding.UTF8.GetBytes
    utf8String: seq<Base64.byte> -> string)         // Encoding.UTF8.GetString

  /** The serializer is injective and its text survives UTF-8 encoding. */
  ghost predicate Lawful(c: JsonCodec)
  {
    forall o :: c.deserialize(c.serialize(o)) == Value(o) && c.utf8String(c.utf8Bytes(c.serialize(o))) == c.serialize(o)
  }

  /** The message CreateOrder sends. */
  function Encode(c: JsonCodec, o: OrderEntity): (m: string)
    ensures forall i :: 0 <= i < |m| ==> Base64.ValueOf(m[i]).Some? || m[i] == Base64.Pad
  {
    Base64.EncodeIsWellFormed(c.utf8Bytes(c.serialize(o)));
    Base64.Encode(c.utf8Bytes(c.serialize(o)))
  }

  /** What ProcessOrderQueue makes of a message; text that is not Base64 throws, like malformed JSON. */
  function Decode(c: JsonCodec, m: string): (r: Parsed<OrderEntity>)
    ensures (exists i :: 0 <= i < |m| && Base64.IsForeign(m[i])) ==> r == Malformed
    ensures r != Malformed ==> Base64.Decode(m).Some?
  {
    Base64.DecodeRejectsForeign(m);
    match Base64.Decode(m)
    case None => Malformed
    case Some(bytes) => c.deserialize(c.utf8String(bytes))
  }

  /** Decoding is the exact inverse of the enqueue encoding: the order comes back field for field. */
  lemma DecodeEncode(c: JsonCodec, o: OrderEntity)
    requires Lawful(c)
    ensures Decode(c, Encode(c, o)) == Value(o)
  {
    Base64.DecodeEncode(c.utf8Bytes(c.serialize(o)));
  }

  /** Hence distinct orders never share a message. */
  lemma EncodeInjective(c: JsonCodec, o1: OrderEntity, o2: OrderEntity)
    requires Lawful(c) && o1 != o2
    ensures Encode(c, o1) != Encode(c, o2)
  {
    DecodeEncode(c, o1);
    DecodeEncode(c, o2);
  }
}
