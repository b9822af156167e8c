/** The relay envelope of distributed/comm/serialization.py:
    message type (1 byte), source length (2 bytes, big endian), source, payload. */
module Envelope {
  import opened Seqs
  import opened Bytes

  datatype MessageType = ToController | FlPayload | ControlPlane | Ack | Error

  function Code(t: MessageType): Byte {
    match t
    case ToController => 0x01
    case FlPayload => 0x02
    case ControlPlane => 0x10
    case Ack => 0x20
    case Error => 0xFF
  }

  /** MessageType(code); None is ValueError. */
  function OfCode(b: Byte): (t: Option<MessageType>)
    ensures t.Some? ==> Code(t.value) == b
    ensures t.None? ==> forall k :: Code(k) != b
  {
    if b == 0x01 then Some(ToController)
    else if b == 0x02 then Some(FlPayload)
    else if b == 0x10 then Some(ControlPlane)
    else if b == 0x20 then Some(Ack)
    else if b == 0xFF then Some(Error)
    else None
  }

  /** pack_relay_envelope; None is struct.error, the source name being too long for two bytes. */
  function Pack(t: MessageType, source: string, payload: seq<Byte>): (e: Option<seq<Byte>>)
    ensures e.Some? ==> |e.value| >= 3 + |payload| && e.value[0] == Code(t)
  {
    var name := Encode(source);
    if |name| > 65535 then None
    else Some([Code(t), |name| / 256, |name| % 256] + name + payload)
  }

  /** unpack_relay_envelope; None is struct.error (under three bytes) or ValueError (unknown type).
      A source length beyond the end leaves an empty payload, as slicing does. */
  function Unpack(envelope: seq<Byte>): Option<(MessageType, seq<Byte>)> {
    if |envelope| < 3 then None
    else
      var sourceEnd := 3 + envelope[1] as int * 256 + envelope[2] as int;
      var payload := if sourceEnd > |envelope| then [] else envelope[sourceEnd..];
      match OfCode(envelope[0])
      case None => None
      case Some(t) => Some((t, payload))
  }

  lemma UnpackPack(t: MessageType, source: string, payload: seq<Byte>)
    ensures Pack(t, source, payload).Some? <==> |Encode(source)| <= 65535
    ensures Pack(t, source, payload).Some? ==>
              Unpack(Pack(t, source, payload).value) == Some((t, payload))
  {
    var name := Encode(source);
    if |name| <= 65535 {
      var e := Pack(t, source, payload).value;
      assert e[1] as int * 256 + e[2] as int == |name|;
      assert e[3 + |name|..] == payload;
    }
  }

  /** The layout: one byte of type code, the length of the source in two bytes, high byte first, the source,
      the payload. */
  lemma Layout(t: MessageType, source: string, payload: seq<Byte>)
    requires |Encode(source)| <= 65535
    ensures var e, n := Pack(t, source, payload).value, |Encode(source)|;
            && |e| == 3 + n + |payload|
            && e[0] == (match t case ToController => 1 case FlPayload => 2 case ControlPlane => 16
                                case Ack => 32 case Error => 255)
            && e[1] == n / 256 && e[2] == n % 256
            && e[3..3 + n] == Encode(source) && e[3 + n..] == payload
  {
  }

  /** What is no envelope: too short, or of unknown type, it is refused; a source length beyond the end
      leaves no payload. */
  lemma Malformed(e: seq<Byte>)
    ensures |e| < 3 ==> Unpack(e) == None
    ensures |e| >= 3 ==> (Unpack(e).Some? <==> e[0] as int in {1, 2, 16, 32, 255})
    ensures Unpack(e).Some? && 3 + e[1] as int * 256 + e[2] as int >= |e| ==> Unpack(e).value.1 == []
  {
  }
}
