/** Server to client: frame construction in zmq_server_comm.py, the device agent's re-publication,
    and the client's self-detecting parse in zmq_client_comm.py. */
module Downlink {
  import opened Seqs
  import opened Bytes
  import Base64
  import opened Envelope
  import opened Frames

  // ---- The client's parse ----

  /** What follows the topic, without the space the device agent inserts. */
  function AfterTopic(raw: seq<Byte>): Option<seq<Byte>> {
    match Find(raw, PIPE)
    case None => None
    case Some(k) =>
      var offset := k + 1;
      Some(if offset < |raw| && raw[offset] == SPACE then raw[offset + 1..] else raw[offset..])
  }

  datatype Heard = NoTopic | Malformed | NotFl | Payload(envelope: seq<Byte>, payload: seq<Byte>)

  /** The envelope: base64 is undone if, in relay mode, the first byte is no control character. */
  function EnvelopeIn(direct: bool, after: seq<Byte>): Option<seq<Byte>> {
    if !direct && after != [] && after[0] >= 0x20 then Base64.Decode(after) else Some(after)
  }

  function Hear(direct: bool, raw: seq<Byte>): Heard {
    match AfterTopic(raw)
    case None => NoTopic
    case Some(after) =>
      match EnvelopeIn(direct, after)
      case None => Malformed
      case Some(envelope) =>
        match Unpack(envelope)
        case None => Malformed
        case Some(unpacked) => if unpacked.0 == FlPayload then Payload(envelope, unpacked.1) else NotFl
  }

  class Client<M> {
    const directMode: bool
    /** deserialize_message; None is any exception it raises. */
    const deserialize: seq<Byte> -> Option<M>
    var lastRecvPayloadSize: nat
    var recvQueue: seq<M>

    constructor (directMode: bool, deserialize: seq<Byte> -> Option<M>)
      ensures this.directMode == directMode && this.deserialize == deserialize
      ensures recvQueue == [] && lastRecvPayloadSize == 0
    {
      this.directMode := directMode;
      this.deserialize := deserialize;
      lastRecvPayloadSize := 0;
      recvQueue := [];
    }

    /** Skip the topic, its separator and the space the device agent inserts. */
    method SkipTopic(rawMsg: seq<Byte>) returns (after: Option<seq<Byte>>)
      ensures after == AfterTopic(rawMsg)
    {
      var pipeIdx := Find(rawMsg, PIPE);
      if pipeIdx.None? {
        return None;
      }
      var offset := pipeIdx.value + 1;
      if offset < |rawMsg| && rawMsg[offset] == SPACE {
        offset := offset + 1;
      }
      return Some(rawMsg[offset..]);
    }

    /** Self-detection of base64. */
    method Detect(after: seq<Byte>) returns (envelope: Option<seq<Byte>>)
      ensures envelope == EnvelopeIn(directMode, after)
    {
      envelope := Some(after);
      if !directMode && after != [] && after[0] >= 0x20 {
        envelope := Base64.Decode(after);
      }
    }

    /** The body of _receive_loop for one message: it changes the state only when the frame holds a
        readable FL payload. */
    method Receive(rawMsg: seq<Byte>)
      modifies this
      ensures match Hear(directMode, rawMsg)
              case Payload(envelope, payload) =>
                if deserialize(payload).Some? then
                  recvQueue == old(recvQueue) + [deserialize(payload).value] && lastRecvPayloadSize == |envelope|
                else unchanged(this)
              case _ => unchanged(this)
    {
      var after := SkipTopic(rawMsg);
      if after.None? {
        return;
      }
      var envelope := Detect(after.value);
      if envelope.None? {
        return;
      }
      var unpacked := Unpack(envelope.value);
      if unpacked.None? || unpacked.value.0 != FlPayload {
        return;
      }
      var message := deserialize(unpacked.value.1);
      if message.None? {
        return;
      }
      lastRecvPayloadSize := |envelope.value|;
      recvQueue := recvQueue + [message.value];
    }
  }

  // ---- What the parse makes of the three framings ----

  lemma AfterCleanTopic(name: string, rest: seq<Byte>)
    requires '|' !in name
    ensures AfterTopic(Encode(name) + [PIPE] + rest) ==
            Some(if rest != [] && rest[0] == SPACE then rest[1..] else rest)
  {
    AsciiOccurs(name, '|');
    FindAfter(Encode(name), PIPE, rest);
  }

  /** With the separator inside the name, more than the rest is taken for the envelope. */
  lemma AfterPipedTopic(name: string, rest: seq<Byte>)
    requires '|' in name
    ensures AfterTopic(Encode(name) + [PIPE] + rest).Some?
    ensures |AfterTopic(Encode(name) + [PIPE] + rest).value| > |rest|
  {
    AsciiOccurs(name, '|');
    var raw := Encode(name) + [PIPE] + rest;
    assert raw == Encode(name) + ([PIPE] + rest);
    FindInside(Encode(name), PIPE, [PIPE] + rest);
    assert raw[|Encode(name)|] == PIPE;
  }

  /** Direct framing is undone exactly for names without '|' and envelopes whose type byte is not
      the code of ACK, which is a space. */
  lemma DirectFrame(name: string, t: MessageType, source: string, payload: seq<Byte>)
    requires Pack(t, source, payload).Some?
    ensures var e := Pack(t, source, payload).value;
            var after := AfterTopic(Encode(name) + [PIPE] + e);
            after.Some? && (EnvelopeIn(true, after.value) == Some(e) <==> '|' !in name && t != Ack)
  {
    var e := Pack(t, source, payload).value;
    if '|' !in name {
      AfterCleanTopic(name, e);
    } else {
      AfterPipedTopic(name, e);
    }
  }

  /** Relayed raw bytes are recognised exactly if the type byte is a control character. */
  lemma RelayedRawFrame(name: string, t: MessageType, source: string, payload: seq<Byte>)
    requires Pack(t, source, payload).Some? && '|' !in name
    ensures var e := Pack(t, source, payload).value;
            var after := AfterTopic(Encode(name) + [PIPE] + ([SPACE] + e));
            after.Some? && (EnvelopeIn(false, after.value) == Some(e) <==> Code(t) < 0x20)
  {
    var e := Pack(t, source, payload).value;
    AfterCleanTopic(name, [SPACE] + e);
    assert ([SPACE] + e)[1..] == e;
    Base64.ScanShortens(e, 0, 0, 0);
  }

  /** Relayed base64 is always recognised. */
  lemma RelayedBase64Frame(name: string, e: seq<Byte>)
    requires '|' !in name
    ensures var after := AfterTopic(Encode(name) + [PIPE] + ([SPACE] + Base64.Encode(e)));
            after.Some? && EnvelopeIn(false, after.value) == Some(e)
  {
    AfterCleanTopic(name, [SPACE] + Base64.Encode(e));
    assert ([SPACE] + Base64.Encode(e))[1..] == Base64.Encode(e);
    Base64.DecodeEncode(e);
  }

  /** Only FL payloads are handed on, whichever way an envelope comes. */
  lemma OnlyFlIsHeard(name: string, t: MessageType, source: string, payload: seq<Byte>)
    requires Pack(t, source, payload).Some? && '|' !in name
    ensures var e := Pack(t, source, payload).value;
            var heard := if t == FlPayload then Payload(e, payload) else NotFl;
            && (t != Ack ==> Hear(true, Encode(name) + [PIPE] + e) == heard)
            && Hear(false, Encode(name) + [PIPE] + ([SPACE] + Base64.Encode(e))) == heard
  {
    var e := Pack(t, source, payload).value;
    UnpackPack(t, source, payload);
    DirectFrame(name, t, source, payload);
    RelayedBase64Frame(name, e);
  }

  // ---- Subscriptions ----

  /** SUBSCRIBE filters by prefix; the topic is the name and the separator. */
  predicate Subscribed(name: string, frame: seq<Byte>) {
    Encode(name) + [PIPE] <= frame
  }

  /** Prefix matching never confuses two names, not even fl_worker_1 and fl_worker_10. */
  lemma SubscriptionIsExact(mine: string, other: string, rest: seq<Byte>)
    requires '|' !in mine && '|' !in other
    ensures Subscribed(mine, Encode(other) + [PIPE] + rest) <==> mine == other
  {
    AsciiOccurs(mine, '|');
    AsciiOccurs(other, '|');
    EndedPrefixes(Encode(mine), Encode(other), PIPE, rest);
    if Encode(mine) == Encode(other) {
      EncodeInjective(mine, other);
    }
  }

  // ---- The device agent ----

  datatype PackagedMsg = PackagedMsg(targetName: string, payload: seq<Byte>)

  /** The protobuf codec, of which only this is used. */
  ghost predicate Faithful(serialize: PackagedMsg -> seq<Byte>, parse: seq<Byte> -> Option<PackagedMsg>) {
    forall m: PackagedMsg :: parse(serialize(m)) == Some(m)
  }

  /** encode_relay_pub_frame, with raw bytes or, for debugging, base64. */
  function EncodeRelayPub(serialize: PackagedMsg -> seq<Byte>, device: string, container: string,
                          envelope: seq<Byte>, raw: bool): seq<Byte> {
    EncodePub(device, TO_CONTAINER, serialize(Packaged(container, envelope, raw)))
  }

  function Packaged(container: string, envelope: seq<Byte>, raw: bool): PackagedMsg {
    PackagedMsg(container, if raw then envelope else Base64.Encode(envelope))
  }

  /** The agent's documented behaviour: unpack a FWD_CONT frame, publish "{container}| {payload}". */
  function Republished(parse: seq<Byte> -> Option<PackagedMsg>, frame: seq<Byte>): Option<seq<Byte>> {
    match DecodePub(frame)
    case None => None
    case Some(pub) =>
      if pub.1 != TO_CONTAINER then None
      else
        match parse(pub.2)
        case None => None
        case Some(msg) => Some(Encode(msg.targetName) + [PIPE] + ([SPACE] + msg.payload))
  }

  lemma RelayTypeIsPlain()
    ensures ' ' !in TO_CONTAINER && !IsAbbreviation(TO_CONTAINER)
  {
  }

  lemma RelayPubDecodes(device: string, payload: seq<Byte>)
    requires '|' !in device
    ensures DecodePub(EncodePub(device, TO_CONTAINER, payload)) == Some((device, TO_CONTAINER, payload))
  {
    RelayTypeIsPlain();
    PubRoundTrip(device, TO_CONTAINER, payload);
  }

  lemma RepublishedRelay(serialize: PackagedMsg -> seq<Byte>, parse: seq<Byte> -> Option<PackagedMsg>,
                         device: string, container: string, envelope: seq<Byte>, raw: bool)
    requires Faithful(serialize, parse) && '|' !in device
    ensures Republished(parse, EncodeRelayPub(serialize, device, container, envelope, raw)) ==
            Some(Encode(container) + [PIPE] + ([SPACE] + if raw then envelope else Base64.Encode(envelope)))
  {
    RelayPubDecodes(device, serialize(Packaged(container, envelope, raw)));
  }

  // ---- End to end ----

  datatype Route = Route(device: string, container: string)

  predicate Clean(route: Route) {
    '|' !in route.device && '|' !in route.container
  }

  /** How the deployment is set up: directly connected or relayed, raw or base64, which codec. */
  datatype Link = Link(direct: bool, raw: bool,
                       serialize: PackagedMsg -> seq<Byte>, parse: seq<Byte> -> Option<PackagedMsg>)

  /** The frame send publishes for one receiver. */
  function FrameFor(link: Link, route: Route, envelope: seq<Byte>): seq<Byte> {
    if link.direct then Encode(route.container) + [PIPE] + envelope
    else EncodeRelayPub(link.serialize, route.device, route.container, envelope, link.raw)
  }

  /** The bytes on the wire: the container's name, a '|' (0x7C) and the envelope; or the device's name, the
      relay type between spaces (0x20), and the packaged envelope. */
  lemma FrameBytes(link: Link, route: Route, envelope: seq<Byte>)
    ensures link.direct ==> FrameFor(link, route, envelope) == Encode(route.container) + [0x7C] + envelope
    ensures !link.direct ==>
              var packaged := PackagedMsg(route.container, if link.raw then envelope else Base64.Encode(envelope));
              FrameFor(link, route, envelope)
              == Encode(route.device) + [0x7C, 0x20] + Encode("FWD_CONT") + [0x20] + link.serialize(packaged)
  {
    WireNames(TO_CONTAINER);
  }

  /** What a client at the given place gets to see of a published frame. */
  function Arriving(link: Link, at: Route, frame: seq<Byte>): Option<seq<Byte>> {
    if link.direct then
      if Subscribed(at.container, frame) then Some(frame) else None
    else if !Subscribed(at.device, frame) then None
    else
      match Republished(link.parse, frame)
      case None => None
      case Some(f) => if Subscribed(at.container, f) then Some(f) else None
  }

  /** In direct mode the device plays no part. */
  predicate SamePlace(link: Link, route: Route, at: Route) {
    route.container == at.container && (link.direct || route.device == at.device)
  }

  /** One frame is seen at its own place and nowhere else, and there the payload is recovered. */
  lemma FrameReachesItsPlace(link: Link, route: Route, at: Route, source: string, payload: seq<Byte>)
    requires Faithful(link.serialize, link.parse) && Clean(route) && Clean(at)
    requires Pack(FlPayload, source, payload).Some?
    ensures var e := Pack(FlPayload, source, payload).value;
            var seen := Arriving(link, at, FrameFor(link, route, e));
            && (seen.Some? <==> SamePlace(link, route, at))
            && (seen.Some? ==> Hear(link.direct, seen.value) == Payload(e, payload))
  {
    var e := Pack(FlPayload, source, payload).value;
    UnpackPack(FlPayload, source, payload);
    if link.direct {
      SubscriptionIsExact(at.container, route.container, e);
      DirectFrame(route.container, FlPayload, source, payload);
    } else {
      RelayedFrameReaches(link, route, at, source, payload);
    }
  }

  lemma RelayedFrameReaches(link: Link, route: Route, at: Route, source: string, payload: seq<Byte>)
    requires Faithful(link.serialize, link.parse) && Clean(route) && Clean(at) && !link.direct
    requires Pack(FlPayload, source, payload).Some?
    ensures var e := Pack(FlPayload, source, payload).value;
            var seen := Arriving(link, at, FrameFor(link, route, e));
            && (seen.Some? <==> SamePlace(link, route, at))
            && (seen.Some? ==> Hear(false, seen.value) == Payload(e, payload))
  {
    var e := Pack(FlPayload, source, payload).value;
    var packaged := Packaged(route.container, e, link.raw);
    var inner := Encode(route.container) + [PIPE] + ([SPACE] + packaged.payload);
    PubIsReq(route.device, TO_CONTAINER, link.serialize(packaged));
    SubscriptionIsExact(at.device, route.device, [SPACE] + EncodeReq(TO_CONTAINER, link.serialize(packaged)));
    RepublishedRelay(link.serialize, link.parse, route.device, route.container, e, link.raw);
    SubscriptionIsExact(at.container, route.container, [SPACE] + packaged.payload);
    assert Hear(false, inner) == Payload(e, payload) by {
      UnpackPack(FlPayload, source, payload);
      RelayedRawFrame(route.container, FlPayload, source, payload);
      RelayedBase64Frame(route.container, e);
    }
  }
}
