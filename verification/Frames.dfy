/** The frames of distributed/control_plane/proto_bridge.py that the device agent sends and reads. */
module Frames {
  import opened Seqs
  import opened Bytes
  import Base64
  import opened Envelope

  const PIPE: Byte := 0x7C
  const SPACE: Byte := 0x20

  const TO_CONTROLLER: string := "TO_CONTROLLER"
  const TO_CONTAINER: string := "TO_CONTAINER"
  const FWD_CTRL: string := "FWD_CTRL"

  // ---- Message type translation ----

  function ToWire(t: string): string {
    if t == "CONTAINER_START" then "CONT_START"
    else if t == "DEVICE_ADVERTISEMENT" then "DEV_AD"
    else if t == "CONTAINER_STOP" then "CONT_STOP"
    else if t == "CONNECT_DEVICE" then "CON_DEV"
    else if t == TO_CONTROLLER then FWD_CTRL
    else if t == TO_CONTAINER then "FWD_CONT"
    else t
  }

  function FromWire(w: string): string {
    if w == "CONT_START" then "CONTAINER_START"
    else if w == "DEV_AD" then "DEVICE_ADVERTISEMENT"
    else if w == "CONT_STOP" then "CONTAINER_STOP"
    else if w == "CON_DEV" then "CONNECT_DEVICE"
    else if w == FWD_CTRL then TO_CONTROLLER
    else if w == "FWD_CONT" then TO_CONTAINER
    else w
  }

  predicate IsAbbreviation(t: string) {
    t == "CONT_START" || t == "DEV_AD" || t == "CONT_STOP" || t == "CON_DEV" || t == FWD_CTRL || t == "FWD_CONT"
  }

  /** The translation is undone exactly for the types that are not themselves wire names. */
  lemma TranslationRoundTrip(t: string)
    ensures FromWire(ToWire(t)) == t <==> !IsAbbreviation(t)
  {
  }

  lemma ToWireKeepsSpaces(t: string)
    ensures ' ' in ToWire(t) <==> ' ' in t
  {
  }

  lemma FromWireKeepsSpaces(w: string)
    ensures ' ' in FromWire(w) <==> ' ' in w
  {
  }

  // ---- REQ frames: "{WIRE} {payload}" ----

  function EncodeReq(t: string, payload: seq<Byte>): seq<Byte> {
    Encode(ToWire(t)) + [SPACE] + payload
  }

  /** None: no space, or the part before it is not UTF-8. */
  function DecodeReq(frame: seq<Byte>): Option<(string, seq<Byte>)> {
    match SplitType(frame)
    case None => None
    case Some(split) => Some((FromWire(split.0), split.1))
  }

  function SplitType(frame: seq<Byte>): Option<(string, seq<Byte>)> {
    match Find(frame, SPACE)
    case None => None
    case Some(k) =>
      match Decode(frame[..k])
      case None => None
      case Some(w) => Some((w, frame[k + 1..]))
  }

  lemma SplitEncoded(wire: string, payload: seq<Byte>)
    requires ' ' !in wire
    ensures SplitType(Encode(wire) + [SPACE] + payload) == Some((wire, payload))
  {
    AsciiOccurs(wire, ' ');
    FindAfter(Encode(wire), SPACE, payload);
    DecodeEncode(wire);
  }

  lemma SplitHasNoSpace(frame: seq<Byte>)
    ensures SplitType(frame).Some? ==> ' ' !in SplitType(frame).value.0
  {
    if SplitType(frame).Some? {
      var k := Find(frame, SPACE).value;
      EncodeDecode(frame[..k]);
      AsciiOccurs(Decode(frame[..k]).value, ' ');
    }
  }

  lemma ReqRoundTrip(t: string, payload: seq<Byte>)
    ensures DecodeReq(EncodeReq(t, payload)) == Some((t, payload)) <==> ' ' !in t && !IsAbbreviation(t)
  {
    ToWireKeepsSpaces(t);
    if ' ' !in t {
      TranslationRoundTrip(t);
      SplitEncoded(ToWire(t), payload);
    } else {
      var split := SplitType(EncodeReq(t, payload));
      SplitHasNoSpace(EncodeReq(t, payload));
      if split.Some? {
        FromWireKeepsSpaces(split.value.0);
      }
    }
  }

  // ---- PUB frames: "{device}| {WIRE} {payload}" ----

  function EncodePub(device: string, t: string, payload: seq<Byte>): seq<Byte> {
    Encode(device) + [PIPE, SPACE] + Encode(ToWire(t)) + [SPACE] + payload
  }

  /** None: a separator is missing, or a name is not UTF-8. */
  function DecodePub(frame: seq<Byte>): Option<(string, string, seq<Byte>)> {
    match SplitDevice(frame)
    case None => None
    case Some(split) =>
      match DecodeReq(split.1)
      case None => None
      case Some(rest) => Some((split.0, rest.0, rest.1))
  }

  /** The part up to the '|', and what follows it and the character after it. */
  function SplitDevice(frame: seq<Byte>): Option<(string, seq<Byte>)> {
    match Find(frame, PIPE)
    case None => None
    case Some(k) =>
      match Decode(frame[..k])
      case None => None
      case Some(device) => Some((device, if k + 2 > |frame| then [] else frame[k + 2..]))
  }

  lemma SplitDeviceEncoded(device: string, rest: seq<Byte>)
    requires '|' !in device
    ensures SplitDevice(Encode(device) + [PIPE] + ([SPACE] + rest)) == Some((device, rest))
  {
    AsciiOccurs(device, '|');
    FindAfter(Encode(device), PIPE, [SPACE] + rest);
    DecodeEncode(device);
    PartsOf(Encode(device), rest);
  }

  lemma PartsOf(name: seq<Byte>, rest: seq<Byte>)
    ensures var frame := name + [PIPE] + ([SPACE] + rest);
            |frame| == |name| + 2 + |rest| && frame[..|name|] == name && frame[|name| + 2..] == rest
  {
  }

  lemma SplitDeviceHasNoPipe(frame: seq<Byte>)
    ensures SplitDevice(frame).Some? ==> '|' !in SplitDevice(frame).value.0
  {
    if SplitDevice(frame).Some? {
      var k := Find(frame, PIPE).value;
      EncodeDecode(frame[..k]);
      AsciiOccurs(Decode(frame[..k]).value, '|');
    }
  }

  lemma PubRoundTrip(device: string, t: string, payload: seq<Byte>)
    ensures DecodePub(EncodePub(device, t, payload)) == Some((device, t, payload))
            <==> '|' !in device && ' ' !in t && !IsAbbreviation(t)
  {
    if '|' !in device {
      PubIsReq(device, t, payload);
      SplitDeviceEncoded(device, EncodeReq(t, payload));
      ReqRoundTrip(t, payload);
    } else {
      SplitDeviceHasNoPipe(EncodePub(device, t, payload));
    }
  }

  lemma PubIsReq(device: string, t: string, payload: seq<Byte>)
    ensures EncodePub(device, t, payload) == Encode(device) + [PIPE] + ([SPACE] + EncodeReq(t, payload))
  {
  }

  // ---- Telling relay data from control messages ----

  predicate IsRelayData(raw: seq<Byte>) {
    raw != [] && raw[0] < 0x20
  }

  lemma EnvelopesAreRelayData(t: MessageType, source: string, payload: seq<Byte>)
    requires Pack(t, source, payload).Some?
    ensures IsRelayData(Pack(t, source, payload).value) <==> t in {ToController, FlPayload, ControlPlane}
  {
  }

  /** A control frame is taken for relay data exactly if its type starts with a control character. */
  lemma ControlFramesAreNot(t: string, payload: seq<Byte>)
    ensures IsRelayData(EncodeReq(t, payload)) <==> t != "" && (t[0] as int) < 0x20
  {
    var wire := ToWire(t);
    if wire != "" {
      assert EncodeReq(t, payload)[0] == EncodeChar(wire[0])[0];
    }
  }

  // ---- the table itself, and frames that are none ----

  /** The six abbreviations, both ways; every other type travels as it is. */
  lemma WireNames(t: string)
    ensures ToWire("CONTAINER_START") == "CONT_START" && FromWire("CONT_START") == "CONTAINER_START"
    ensures ToWire("DEVICE_ADVERTISEMENT") == "DEV_AD" && FromWire("DEV_AD") == "DEVICE_ADVERTISEMENT"
    ensures ToWire("CONTAINER_STOP") == "CONT_STOP" && FromWire("CONT_STOP") == "CONTAINER_STOP"
    ensures ToWire("CONNECT_DEVICE") == "CON_DEV" && FromWire("CON_DEV") == "CONNECT_DEVICE"
    ensures ToWire("TO_CONTROLLER") == "FWD_CTRL" && FromWire("FWD_CTRL") == "TO_CONTROLLER"
    ensures ToWire("TO_CONTAINER") == "FWD_CONT" && FromWire("FWD_CONT") == "TO_CONTAINER"
    ensures (t !in {"CONTAINER_START", "DEVICE_ADVERTISEMENT", "CONTAINER_STOP", "CONNECT_DEVICE", "TO_CONTROLLER",
                    "TO_CONTAINER"}) ==> ToWire(t) == t
  {
  }

  /** Without its separators a frame is refused. */
  lemma NoSeparatorNoFrame(frame: seq<Byte>)
    ensures 0x20 !in frame ==> DecodeReq(frame) == None
    ensures 0x7C !in frame ==> DecodePub(frame) == None
  {
  }
}
