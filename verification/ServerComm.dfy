/** ZMQServerCommManager: routing and the send loop, and the uplink in the other direction. */
module ServerComm {
  import opened Seqs
  import opened Bytes
  import opened Envelope
  import opened Frames
  import opened Downlink

  // ---- Routing ----

  /** A neighbor's address: a dict with or without the two names, or something without `get`. */
  datatype Address = Dict(device: Option<string>, container: Option<string>) | NoDict

  function Digit(d: int): char
    requires 0 <= d < 10
  {
    (48 + d) as char
  }

  /** str(n). */
  function Decimal(n: int): string
    decreases if n < 0 then 1 - n else n
  {
    if n < 0 then "-" + Decimal(-n)
    else if n < 10 then [Digit(n)]
    else Decimal(n / 10) + [Digit(n % 10)]
  }

  function Default<T>(x: Option<T>, default: T): T {
    if x.Some? then x.value else default
  }

  /** The routing table first, then the neighbor's address with default names. None: the lookup
      raises, and the receiver is skipped. */
  function RouteOf(routing: map<int, Route>, neighbors: map<int, Address>, id: int): Option<Route> {
    if id in routing then Some(routing[id])
    else
      match if id in neighbors then neighbors[id] else Dict(None, None)
      case NoDict => None
      case Dict(device, container) =>
        Some(Route(Default(device, "device_" + Decimal(id)), Default(container, "fl_worker_" + Decimal(id))))
  }

  lemma {:induction false} DecimalHasNoPipe(n: int)
    ensures '|' !in Decimal(n)
    decreases if n < 0 then 1 - n else n
  {
    if n < 0 {
      DecimalHasNoPipe(-n);
    } else if n >= 10 {
      DecimalHasNoPipe(n / 10);
    }
  }

  /** Clients nobody has registered still get names that frame correctly. */
  lemma DefaultRoutesAreClean(routing: map<int, Route>, neighbors: map<int, Address>, id: int)
    requires id !in routing && id !in neighbors
    ensures RouteOf(routing, neighbors, id).Some? && Clean(RouteOf(routing, neighbors, id).value)
  {
    DecimalHasNoPipe(id);
  }

  /** Where a receiver lives: the table decides; without an entry the neighbor's address does, each missing
      name made from the id; what is no dict makes the lookup raise. */
  lemma RoutesResolve(routing: map<int, Route>, neighbors: map<int, Address>, id: int)
    ensures id in routing ==> RouteOf(routing, neighbors, id) == Some(routing[id])
    ensures id !in routing && id in neighbors && neighbors[id].NoDict? ==> RouteOf(routing, neighbors, id) == None
    ensures id !in routing && (id in neighbors ==> neighbors[id].Dict?) ==>
              var route := RouteOf(routing, neighbors, id);
              && route.Some?
              && route.value.device == (if id in neighbors && neighbors[id].device.Some?
                                        then neighbors[id].device.value else "device_" + Decimal(id))
              && route.value.container == (if id in neighbors && neighbors[id].container.Some?
                                           then neighbors[id].container.value else "fl_worker_" + Decimal(id))
  {
  }

  lemma DigitsDiffer(a: int, b: int)
    requires 0 <= a < 10 && 0 <= b < 10 && Digit(a) == Digit(b)
    ensures a == b
  {
  }

  /** Decimal numerals start with a minus sign exactly below zero, and are never empty. */
  lemma {:induction false} DecimalSign(n: int)
    ensures Decimal(n) != "" && (Decimal(n)[0] == '-' <==> n < 0)
    decreases if n < 0 then 1 - n else n
  {
    if n >= 10 {
      DecimalSign(n / 10);
    }
  }

  lemma {:induction false} DecimalShort(n: int)
    requires n >= 0
    ensures |Decimal(n)| == 1 <==> n < 10
    decreases n
  {
    if n >= 10 {
      DecimalSign(n / 10);
    }
  }

  /** Different numbers have different numerals. */
  lemma {:induction false} DecimalInjective(a: int, b: int)
    requires Decimal(a) == Decimal(b)
    ensures a == b
    decreases if a < 0 then 1 - a else a
  {
    DecimalSign(a);
    DecimalSign(b);
    if a < 0 {
      assert Decimal(-a) == Decimal(a)[1..] && Decimal(-b) == Decimal(b)[1..];
      DecimalInjective(-a, -b);
    } else {
      DecimalShort(a);
      DecimalShort(b);
      if a < 10 {
        DigitsDiffer(a, b);
      } else {
        var x, y := Decimal(a), Decimal(b);
        assert Decimal(a / 10) == x[..|x| - 1] && Decimal(b / 10) == y[..|y| - 1];
        assert Digit(a % 10) == x[|x| - 1] && Digit(b % 10) == y[|y| - 1];
        DigitsDiffer(a % 10, b % 10);
        DecimalInjective(a / 10, b / 10);
      }
    }
  }

  /** Clients nobody has registered never share a place, in either mode. */
  lemma DefaultRoutesDiffer(link: Link, routing: map<int, Route>, neighbors: map<int, Address>, id: int, id': int)
    requires id !in routing && id !in neighbors && id' !in routing && id' !in neighbors && id != id'
    ensures !SamePlace(link, RouteOf(routing, neighbors, id).value, RouteOf(routing, neighbors, id').value)
  {
    var a, b := "fl_worker_" + Decimal(id), "fl_worker_" + Decimal(id');
    if a == b {
      assert a[|"fl_worker_"|..] == Decimal(id) && b[|"fl_worker_"|..] == Decimal(id');
      DecimalInjective(id, id');
    }
  }

  // ---- The send loop ----

  lemma {:induction false} EncodedLength(s: string)
    ensures |Encode(s)| <= 4 * |s|
  {
    if s != "" {
      EncodedLength(s[1..]);
    }
  }

  lemma ServerNameFits(payload: seq<Byte>)
    ensures Pack(FlPayload, "server", payload).Some?
  {
    EncodedLength("server");
  }

  /** The frame for one receiver, if it can be routed. */
  function FramesTo(link: Link, routing: map<int, Route>, neighbors: map<int, Address>, id: int,
                    envelope: seq<Byte>): seq<seq<Byte>>
  {
    match RouteOf(routing, neighbors, id)
    case None => []
    case Some(route) => [FrameFor(link, route, envelope)]
  }

  /** The frames of one send, receiver by receiver. */
  function FramesFor(link: Link, routing: map<int, Route>, neighbors: map<int, Address>,
                     ids: seq<int>, envelope: seq<Byte>): seq<seq<Byte>>
  {
    if ids == [] then []
    else
      FramesFor(link, routing, neighbors, ids[..|ids| - 1], envelope)
      + FramesTo(link, routing, neighbors, ids[|ids| - 1], envelope)
  }

  lemma FramesNext(link: Link, routing: map<int, Route>, neighbors: map<int, Address>, published: seq<seq<Byte>>,
                   ids: seq<int>, k: nat, envelope: seq<Byte>)
    requires k < |ids|
    ensures published + FramesFor(link, routing, neighbors, ids[..k], envelope)
            + FramesTo(link, routing, neighbors, ids[k], envelope)
            == published + FramesFor(link, routing, neighbors, ids[..k + 1], envelope)
  {
    assert ids[..k + 1][..k] == ids[..k];
  }

  /** message.receiver: None for everybody, a single id, or a list. */
  datatype Receivers = Everyone | One(id: int) | Listed(ids: seq<int>)

  lemma FramesForOne(link: Link, routing: map<int, Route>, neighbors: map<int, Address>, id: int, envelope: seq<Byte>)
    ensures FramesFor(link, routing, neighbors, [id], envelope) == FramesTo(link, routing, neighbors, id, envelope)
  {
    assert [id][..0] == [] && FramesFor(link, routing, neighbors, [id][..0], envelope) == [];
  }

  /** The frames of a send, by kind of receiver. */
  function SentFrames(link: Link, routing: map<int, Route>, neighbors: map<int, Address>, neighborIds: seq<int>,
                      receivers: Receivers, envelope: seq<Byte>): seq<seq<Byte>>
  {
    match receivers
    case Everyone => FramesFor(link, routing, neighbors, neighborIds, envelope)
    case One(id) => FramesTo(link, routing, neighbors, id, envelope)
    case Listed(ids) => FramesFor(link, routing, neighbors, ids, envelope)
  }

  class Server {
    const link: Link
    var clientRouting: map<int, Route>
    /** The neighbors dict, and its keys in insertion order. */
    var neighbors: map<int, Address>
    var neighborIds: seq<int>
    /** What went out on the PUB socket. */
    var published: seq<seq<Byte>>

    ghost predicate Valid()
      reads this
    {
      Distinct(neighborIds) && forall id :: id in neighborIds <==> id in neighbors
    }

    constructor (link: Link, routing: map<int, Route>)
      ensures Valid() && this.link == link && clientRouting == routing && neighbors == map[] && published == []
    {
      this.link := link;
      clientRouting := routing;
      neighbors, neighborIds, published := map[], [], [];
    }

    /** add_neighbors: an address with both names also becomes a route. */
    method AddNeighbor(id: int, address: Address)
      requires Valid()
      modifies this
      ensures Valid()
      ensures neighbors == old(neighbors)[id := address] && published == old(published)
      ensures neighborIds == if id in old(neighbors) then old(neighborIds) else old(neighborIds) + [id]
      ensures address.Dict? && address.device.Some? && address.container.Some? ==>
                RouteOf(clientRouting, neighbors, id) == Some(Route(address.device.value, address.container.value))
      ensures forall other :: other != id ==>
                RouteOf(clientRouting, neighbors, other) == RouteOf(old(clientRouting), old(neighbors), other)
    {
      if id !in neighbors {
        neighborIds := neighborIds + [id];
      }
      neighbors := neighbors[id := address];
      if address.Dict? && address.device.Some? && address.container.Some? {
        clientRouting := clientRouting[id := Route(address.device.value, address.container.value)];
      }
    }

    /** send: one frame for each receiver that can be routed, in order; SendReaches says who hears them. */
    method Send(receivers: Receivers, flPayload: seq<Byte>)
      requires Valid()
      modifies this`published
      ensures Pack(FlPayload, "server", flPayload).Some?
      ensures var e := Pack(FlPayload, "server", flPayload).value;
              && published == old(published) + SentFrames(link, clientRouting, neighbors, neighborIds, receivers, e)
              && (receivers == Everyone ==>
                    published == old(published) + FramesFor(link, clientRouting, neighbors, neighborIds, e))
              && (receivers.One? ==>
                    published == old(published) + FramesTo(link, clientRouting, neighbors, receivers.id, e))
              && (receivers.Listed? ==>
                    published == old(published) + FramesFor(link, clientRouting, neighbors, receivers.ids, e))
    {
      ServerNameFits(flPayload);
      ghost var e := Pack(FlPayload, "server", flPayload).value;
      var ids := match receivers case Everyone => neighborIds case One(id) => [id] case Listed(listed) => listed;
      if receivers.One? {
        FramesForOne(link, clientRouting, neighbors, receivers.id, e);
      }
      PublishAll(ids, flPayload, e);
    }

    /** The loop body: pack and publish, unless the receiver cannot be routed. */
    method PublishTo(id: int, flPayload: seq<Byte>, ghost envelope: seq<Byte>)
      requires Pack(FlPayload, "server", flPayload) == Some(envelope)
      modifies this`published
      ensures published == old(published) + FramesTo(link, clientRouting, neighbors, id, envelope)
    {
      var route := RouteOf(clientRouting, neighbors, id);
      if route.Some? {
        var packed := Pack(FlPayload, "server", flPayload);
        published := published + [FrameFor(link, route.value, packed.value)];
      }
    }

    /** The loop over the receivers; `envelope` is what each iteration packs. */
    method PublishAll(ids: seq<int>, flPayload: seq<Byte>, ghost envelope: seq<Byte>)
      requires Pack(FlPayload, "server", flPayload) == Some(envelope)
      modifies this`published
      ensures published == old(published) + FramesFor(link, clientRouting, neighbors, ids, envelope)
    {
      for k := 0 to |ids|
        invariant published == old(published) + FramesFor(link, clientRouting, neighbors, ids[..k], envelope)
      {
        FramesNext(link, clientRouting, neighbors, old(published), ids, k, envelope);
        PublishTo(ids[k], flPayload, envelope);
      }
      assert ids[..|ids|] == ids;
    }
  }

  // ---- Delivery of a whole send ----

  /** The payloads a client at a place reads from a stretch of published frames. */
  function HeardAt(link: Link, at: Route, frames: seq<seq<Byte>>): seq<seq<Byte>> {
    if frames == [] then []
    else
      var before := HeardAt(link, at, frames[..|frames| - 1]);
      match Arriving(link, at, frames[|frames| - 1])
      case None => before
      case Some(raw) =>
        match Hear(link.direct, raw)
        case Payload(_, payload) => before + [payload]
        case _ => before
  }

  /** How many of the receivers live at a place. */
  function ReceiversAt(link: Link, routing: map<int, Route>, neighbors: map<int, Address>,
                       ids: seq<int>, at: Route): nat
  {
    if ids == [] then 0
    else
      var route := RouteOf(routing, neighbors, ids[|ids| - 1]);
      ReceiversAt(link, routing, neighbors, ids[..|ids| - 1], at)
      + (if route.Some? && SamePlace(link, route.value, at) then 1 else 0)
  }

  /** Every receiver that can be routed has a route that frames correctly. */
  ghost predicate CleanRoutes(routing: map<int, Route>, neighbors: map<int, Address>, ids: seq<int>) {
    forall k :: 0 <= k < |ids| ==>
      var route := RouteOf(routing, neighbors, ids[k]);
      route.Some? ==> Clean(route.value)
  }

  /** One more frame is heard at its own place and nowhere else. */
  lemma HeardSnoc(link: Link, route: Route, at: Route, before: seq<seq<Byte>>, payload: seq<Byte>, e: seq<Byte>)
    requires Faithful(link.serialize, link.parse) && Clean(route) && Clean(at)
    requires Pack(FlPayload, "server", payload) == Some(e)
    ensures HeardAt(link, at, before + [FrameFor(link, route, e)])
            == HeardAt(link, at, before) + if SamePlace(link, route, at) then [payload] else []
  {
    FrameReachesItsPlace(link, route, at, "server", payload);
    assert (before + [FrameFor(link, route, e)])[..|before|] == before;
  }

  function Repeated(payload: seq<Byte>, n: nat): (r: seq<seq<Byte>>)
    ensures |r| == n && forall i :: 0 <= i < n ==> r[i] == payload
  {
    seq(n, _ => payload)
  }

  lemma RepeatedOnce(payload: seq<Byte>, n: nat)
    ensures Repeated(payload, n + 1) == Repeated(payload, n) + [payload]
    ensures Repeated(payload, n + 0) == Repeated(payload, n) + []
  {
  }

  lemma {:induction false} FramesHeard(link: Link, routing: map<int, Route>, neighbors: map<int, Address>,
                                       ids: seq<int>, at: Route, payload: seq<Byte>, e: seq<Byte>)
    requires Faithful(link.serialize, link.parse) && Clean(at) && CleanRoutes(routing, neighbors, ids)
    requires Pack(FlPayload, "server", payload) == Some(e)
    ensures HeardAt(link, at, FramesFor(link, routing, neighbors, ids, e))
            == Repeated(payload, ReceiversAt(link, routing, neighbors, ids, at))
  {
    if ids != [] {
      var init := ids[..|ids| - 1];
      FramesHeard(link, routing, neighbors, init, at, payload, e);
      RepeatedOnce(payload, ReceiversAt(link, routing, neighbors, init, at));
      var route := RouteOf(routing, neighbors, ids[|ids| - 1]);
      if route.Some? {
        HeardSnoc(link, route.value, at, FramesFor(link, routing, neighbors, init, e), payload, e);
      } else {
        assert FramesFor(link, routing, neighbors, ids, e) == FramesFor(link, routing, neighbors, init, e);
      }
    }
  }

  /** After a send, each client has heard the payload, unchanged, once for every receiver routed to
      it, and nothing else. */
  lemma SendDelivers(link: Link, routing: map<int, Route>, neighbors: map<int, Address>, ids: seq<int>, at: Route,
                     payload: seq<Byte>)
    requires Faithful(link.serialize, link.parse) && Clean(at) && CleanRoutes(routing, neighbors, ids)
    ensures Pack(FlPayload, "server", payload).Some?
    ensures var e := Pack(FlPayload, "server", payload).value;
            HeardAt(link, at, FramesFor(link, routing, neighbors, ids, e))
            == Repeated(payload, ReceiversAt(link, routing, neighbors, ids, at))
  {
    ServerNameFits(payload);
    FramesHeard(link, routing, neighbors, ids, at, payload, Pack(FlPayload, "server", payload).value);
  }

  /** The receiver can be routed, and lives at the place. */
  function LivesAt(link: Link, routing: map<int, Route>, neighbors: map<int, Address>, at: Route): int -> bool {
    (id: int) =>
      var route := RouteOf(routing, neighbors, id);
      route.Some? && SamePlace(link, route.value, at)
  }

  lemma {:induction false} ReceiversCounted(link: Link, routing: map<int, Route>, neighbors: map<int, Address>,
                                            ids: seq<int>, at: Route)
    ensures ReceiversAt(link, routing, neighbors, ids, at) == |Filter(ids, LivesAt(link, routing, neighbors, at))|
  {
    if ids != [] {
      var init, last := ids[..|ids| - 1], ids[|ids| - 1];
      ReceiversCounted(link, routing, neighbors, init, at);
      assert ids == init + [last];
      FilterSnoc(init, last, LivesAt(link, routing, neighbors, at));
    }
  }

  /** After a send, a client has heard the payload, unchanged: of a listed message once for every listed
      receiver that lives at its place; of a message for one receiver only if that one lives there; of a
      message for everyone once for every neighbor there. */
  lemma SendReaches(link: Link, routing: map<int, Route>, neighbors: map<int, Address>, neighborIds: seq<int>,
                    receivers: Receivers, at: Route, payload: seq<Byte>, e: seq<Byte>)
    requires Faithful(link.serialize, link.parse) && Clean(at) && Pack(FlPayload, "server", payload) == Some(e)
    requires forall id :: RouteOf(routing, neighbors, id).Some? ==> Clean(RouteOf(routing, neighbors, id).value)
    ensures var heard := HeardAt(link, at, SentFrames(link, routing, neighbors, neighborIds, receivers, e));
            var lives := LivesAt(link, routing, neighbors, at);
            && (receivers.Listed? ==> heard == Repeated(payload, |Filter(receivers.ids, lives)|))
            && (receivers.One? ==> heard == if lives(receivers.id) then [payload] else [])
            && (receivers.Everyone? ==> heard == Repeated(payload, |Filter(neighborIds, lives)|))
  {
    match receivers
    case Everyone => ListReaches(link, routing, neighbors, neighborIds, at, payload, e);
    case Listed(ids) => ListReaches(link, routing, neighbors, ids, at, payload, e);
    case One(id) => OneReaches(link, routing, neighbors, id, at, payload, e);
  }

  lemma ListReaches(link: Link, routing: map<int, Route>, neighbors: map<int, Address>, ids: seq<int>, at: Route,
                    payload: seq<Byte>, e: seq<Byte>)
    requires Faithful(link.serialize, link.parse) && Clean(at) && Pack(FlPayload, "server", payload) == Some(e)
    requires CleanRoutes(routing, neighbors, ids)
    ensures HeardAt(link, at, FramesFor(link, routing, neighbors, ids, e))
            == Repeated(payload, |Filter(ids, LivesAt(link, routing, neighbors, at))|)
  {
    FramesHeard(link, routing, neighbors, ids, at, payload, e);
    ReceiversCounted(link, routing, neighbors, ids, at);
  }

  lemma OneReaches(link: Link, routing: map<int, Route>, neighbors: map<int, Address>, id: int, at: Route,
                   payload: seq<Byte>, e: seq<Byte>)
    requires Faithful(link.serialize, link.parse) && Clean(at) && Pack(FlPayload, "server", payload) == Some(e)
    requires CleanRoutes(routing, neighbors, [id])
    ensures HeardAt(link, at, FramesTo(link, routing, neighbors, id, e))
            == if LivesAt(link, routing, neighbors, at)(id) then [payload] else []
  {
    var route := RouteOf(routing, neighbors, id);
    assert RouteOf(routing, neighbors, [id][0]) == route;
    if route.Some? {
      HeardSnoc(link, route.value, at, [], payload, e);
      assert [] + [FrameFor(link, route.value, e)] == [FrameFor(link, route.value, e)];
    }
  }

  // ---- Uplink ----

  /** ZMQClientCommManager.send; None is the exception for a name too long for the envelope. */
  function ClientFrame(direct: bool, container: string, payload: seq<Byte>): Option<seq<Byte>> {
    match Pack(ToController, container, payload)
    case None => None
    case Some(e) => Some(if direct then e else Encode(FWD_CTRL) + [SPACE] + e)
  }

  /** ForwardToController strips the type; the control plane queues relay data for the server. */
  function Queued(direct: bool, frame: seq<Byte>): Option<seq<Byte>> {
    if direct then Some(frame)
    else
      match DecodeReq(frame)
      case None => None
      case Some(req) => if req.0 == TO_CONTROLLER && IsRelayData(req.1) then Some(req.1) else None
  }

  /** _receive_loop_direct and _receive_loop_relay: the payload handed to deserialize_message. */
  function ServerHears(direct: bool, frame: seq<Byte>): Option<seq<Byte>> {
    match Queued(direct, frame)
    case None => None
    case Some(raw) =>
      match Unpack(raw)
      case None => None
      case Some(unpacked) => if unpacked.0 == ToController then Some(unpacked.1) else None
  }

  lemma UplinkDelivers(direct: bool, container: string, payload: seq<Byte>)
    ensures ClientFrame(direct, container, payload).Some? <==> |Encode(container)| <= 65535
    ensures ClientFrame(direct, container, payload).Some? ==>
              ServerHears(direct, ClientFrame(direct, container, payload).value) == Some(payload)
  {
    UnpackPack(ToController, container, payload);
    if |Encode(container)| <= 65535 {
      var e := Pack(ToController, container, payload).value;
      UplinkQueued(direct, e);
    }
  }

  /** The bytes of a client's frame. */
  lemma UplinkBytes(direct: bool, container: string, payload: seq<Byte>)
    requires |Encode(container)| <= 65535
    ensures var n := |Encode(container)|;
            ClientFrame(direct, container, payload)
            == Some((if direct then [] else Encode("FWD_CTRL") + [0x20])
                    + ([0x01, n / 256, n % 256] + Encode(container) + payload))
  {
    var e := [0x01, |Encode(container)| / 256, |Encode(container)| % 256] + Encode(container) + payload;
    assert Pack(ToController, container, payload) == Some(e);
    assert [] + e == e;
  }

  /** The server takes a frame for a client's message exactly if the envelope is one for the controller and, in
      relay mode, so is the frame. */
  lemma OnlyOwnFramesAreHeard(frameType: string, t: MessageType, source: string, payload: seq<Byte>)
    requires Pack(t, source, payload).Some? && ' ' !in frameType && !IsAbbreviation(frameType)
    ensures var e := Pack(t, source, payload).value;
            && ServerHears(true, e) == (if t == ToController then Some(payload) else None)
            && ServerHears(false, EncodeReq(frameType, e))
               == (if frameType == "TO_CONTROLLER" && t == ToController then Some(payload) else None)
  {
    var e := Pack(t, source, payload).value;
    UnpackPack(t, source, payload);
    ReqRoundTrip(frameType, e);
    EnvelopesAreRelayData(t, source, payload);
  }

  /** Either way the envelope arrives in the server's queue. */
  lemma UplinkQueued(direct: bool, e: seq<Byte>)
    requires IsRelayData(e)
    ensures Queued(direct, if direct then e else Encode(FWD_CTRL) + [SPACE] + e) == Some(e)
  {
    AgentStripsPrefix(e);
  }

  lemma AgentStripsPrefix(e: seq<Byte>)
    ensures DecodeReq(Encode(FWD_CTRL) + [SPACE] + e) == Some((TO_CONTROLLER, e))
  {
    SplitEncoded(FWD_CTRL, e);
  }
}
