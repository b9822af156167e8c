/** Messages, what handlers see of them, and what handlers send: shared by the two event loops. */
module Messages {

  datatype Message = Message(sender: nat, receivers: seq<nat>, state: int, timestamp: real, payload: int)
  datatype Delivery = Delivery(receiver: nat, msg: Message)

  type Handler = seq<Delivery> -> seq<Message>

  /** The deliveries of a list of messages: each to each of its receivers, in order. */
  function Deliveries(msg: Message, receivers: seq<nat>): (r: seq<Delivery>)
    ensures |r| == |receivers| && forall i :: 0 <= i < |r| ==> r[i] == Delivery(receivers[i], msg)
  {
    seq(|receivers|, i requires 0 <= i < |receivers| => Delivery(receivers[i], msg))
  }

  function AllDeliveries(msgs: seq<Message>): seq<Delivery>
    decreases |msgs|
  {
    if msgs == [] then []
    else AllDeliveries(msgs[..|msgs| - 1]) + Deliveries(msgs[|msgs| - 1], msgs[|msgs| - 1].receivers)
  }

  lemma FirstDelivery(log: seq<Delivery>, msg: Message, receivers: seq<nat>)
    requires receivers != []
    ensures log + Deliveries(msg, receivers) == log + [Delivery(receivers[0], msg)] + Deliveries(msg, receivers[1..])
  {
  }

  /** Everything the handlers have sent, delivery by delivery. */
  function RepliesTo(log: seq<Delivery>, handler: Handler): seq<Message> {
    if log == [] then [] else RepliesTo(log[..|log| - 1], handler) + handler(log)
  }

  lemma RepliesSnoc(start: seq<Message>, log: seq<Delivery>, d: Delivery, handler: Handler)
    ensures start + RepliesTo(log + [d], handler) == start + RepliesTo(log, handler) + handler(log + [d])
  {
    assert (log + [d])[..|log|] == log;
  }

  lemma {:induction false} NoReplies(log: seq<Delivery>, handler: Handler)
    requires forall log :: handler(log) == []
    ensures RepliesTo(log, handler) == []
  {
    if log != [] {
      NoReplies(log[..|log| - 1], handler);
    }
  }
}
