/** StandaloneRunner's online loop: broadcasts from the server are cached and delivered one
    receiver per iteration, everything else is handled at once. */
module SimulationOnline {
  import opened Messages

  predicate IsBroadcast(msg: Message) {
    |msg.receivers| >= 1 && msg.sender == 0
  }

  /** The loop's state and its history: every delivery made, the broadcasts delivered to all their
      receivers, and everything ever enqueued. */
  datatype Online = Online(queue: seq<Message>, cached: seq<Message>, curIdx: nat, log: seq<Delivery>,
                           finished: seq<Message>, sent: seq<Message>)

  function StartOnline(queue: seq<Message>): Online {
    Online(queue, [], 0, [], [], queue)
  }

  predicate IdleOnline(s: Online) {
    s.queue == [] && s.cached == []
  }

  /** A pending broadcast is at the head, with its cursor in range. */
  predicate CursorOk(s: Online) {
    && (s.cached == [] ==> s.curIdx == 0)
    && (s.cached != [] ==> s.curIdx < |s.cached[0].receivers|)
  }

  /** One handler call; what it sends joins the queue. */
  function Call(s: Online, d: Delivery, handler: Handler): Online {
    var log := s.log + [d];
    var replies := handler(log);
    s.(log := log, queue := s.queue + replies, sent := s.sent + replies)
  }

  /** _handle_msg for a message that is not a server broadcast. */
  function CallAll(s: Online, msg: Message, receivers: seq<nat>, handler: Handler): Online
    decreases |receivers|
  {
    if receivers == [] then s
    else CallAll(Call(s, Delivery(receivers[0], msg), handler), msg, receivers[1..], handler)
  }

  /** Deliver the head broadcast to the receiver under the cursor and advance the cursor. */
  function DeliverOne(s: Online, handler: Handler): Online
    requires s.cached != [] && s.curIdx < |s.cached[0].receivers|
  {
    var msg := s.cached[0];
    var d := Delivery(msg.receivers[s.curIdx], msg);
    var t := Call(s, d, handler);
    if s.curIdx + 1 >= |msg.receivers| then
      t.(cached := s.cached[1..], curIdx := 0, finished := s.finished + [msg])
    else t.(curIdx := s.curIdx + 1)
  }

  /** One iteration of _run_simulation_online. */
  function StepOnline(s: Online, handler: Handler): Online
    requires CursorOk(s) && forall i :: 0 <= i < |s.cached| ==> IsBroadcast(s.cached[i])
  {
    if s.queue != [] then
      var msg := s.queue[0];
      var rest := s.(queue := s.queue[1..]);
      if IsBroadcast(msg) then
        DeliverOne(rest.(cached := s.cached + [msg]), handler)
      else
        CallAll(rest, msg, msg.receivers, handler)
    else if s.cached != [] then DeliverOne(s, handler)
    else s
  }

  // ---- what every step keeps ----

  /** Of a list of messages the broadcasts, or the others, in order. */
  function Kind(msgs: seq<Message>, broadcast: bool): seq<Message> {
    if msgs == [] then []
    else
      var last := msgs[|msgs| - 1];
      Kind(msgs[..|msgs| - 1], broadcast) + if IsBroadcast(last) == broadcast then [last] else []
  }

  /** Of what the handlers have seen, the deliveries of broadcasts, or of other messages. */
  function SeenOf(log: seq<Delivery>, broadcast: bool): seq<Delivery> {
    if log == [] then []
    else
      var last := log[|log| - 1];
      SeenOf(log[..|log| - 1], broadcast) + if IsBroadcast(last.msg) == broadcast then [last] else []
  }

  lemma KindSnoc(msgs: seq<Message>, msg: Message, broadcast: bool)
    ensures Kind(msgs + [msg], broadcast) == Kind(msgs, broadcast) + if IsBroadcast(msg) == broadcast then [msg] else []
  {
    assert (msgs + [msg])[..|msgs|] == msgs;
  }

  lemma SeenOfSnoc(log: seq<Delivery>, d: Delivery, broadcast: bool)
    ensures SeenOf(log + [d], broadcast) == SeenOf(log, broadcast) + if IsBroadcast(d.msg) == broadcast then [d] else []
  {
    assert (log + [d])[..|log|] == log;
  }

  /** Both kinds together are everything: no message is left out of both lists or put in both. */
  lemma {:induction false} KindsAreAll(msgs: seq<Message>)
    ensures multiset(Kind(msgs, true)) + multiset(Kind(msgs, false)) == multiset(msgs)
    decreases |msgs|
  {
    if msgs != [] {
      var front, last := msgs[..|msgs| - 1], msgs[|msgs| - 1];
      KindsAreAll(front);
      assert msgs == front + [last];
      KindsSnoc(Kind(front, true), Kind(front, false), front, last);
      KindSnoc(front, last, true);
      KindSnoc(front, last, false);
    }
  }

  lemma KindsSnoc<T>(a: seq<T>, b: seq<T>, all: seq<T>, x: T)
    requires multiset(a) + multiset(b) == multiset(all)
    ensures multiset(a + [x]) + multiset(b + []) == multiset(all + [x])
    ensures multiset(a + []) + multiset(b + [x]) == multiset(all + [x])
  {
    assert a + [] == a && b + [] == b;
  }

  /** The queue is the end of what was sent: messages are taken in the order they were enqueued. */
  ghost predicate QueueIsTail(s: Online) {
    |s.queue| <= |s.sent| && s.sent[|s.sent| - |s.queue|..] == s.queue
  }

  function Taken(s: Online): seq<Message>
    requires |s.queue| <= |s.sent|
  {
    s.sent[..|s.sent| - |s.queue|]
  }

  /** The head broadcast's deliveries so far. */
  function Partial(s: Online): seq<Delivery>
    requires CursorOk(s)
  {
    if s.cached == [] then [] else Deliveries(s.cached[0], s.cached[0].receivers[..s.curIdx])
  }

  /** What the handlers have seen of broadcasts is exactly the receivers of all finished broadcasts in
      the order sent, then the first `curIdx` receivers of the head broadcast. */
  ghost predicate BroadcastsExact(s: Online, taken: seq<Message>) {
    && CursorOk(s)
    && s.finished + s.cached == Kind(taken, true)
    && SeenOf(s.log, true) == AllDeliveries(s.finished) + Partial(s)
  }

  /** And of other messages exactly the receivers of all that were taken. */
  ghost predicate OthersExact(s: Online, taken: seq<Message>) {
    SeenOf(s.log, false) == AllDeliveries(Kind(taken, false))
  }

  ghost predicate Inv(s: Online) {
    && QueueIsTail(s)
    && (forall i :: 0 <= i < |s.cached| ==> IsBroadcast(s.cached[i]))
    && BroadcastsExact(s, Taken(s)) && OthersExact(s, Taken(s))
  }

  lemma CallKeepsTail(s: Online, d: Delivery, handler: Handler)
    requires QueueIsTail(s)
    ensures var t := Call(s, d, handler); QueueIsTail(t) && Taken(t) == Taken(s)
  {
    var t := Call(s, d, handler);
    var n := |s.sent| - |s.queue|;
    assert t.sent[n..] == s.sent[n..] + handler(s.log + [d]);
  }

  lemma LastDelivery(msg: Message, n: nat)
    requires n < |msg.receivers|
    ensures Deliveries(msg, msg.receivers[..n + 1])
            == Deliveries(msg, msg.receivers[..n]) + [Delivery(msg.receivers[n], msg)]
  {
  }

  lemma FinishedDeliveries(done: seq<Message>, msg: Message)
    ensures AllDeliveries(done + [msg]) == AllDeliveries(done) + Deliveries(msg, msg.receivers)
  {
    assert (done + [msg])[..|done|] == done;
  }

  /** The log after one more delivery of the head. */
  lemma HeadDelivered(log: seq<Delivery>, finished: seq<Message>, msg: Message, n: nat)
    requires IsBroadcast(msg) && n < |msg.receivers|
    requires SeenOf(log, true) == AllDeliveries(finished) + Deliveries(msg, msg.receivers[..n])
    ensures SeenOf(log + [Delivery(msg.receivers[n], msg)], true)
            == AllDeliveries(finished) + Deliveries(msg, msg.receivers[..n + 1])
  {
    var d := Delivery(msg.receivers[n], msg);
    SeenOfSnoc(log, d, true);
    LastDelivery(msg, n);
    assert SeenOf(log, true) + [d] == AllDeliveries(finished) + (Deliveries(msg, msg.receivers[..n]) + [d]);
  }

  lemma UnfinishedHead(s: Online, handler: Handler, taken: seq<Message>)
    requires BroadcastsExact(s, taken) && s.cached != [] && IsBroadcast(s.cached[0])
    requires s.curIdx + 1 < |s.cached[0].receivers|
    ensures BroadcastsExact(DeliverOne(s, handler), taken)
  {
    HeadDelivered(s.log, s.finished, s.cached[0], s.curIdx);
  }

  lemma FinishedHead(s: Online, handler: Handler, taken: seq<Message>)
    requires BroadcastsExact(s, taken) && s.cached != [] && forall i :: 0 <= i < |s.cached| ==> IsBroadcast(s.cached[i])
    requires s.curIdx + 1 == |s.cached[0].receivers|
    ensures BroadcastsExact(DeliverOne(s, handler), taken)
  {
    HeadDelivered(s.log, s.finished, s.cached[0], s.curIdx);
    AllDelivered(s.finished, s.cached[0], s.curIdx);
    HeadMoves(s.finished, s.cached);
    NothingDelivered(DeliverOne(s, handler));
  }

  lemma AllDelivered(finished: seq<Message>, msg: Message, n: nat)
    requires n + 1 == |msg.receivers|
    ensures AllDeliveries(finished) + Deliveries(msg, msg.receivers[..n + 1]) == AllDeliveries(finished + [msg]) + []
  {
    assert msg.receivers[..n + 1] == msg.receivers;
    FinishedDeliveries(finished, msg);
  }

  /** The head moves from the pending to the finished broadcasts. */
  lemma HeadMoves(finished: seq<Message>, cached: seq<Message>)
    requires cached != []
    ensures (finished + [cached[0]]) + cached[1..] == finished + cached
  {
  }

  lemma NothingDelivered(s: Online)
    requires CursorOk(s) && s.curIdx == 0
    ensures Partial(s) == []
  {
  }

  lemma DeliverOneKeepsBroadcasts(s: Online, handler: Handler, taken: seq<Message>)
    requires BroadcastsExact(s, taken) && s.cached != [] && forall i :: 0 <= i < |s.cached| ==> IsBroadcast(s.cached[i])
    ensures BroadcastsExact(DeliverOne(s, handler), taken)
  {
    if s.curIdx + 1 < |s.cached[0].receivers| {
      UnfinishedHead(s, handler, taken);
    } else {
      FinishedHead(s, handler, taken);
    }
  }

  lemma DeliverOneKeepsTail(s: Online, handler: Handler)
    requires QueueIsTail(s) && s.cached != [] && s.curIdx < |s.cached[0].receivers|
    ensures var t := DeliverOne(s, handler); QueueIsTail(t) && Taken(t) == Taken(s)
  {
    CallKeepsTail(s, Delivery(s.cached[0].receivers[s.curIdx], s.cached[0]), handler);
  }

  lemma DeliverOneKeepsOthers(s: Online, handler: Handler, taken: seq<Message>)
    requires OthersExact(s, taken)
    requires s.cached != [] && IsBroadcast(s.cached[0]) && s.curIdx < |s.cached[0].receivers|
    ensures OthersExact(DeliverOne(s, handler), taken)
  {
    SeenOfSnoc(s.log, Delivery(s.cached[0].receivers[s.curIdx], s.cached[0]), false);
    assert SeenOf(s.log, false) + [] == SeenOf(s.log, false);
  }

  lemma DeliverOneKeepsInv(s: Online, handler: Handler)
    requires Inv(s) && s.cached != []
    ensures Inv(DeliverOne(s, handler)) && Taken(DeliverOne(s, handler)) == Taken(s)
  {
    DeliverOneKeepsTail(s, handler);
    DeliverOneKeepsBroadcasts(s, handler, Taken(s));
    DeliverOneKeepsOthers(s, handler, Taken(s));
  }

  /** Taking the head of the queue. */
  lemma HeadTaken(s: Online)
    requires QueueIsTail(s) && s.queue != []
    ensures var t := s.(queue := s.queue[1..]); QueueIsTail(t) && Taken(t) == Taken(s) + [s.queue[0]]
  {
    var n := |s.sent| - |s.queue|;
    assert s.sent[n..][0] == s.sent[n] && s.sent[n + 1..] == s.sent[n..][1..];
  }

  lemma ArrivalKeepsBroadcasts(s: Online, taken: seq<Message>, msg: Message)
    requires BroadcastsExact(s, taken) && IsBroadcast(msg)
    ensures BroadcastsExact(s.(cached := s.cached + [msg]), taken + [msg])
  {
    var t := s.(cached := s.cached + [msg]);
    KindSnoc(taken, msg, true);
    assert s.finished + (s.cached + [msg]) == s.finished + s.cached + [msg];
    assert Partial(t) == Partial(s) by {
      if s.cached == [] {
        assert Deliveries(msg, msg.receivers[..0]) == [];
      }
    }
  }

  lemma BroadcastArrives(s: Online)
    requires Inv(s) && s.queue != [] && IsBroadcast(s.queue[0])
    ensures Inv(s.(queue := s.queue[1..], cached := s.cached + [s.queue[0]]))
  {
    var msg := s.queue[0];
    var rest := s.(queue := s.queue[1..]);
    HeadTaken(s);
    ArrivalKeepsBroadcasts(rest, Taken(s), msg);
    KindSnoc(Taken(s), msg, false);
    assert Kind(Taken(s), false) + [] == Kind(Taken(s), false);
  }

  /** Handling a message that is no broadcast adds its deliveries and leaves the broadcasts alone. */
  lemma {:induction false} CallAllKeeps(s: Online, msg: Message, receivers: seq<nat>, handler: Handler)
    requires QueueIsTail(s) && !IsBroadcast(msg)
    ensures var t := CallAll(s, msg, receivers, handler);
            && QueueIsTail(t) && Taken(t) == Taken(s)
            && t.cached == s.cached && t.curIdx == s.curIdx && t.finished == s.finished
            && SeenOf(t.log, true) == SeenOf(s.log, true)
            && SeenOf(t.log, false) == SeenOf(s.log, false) + Deliveries(msg, receivers)
    decreases |receivers|
  {
    if receivers != [] {
      var d := Delivery(receivers[0], msg);
      CallKeepsTail(s, d, handler);
      SeenOfSnoc(s.log, d, true);
      SeenOfSnoc(s.log, d, false);
      CallAllKeeps(Call(s, d, handler), msg, receivers[1..], handler);
      FirstDelivery(SeenOf(s.log, false), msg, receivers);
    }
  }

  lemma {:induction false} CallAllLeavesCache(s: Online, msg: Message, receivers: seq<nat>, handler: Handler)
    ensures var t := CallAll(s, msg, receivers, handler); t.cached == s.cached && t.curIdx == s.curIdx
    decreases |receivers|
  {
    if receivers != [] {
      CallAllLeavesCache(Call(s, Delivery(receivers[0], msg), handler), msg, receivers[1..], handler);
    }
  }

  lemma DirectKeepsInv(s: Online, handler: Handler)
    requires Inv(s) && s.queue != [] && !IsBroadcast(s.queue[0])
    ensures Inv(CallAll(s.(queue := s.queue[1..]), s.queue[0], s.queue[0].receivers, handler))
  {
    var msg := s.queue[0];
    HeadTaken(s);
    CallAllKeeps(s.(queue := s.queue[1..]), msg, msg.receivers, handler);
    KindSnoc(Taken(s), msg, true);
    KindSnoc(Taken(s), msg, false);
    FinishedDeliveries(Kind(Taken(s), false), msg);
  }

  /** The invariant survives every iteration, whatever the handlers send. */
  lemma StepKeepsInv(s: Online, handler: Handler)
    requires Inv(s)
    ensures Inv(StepOnline(s, handler))
  {
    if s.queue != [] {
      if IsBroadcast(s.queue[0]) {
        BroadcastArrives(s);
        DeliverOneKeepsInv(s.(queue := s.queue[1..], cached := s.cached + [s.queue[0]]), handler);
      } else {
        DirectKeepsInv(s, handler);
      }
    } else if s.cached != [] {
      DeliverOneKeepsInv(s, handler);
    }
  }

  // ---- everything sent comes from the start or from a handler ----

  /** What was sent is the initial queue and every handler's replies, delivery by delivery. */
  ghost predicate SentExact(s: Online, start: seq<Message>, handler: Handler) {
    s.sent == start + RepliesTo(s.log, handler)
  }

  lemma {:induction false} CallAllSends(s: Online, start: seq<Message>, msg: Message, receivers: seq<nat>,
                                        handler: Handler)
    requires SentExact(s, start, handler)
    ensures SentExact(CallAll(s, msg, receivers, handler), start, handler)
    decreases |receivers|
  {
    if receivers != [] {
      RepliesSnoc(start, s.log, Delivery(receivers[0], msg), handler);
      CallAllSends(Call(s, Delivery(receivers[0], msg), handler), start, msg, receivers[1..], handler);
    }
  }

  lemma DeliverOneSends(s: Online, start: seq<Message>, handler: Handler)
    requires s.cached != [] && s.curIdx < |s.cached[0].receivers| && SentExact(s, start, handler)
    ensures SentExact(DeliverOne(s, handler), start, handler)
  {
    RepliesSnoc(start, s.log, Delivery(s.cached[0].receivers[s.curIdx], s.cached[0]), handler);
  }

  lemma StepSends(s: Online, start: seq<Message>, handler: Handler)
    requires CursorOk(s) && forall i :: 0 <= i < |s.cached| ==> IsBroadcast(s.cached[i])
    requires SentExact(s, start, handler)
    ensures SentExact(StepOnline(s, handler), start, handler)
  {
    if s.queue != [] {
      var msg := s.queue[0];
      if IsBroadcast(msg) {
        DeliverOneSends(s.(queue := s.queue[1..], cached := s.cached + [msg]), start, handler);
      } else {
        CallAllSends(s.(queue := s.queue[1..]), start, msg, msg.receivers, handler);
      }
    } else if s.cached != [] {
      DeliverOneSends(s, start, handler);
    }
  }

  // ---- how much work is left ----

  lemma {:induction false} CallAllLogs(s: Online, msg: Message, receivers: seq<nat>, handler: Handler)
    ensures var t := CallAll(s, msg, receivers, handler);
            && t.log == s.log + Deliveries(msg, receivers)
            && |s.sent| <= |t.sent| && s.sent <= t.sent && t.queue == s.queue + t.sent[|s.sent|..]
    decreases |receivers|
  {
    if receivers == [] {
      assert s.log + Deliveries(msg, []) == s.log && s.queue + [] == s.queue;
    } else {
      var next := Call(s, Delivery(receivers[0], msg), handler);
      CallAllLogs(next, msg, receivers[1..], handler);
      FirstDelivery(s.log, msg, receivers);
      SentGrows(s.sent, next.sent, CallAll(next, msg, receivers[1..], handler).sent);
      assert next.queue == s.queue + next.sent[|s.sent|..];
    }
  }

  lemma SentGrows(a: seq<Message>, b: seq<Message>, c: seq<Message>)
    requires a <= b && b <= c
    ensures a <= c && c[|a|..] == b[|a|..] + c[|b|..]
  {
    assert c == b + c[|b|..];
  }

  /** Iterations a message takes: one per receiver if it is a broadcast, else one. */
  function Iterations(msgs: seq<Message>): nat {
    if msgs == [] then 0 else (if IsBroadcast(msgs[0]) then |msgs[0].receivers| else 1) + Iterations(msgs[1..])
  }

  lemma {:induction false} IterationsAppend(a: seq<Message>, b: seq<Message>)
    ensures Iterations(a + b) == Iterations(a) + Iterations(b)
  {
    if a == [] {
      assert a + b == b;
    } else {
      assert (a + b)[1..] == a[1..] + b;
      IterationsAppend(a[1..], b);
    }
  }

  /** What the queue and the pending broadcasts still take. */
  function Remaining(s: Online): int {
    Iterations(s.cached) - s.curIdx + Iterations(s.queue)
  }

  ghost predicate Pending(s: Online) {
    CursorOk(s) && forall i :: 0 <= i < |s.cached| ==> IsBroadcast(s.cached[i])
  }

  lemma RemainingIsZeroIff(s: Online)
    requires Pending(s)
    ensures Remaining(s) >= 0 && (Remaining(s) == 0 <==> IdleOnline(s))
  {
  }

  /** One delivery of the head is one iteration's worth. */
  lemma DeliveryDoesOne(s: Online, handler: Handler)
    requires Pending(s) && s.cached != []
    ensures var t := DeliverOne(s, handler);
            s.sent <= t.sent && Remaining(t) == Remaining(s) - 1 + Iterations(t.sent[|s.sent|..])
  {
    var t := DeliverOne(s, handler);
    assert t.queue == s.queue + t.sent[|s.sent|..];
    IterationsAppend(s.queue, t.sent[|s.sent|..]);
  }

  lemma StepDoesOne(s: Online, handler: Handler)
    requires Pending(s) && !IdleOnline(s)
    ensures var t := StepOnline(s, handler);
            s.sent <= t.sent && Remaining(t) == Remaining(s) - 1 + Iterations(t.sent[|s.sent|..])
  {
    if s.queue != [] {
      var msg := s.queue[0];
      var rest := s.(queue := s.queue[1..]);
      if IsBroadcast(msg) {
        ArrivalMovesWork(s);
        DeliveryDoesOne(rest.(cached := s.cached + [msg]), handler);
      } else {
        CallAllLogs(rest, msg, msg.receivers, handler);
        CallAllLeavesCache(rest, msg, msg.receivers, handler);
        IterationsAppend(rest.queue, CallAll(rest, msg, msg.receivers, handler).sent[|s.sent|..]);
      }
    } else {
      DeliveryDoesOne(s, handler);
    }
  }

  lemma ArrivalMovesWork(s: Online)
    requires Pending(s) && s.queue != [] && IsBroadcast(s.queue[0])
    ensures var t := s.(queue := s.queue[1..], cached := s.cached + [s.queue[0]]);
            Pending(t) && Remaining(t) == Remaining(s)
  {
    IterationsAppend(s.cached, [s.queue[0]]);
    assert Iterations([s.queue[0]][1..]) == 0;
  }

  lemma IterationsGrow(sent: seq<Message>, after: seq<Message>)
    requires sent <= after
    ensures Iterations(after) == Iterations(sent) + Iterations(after[|sent|..])
  {
    assert after == sent + after[|sent|..];
    IterationsAppend(sent, after[|sent|..]);
  }

  /** What was enqueued is done or remains, one iteration each. */
  ghost predicate WorkDone(s: Online, steps: nat) {
    if IdleOnline(s) then Iterations(s.sent) <= steps else Iterations(s.sent) == Remaining(s) + steps
  }

  lemma StepKeepsWork(s: Online, handler: Handler, steps: nat)
    requires Inv(s) && WorkDone(s, steps)
    ensures WorkDone(StepOnline(s, handler), steps + 1)
  {
    if !IdleOnline(s) {
      StepDoesOne(s, handler);
      StepKeepsInv(s, handler);
      IterationsGrow(s.sent, StepOnline(s, handler).sent);
      RemainingIsZeroIff(StepOnline(s, handler));
    }
  }

  // ---- runs ----

  function RunOnline(queue: seq<Message>, handler: Handler, steps: nat): (s: Online)
    ensures Inv(s) && SentExact(s, queue, handler) && WorkDone(s, steps)
  {
    if steps == 0 then
      assert queue + [] == queue;
      StartOnline(queue)
    else
      var before := RunOnline(queue, handler, steps - 1);
      StepKeepsInv(before, handler);
      StepSends(before, queue, handler);
      StepKeepsWork(before, handler, steps - 1);
      StepOnline(before, handler)
  }

  lemma IdleIsExact(s: Online)
    requires Inv(s) && IdleOnline(s)
    ensures SeenOf(s.log, true) == AllDeliveries(Kind(s.sent, true))
    ensures SeenOf(s.log, false) == AllDeliveries(Kind(s.sent, false))
  {
    assert Taken(s) == s.sent;
    assert s.finished + [] == s.finished;
    assert AllDeliveries(s.finished) + [] == AllDeliveries(s.finished);
  }

  /** When the loop exits: of all that was queued at the start or sent by a handler, every broadcast
      reached each of its listed receivers exactly once, in the order sent and in the order listed,
      every other message likewise, and handlers saw nothing else. */
  lemma EveryBroadcastReachesItsReceivers(queue: seq<Message>, handler: Handler, steps: nat)
    requires IdleOnline(RunOnline(queue, handler, steps))
    ensures var s := RunOnline(queue, handler, steps);
            && s.sent == queue + RepliesTo(s.log, handler)
            && SeenOf(s.log, true) == AllDeliveries(Kind(s.sent, true))
            && SeenOf(s.log, false) == AllDeliveries(Kind(s.sent, false))
            && multiset(Kind(s.sent, true)) + multiset(Kind(s.sent, false)) == multiset(s.sent)
  {
    var s := RunOnline(queue, handler, steps);
    KindsAreAll(s.sent);
    IdleIsExact(s);
  }

  // ---- the loop makes progress ----

  /** Exactly one delivery, of the head broadcast to the receiver under the cursor. */
  ghost predicate DeliversHead(s: Online, t: Online, cached: seq<Message>)
    requires cached != [] && s.curIdx < |cached[0].receivers|
  {
    t.log == s.log + [Delivery(cached[0].receivers[s.curIdx], cached[0])]
  }

  /** From every reachable state, an iteration with a message in the queue takes exactly its head: a
      broadcast joins the pending ones and one delivery of the first of these is made; any other message
      goes to all its receivers and the pending broadcasts wait. */
  lemma IterationTakesHead(queue: seq<Message>, handler: Handler, steps: nat)
    requires RunOnline(queue, handler, steps).queue != []
    ensures var s, t := RunOnline(queue, handler, steps), RunOnline(queue, handler, steps + 1);
            var msg := s.queue[0];
            && Taken(t) == Taken(s) + [msg]
            && (if msg.sender == 0 && msg.receivers != [] then
                  s.curIdx < |(s.cached + [msg])[0].receivers| && DeliversHead(s, t, s.cached + [msg])
                else t.log == s.log + Deliveries(msg, msg.receivers) && t.cached == s.cached && t.curIdx == s.curIdx)
  {
    var s := RunOnline(queue, handler, steps);
    HeadTaken(s);
    var msg := s.queue[0];
    if IsBroadcast(msg) {
      BroadcastArrives(s);
      DeliverOneKeepsTail(s.(queue := s.queue[1..], cached := s.cached + [msg]), handler);
    } else {
      CallAllKeeps(s.(queue := s.queue[1..]), msg, msg.receivers, handler);
      CallAllLogs(s.(queue := s.queue[1..]), msg, msg.receivers, handler);
    }
  }

  /** From every reachable state with an empty queue and a pending broadcast, an iteration makes exactly one
      delivery: the first pending broadcast to the receiver under the cursor. */
  lemma PendingBroadcastAdvances(queue: seq<Message>, handler: Handler, steps: nat)
    requires RunOnline(queue, handler, steps).queue == [] && RunOnline(queue, handler, steps).cached != []
    ensures var s, t := RunOnline(queue, handler, steps), RunOnline(queue, handler, steps + 1);
            && DeliversHead(s, t, s.cached)
            && SeenOf(t.log, true)
               == SeenOf(s.log, true) + [Delivery(s.cached[0].receivers[s.curIdx], s.cached[0])]
  {
    var s := RunOnline(queue, handler, steps);
    SeenOfSnoc(s.log, Delivery(s.cached[0].receivers[s.curIdx], s.cached[0]), true);
  }

  /** With any handlers: the loop has exited after `steps` iterations if and only if everything enqueued by
      then takes no more; it never stalls. */
  lemma ExitsAfterItsWork(queue: seq<Message>, handler: Handler, steps: nat)
    ensures var s := RunOnline(queue, handler, steps);
            IdleOnline(s) <==> Iterations(s.sent) <= steps
  {
    RemainingIsZeroIff(RunOnline(queue, handler, steps));
  }

  /** With handlers that send nothing, that is the work of the initial queue, and then every message has
      reached all its receivers. */
  lemma QuietRunExits(queue: seq<Message>, handler: Handler, steps: nat)
    requires forall log :: handler(log) == []
    ensures var s := RunOnline(queue, handler, steps);
            && (IdleOnline(s) <==> Iterations(queue) <= steps)
            && (IdleOnline(s) ==> SeenOf(s.log, true) == AllDeliveries(Kind(queue, true))
                                  && SeenOf(s.log, false) == AllDeliveries(Kind(queue, false)))
  {
    var s := RunOnline(queue, handler, steps);
    ExitsAfterItsWork(queue, handler, steps);
    NoReplies(s.log, handler);
    assert queue + [] == queue;
    if IdleOnline(s) {
      EveryBroadcastReachesItsReceivers(queue, handler, steps);
    }
  }

  // ---- the loop itself ----

  class OnlineRunner {
    var sharedCommQueue: seq<Message>
    var log: seq<Delivery>
    ghost var sim: Online

    constructor (queue: seq<Message>)
      ensures sim == StartOnline(queue) && sharedCommQueue == queue && log == []
    {
      sharedCommQueue, log := queue, [];
      sim := StartOnline(queue);
    }

    ghost predicate Matches(cached: seq<Message>, curIdx: nat)
      reads this
    {
      sim.queue == sharedCommQueue && sim.log == log && sim.cached == cached && sim.curIdx == curIdx
    }

    method HandleOne(msg: Message, rcv: nat, handler: Handler)
      requires sim.queue == sharedCommQueue && sim.log == log
      modifies this
      ensures sim == Call(old(sim), Delivery(rcv, msg), handler)
      ensures sim.queue == sharedCommQueue && sim.log == log
    {
      sim := Call(sim, Delivery(rcv, msg), handler);
      log := log + [Delivery(rcv, msg)];
      var replies := handler(log);
      sharedCommQueue := sharedCommQueue + replies;
    }

    method HandleAll(msg: Message, handler: Handler)
      requires sim.queue == sharedCommQueue && sim.log == log
      modifies this
      ensures sim == CallAll(old(sim), msg, msg.receivers, handler)
      ensures sim.queue == sharedCommQueue && sim.log == log
    {
      for n := 0 to |msg.receivers|
        invariant sim.queue == sharedCommQueue && sim.log == log
        invariant CallAll(sim, msg, msg.receivers[n..], handler) == CallAll(old(sim), msg, msg.receivers, handler)
      {
        assert msg.receivers[n..][1..] == msg.receivers[n + 1..];
        HandleOne(msg, msg.receivers[n], handler);
      }
    }

    /** _run_simulation_online, stopped after `limit` iterations. */
    method RunSimulationOnline(handler: Handler, limit: nat) returns (finished: bool)
      requires sim == StartOnline(sharedCommQueue) && log == []
      modifies this
      ensures sim == RunOnline(old(sharedCommQueue), handler, limit)
      ensures finished <==> IdleOnline(sim)
      ensures sharedCommQueue == sim.queue && log == sim.log
    {
      var cachedBcMsgs: seq<Message> := [];
      var curIdx := 0;
      for n := 0 to limit
        invariant Matches(cachedBcMsgs, curIdx)
        invariant sim == RunOnline(old(sharedCommQueue), handler, n)
      {
        cachedBcMsgs, curIdx := Iterate(cachedBcMsgs, curIdx, handler);
      }
      finished := |sharedCommQueue| == 0 && |cachedBcMsgs| == 0;
    }

    /** The loop body. */
    method Iterate(cached: seq<Message>, curIdx: nat, handler: Handler) returns (cached': seq<Message>, curIdx': nat)
      requires Matches(cached, curIdx) && CursorOk(sim)
      requires forall i :: 0 <= i < |cached| ==> IsBroadcast(cached[i])
      modifies this
      ensures sim == StepOnline(old(sim), handler) && Matches(cached', curIdx')
    {
      cached', curIdx' := cached, curIdx;
      if |sharedCommQueue| > 0 {
        var msg := sharedCommQueue[0];
        sharedCommQueue := sharedCommQueue[1..];
        if IsBroadcast(msg) {
          cached' := cached' + [msg];
          sim := sim.(queue := sharedCommQueue, cached := cached');
          cached', curIdx' := AdvanceHead(cached', curIdx', handler);
        } else {
          sim := sim.(queue := sharedCommQueue);
          ghost var before := sim;
          HandleAll(msg, handler);
          CallAllLeavesCache(before, msg, msg.receivers, handler);
        }
      } else if |cached| > 0 {
        cached', curIdx' := AdvanceHead(cached', curIdx', handler);
      }
    }

    /** The block both branches repeat: deliver under the cursor, advance, drop a finished head. */
    method AdvanceHead(cached: seq<Message>, curIdx: nat, handler: Handler)
      returns (cached': seq<Message>, curIdx': nat)
      requires Matches(cached, curIdx) && cached != [] && curIdx < |cached[0].receivers|
      modifies this
      ensures sim == DeliverOne(old(sim), handler) && Matches(cached', curIdx')
    {
      var msg := cached[0];
      HandleOne(msg, msg.receivers[curIdx], handler);
      cached', curIdx' := cached, curIdx + 1;
      if curIdx' >= |msg.receivers| {
        cached', curIdx' := cached[1..], 0;
        sim := sim.(cached := cached', curIdx := 0, finished := sim.finished + [msg]);
      } else {
        sim := sim.(curIdx := curIdx');
      }
    }
  }
}
