/** StandaloneRunner's event loop: one shared FIFO queue, and a priority cache that reorders what
    is addressed to the server. Handlers are arbitrary: what a delivery makes them send may depend
    on everything delivered so far. */
module Simulation {
  import opened Messages
  import opened Seqs

  datatype Cached = Cached(msg: Message, serial: nat)

  /** Message.__lt__ with the serial number given on entry to the cache. */
  predicate Before(a: Cached, b: Cached) {
    if a.msg.timestamp != b.msg.timestamp then a.msg.timestamp < b.msg.timestamp
    else if a.msg.state != b.msg.state then a.msg.state < b.msg.state
    else a.serial < b.serial
  }

  /** heapq.heappop: the position of an entry no other entry is before. */
  function Least(cache: seq<Cached>): (i: nat)
    requires cache != []
    ensures i < |cache| && forall j :: 0 <= j < |cache| ==> !Before(cache[j], cache[i])
  {
    if |cache| == 1 then 0
    else
      var i := Least(cache[..|cache| - 1]);
      if Before(cache[|cache| - 1], cache[i]) then |cache| - 1 else i
  }

  /** The loop's state, with the history the properties speak about: everything ever enqueued,
      everything taken out and handled, and the server messages popped from the cache. */
  datatype Sim = Sim(queue: seq<Message>, cache: seq<Cached>, serial: nat, log: seq<Delivery>,
                     sent: seq<Message>, handled: seq<Message>, popped: seq<Message>)

  /** _handle_msg: every receiver's handler in turn; what they send joins the queue. */
  function Deliver(s: Sim, msg: Message, receivers: seq<nat>, handler: Handler): Sim
    decreases |receivers|
  {
    if receivers == [] then s
    else
      var log := s.log + [Delivery(receivers[0], msg)];
      var replies := handler(log);
      Deliver(s.(log := log, queue := s.queue + replies, sent := s.sent + replies), msg, receivers[1..], handler)
  }

  predicate ForServer(msg: Message, vertical: bool) {
    !vertical && msg.receivers == [0]
  }

  predicate Idle(s: Sim) {
    s.queue == [] && s.cache == []
  }

  /** One iteration of _run_simulation (not in time_up mode). */
  function Step(s: Sim, handler: Handler, vertical: bool): Sim {
    if s.queue != [] then
      var msg := s.queue[0];
      var rest := s.(queue := s.queue[1..]);
      if ForServer(msg, vertical) then
        rest.(cache := s.cache + [Cached(msg, s.serial)], serial := s.serial + 1)
      else
        Deliver(rest.(handled := s.handled + [msg]), msg, msg.receivers, handler)
    else if s.cache != [] then
      var i := Least(s.cache);
      var msg := s.cache[i].msg;
      Deliver(s.(cache := Without(s.cache, i), handled := s.handled + [msg], popped := s.popped + [msg]),
              msg, msg.receivers, handler)
    else s
  }

  function Run(s: Sim, handler: Handler, vertical: bool, steps: nat): Sim {
    if steps == 0 then s else Step(Run(s, handler, vertical, steps - 1), handler, vertical)
  }

  /** The loop starts with the messages the clients queued when joining. */
  function Start(queue: seq<Message>, serial: nat): Sim {
    Sim(queue, [], serial, [], queue, [], [])
  }

  // ---- every message is handled exactly once ----

  function Entries(cache: seq<Cached>): multiset<Message> {
    if cache == [] then multiset{} else multiset{cache[0].msg} + Entries(cache[1..])
  }

  lemma {:induction false} EntriesSnoc(cache: seq<Cached>, c: Cached)
    ensures Entries(cache + [c]) == Entries(cache) + multiset{c.msg}
  {
    if cache == [] {
      assert cache + [c] == [c];
    } else {
      assert (cache + [c])[1..] == cache[1..] + [c];
      EntriesSnoc(cache[1..], c);
    }
  }

  lemma {:induction false} EntriesWithout(cache: seq<Cached>, i: nat)
    requires i < |cache|
    ensures Entries(cache) == Entries(Without(cache, i)) + multiset{cache[i].msg}
  {
    if i == 0 {
      assert Without(cache, 0) == cache[1..];
    } else {
      assert Without(cache, i)[1..] == Without(cache[1..], i - 1);
      EntriesWithout(cache[1..], i - 1);
    }
  }

  /** Everything sent is queued, cached or handled, each exactly as often as it was sent. */
  ghost predicate Accounted(s: Sim) {
    multiset(s.sent) == multiset(s.queue) + Entries(s.cache) + multiset(s.handled)
  }

  lemma {:induction false} DeliverKeepsAccount(s: Sim, msg: Message, receivers: seq<nat>, handler: Handler)
    requires Accounted(s)
    ensures var t := Deliver(s, msg, receivers, handler);
            && Accounted(t) && t.cache == s.cache && t.popped == s.popped && t.handled == s.handled
            && t.serial == s.serial
    decreases |receivers|
  {
    if receivers != [] {
      var log := s.log + [Delivery(receivers[0], msg)];
      var replies := handler(log);
      DeliverKeepsAccount(s.(log := log, queue := s.queue + replies, sent := s.sent + replies),
                          msg, receivers[1..], handler);
    }
  }

  lemma HeadHandled(s: Sim)
    requires Accounted(s) && s.queue != []
    ensures Accounted(s.(queue := s.queue[1..], handled := s.handled + [s.queue[0]]))
  {
    assert s.queue == [s.queue[0]] + s.queue[1..];
  }

  lemma HeadCached(s: Sim)
    requires Accounted(s) && s.queue != []
    ensures Accounted(s.(queue := s.queue[1..], cache := s.cache + [Cached(s.queue[0], s.serial)],
                         serial := s.serial + 1))
  {
    assert s.queue == [s.queue[0]] + s.queue[1..];
    EntriesSnoc(s.cache, Cached(s.queue[0], s.serial));
  }

  lemma EntryPopped(s: Sim, i: nat)
    requires Accounted(s) && i < |s.cache|
    ensures Accounted(s.(cache := Without(s.cache, i), handled := s.handled + [s.cache[i].msg],
                         popped := s.popped + [s.cache[i].msg]))
  {
    EntriesWithout(s.cache, i);
  }

  lemma StepKeepsAccount(s: Sim, handler: Handler, vertical: bool)
    requires Accounted(s)
    ensures Accounted(Step(s, handler, vertical))
  {
    if s.queue != [] {
      var msg := s.queue[0];
      HeadCached(s);
      HeadHandled(s);
      DeliverKeepsAccount(s.(queue := s.queue[1..], handled := s.handled + [msg]), msg, msg.receivers, handler);
    } else if s.cache != [] {
      var i := Least(s.cache);
      var msg := s.cache[i].msg;
      EntryPopped(s, i);
      DeliverKeepsAccount(
        s.(cache := Without(s.cache, i), handled := s.handled + [msg], popped := s.popped + [msg]),
        msg, msg.receivers, handler);
    }
  }

  lemma {:induction false} DeliverLogs(s: Sim, msg: Message, receivers: seq<nat>, handler: Handler)
    ensures Deliver(s, msg, receivers, handler).log == s.log + Deliveries(msg, receivers)
    decreases |receivers|
  {
    if receivers == [] {
      assert s.log + Deliveries(msg, []) == s.log;
    } else {
      var log := s.log + [Delivery(receivers[0], msg)];
      var replies := handler(log);
      var next := s.(log := log, queue := s.queue + replies, sent := s.sent + replies);
      DeliverLogs(next, msg, receivers[1..], handler);
      FirstDelivery(s.log, msg, receivers);
    }
  }

  lemma StepLogs(s: Sim, handler: Handler, vertical: bool)
    requires Accounted(s) && s.log == AllDeliveries(s.handled)
    ensures var t := Step(s, handler, vertical); t.log == AllDeliveries(t.handled)
  {
    if s.queue != [] {
      var msg := s.queue[0];
      if !ForServer(msg, vertical) {
        HandledLogs(s.(queue := s.queue[1..]), msg, handler);
      }
    } else if s.cache != [] {
      var i := Least(s.cache);
      var msg := s.cache[i].msg;
      HandledLogs(s.(cache := Without(s.cache, i), popped := s.popped + [msg]), msg, handler);
    }
  }

  lemma {:induction false} DeliverHandlesNothingElse(s: Sim, msg: Message, receivers: seq<nat>, handler: Handler)
    ensures var t := Deliver(s, msg, receivers, handler);
            t.handled == s.handled && t.cache == s.cache && t.popped == s.popped && t.serial == s.serial
    decreases |receivers|
  {
    if receivers != [] {
      var log := s.log + [Delivery(receivers[0], msg)];
      var replies := handler(log);
      DeliverHandlesNothingElse(s.(log := log, queue := s.queue + replies, sent := s.sent + replies),
                                msg, receivers[1..], handler);
    }
  }

  lemma HandledLogs(s: Sim, msg: Message, handler: Handler)
    requires s.log == AllDeliveries(s.handled)
    ensures var t := Deliver(s.(handled := s.handled + [msg]), msg, msg.receivers, handler);
            t.log == AllDeliveries(t.handled)
  {
    var s1 := s.(handled := s.handled + [msg]);
    DeliverLogs(s1, msg, msg.receivers, handler);
    DeliverHandlesNothingElse(s1, msg, msg.receivers, handler);
    assert s1.handled[..|s.handled|] == s.handled;
  }

  lemma {:induction false} DeliverSends(s: Sim, start: seq<Message>, msg: Message, receivers: seq<nat>,
                                        handler: Handler)
    requires s.sent == start + RepliesTo(s.log, handler)
    ensures var t := Deliver(s, msg, receivers, handler); t.sent == start + RepliesTo(t.log, handler)
    decreases |receivers|
  {
    if receivers != [] {
      var log := s.log + [Delivery(receivers[0], msg)];
      var replies := handler(log);
      RepliesSnoc(start, s.log, Delivery(receivers[0], msg), handler);
      DeliverSends(s.(log := log, queue := s.queue + replies, sent := s.sent + replies), start,
                   msg, receivers[1..], handler);
    }
  }

  lemma StepSends(s: Sim, start: seq<Message>, handler: Handler, vertical: bool)
    requires s.sent == start + RepliesTo(s.log, handler)
    ensures var t := Step(s, handler, vertical); t.sent == start + RepliesTo(t.log, handler)
  {
    if s.queue != [] {
      var msg := s.queue[0];
      DeliverSends(s.(queue := s.queue[1..], handled := s.handled + [msg]), start, msg, msg.receivers, handler);
    } else if s.cache != [] {
      var i := Least(s.cache);
      var msg := s.cache[i].msg;
      DeliverSends(s.(cache := Without(s.cache, i), handled := s.handled + [msg], popped := s.popped + [msg]), start,
                   msg, msg.receivers, handler);
    }
  }

  /** After any number of steps of any run: what was sent is the initial queue and all the handlers'
      replies; messages are conserved; and what handlers have seen is exactly every handled message
      at each of its receivers, in handling order. When the loop exits, every message sent was
      handled exactly once. */
  lemma {:induction false} EveryMessageOnce(queue: seq<Message>, serial: nat, handler: Handler, vertical: bool,
                                            steps: nat)
    ensures var s := Run(Start(queue, serial), handler, vertical, steps);
            && s.sent == queue + RepliesTo(s.log, handler)
            && Accounted(s) && s.log == AllDeliveries(s.handled)
            && (Idle(s) ==> multiset(s.handled) == multiset(s.sent))
  {
    if steps == 0 {
      assert queue + [] == queue;
    } else {
      EveryMessageOnce(queue, serial, handler, vertical, steps - 1);
      var s := Run(Start(queue, serial), handler, vertical, steps - 1);
      StepKeepsAccount(s, handler, vertical);
      StepLogs(s, handler, vertical);
      StepSends(s, queue, handler, vertical);
    }
  }

  // ---- what the server sees of the cached messages ----

  function ToServer(vertical: bool): Message -> bool {
    m => ForServer(m, vertical)
  }

  /** The messages addressed to the server alone, in the order the log shows it got them. */
  function Seen(log: seq<Delivery>, vertical: bool): seq<Message> {
    if log == [] then []
    else
      var msg := log[|log| - 1].msg;
      Seen(log[..|log| - 1], vertical) + if ForServer(msg, vertical) then [msg] else []
  }

  lemma {:induction false} SeenAppend(log: seq<Delivery>, more: seq<Delivery>, vertical: bool)
    ensures Seen(log + more, vertical) == Seen(log, vertical) + Seen(more, vertical)
    decreases |more|
  {
    if more == [] {
      assert log + more == log;
    } else {
      assert (log + more)[..|log + more| - 1] == log + more[..|more| - 1];
      SeenAppend(log, more[..|more| - 1], vertical);
    }
  }

  lemma {:induction false} SeenOfOthers(log: seq<Delivery>, vertical: bool)
    requires forall i :: 0 <= i < |log| ==> !ForServer(log[i].msg, vertical)
    ensures Seen(log, vertical) == []
  {
    if log != [] {
      SeenOfOthers(log[..|log| - 1], vertical);
    }
  }

  lemma SeenOfMessage(msg: Message, vertical: bool)
    ensures Seen(Deliveries(msg, msg.receivers), vertical) == if ForServer(msg, vertical) then [msg] else []
  {
    var d := Deliveries(msg, msg.receivers);
    if ForServer(msg, vertical) {
      assert d == [Delivery(0, msg)] && d[..0] == [];
      assert Seen(d[..0], vertical) == [];
    } else {
      SeenOfOthers(d, vertical);
    }
  }

  lemma SeenSnoc(front: seq<Message>, last: Message, vertical: bool)
    ensures Seen(AllDeliveries(front + [last]), vertical)
            == Seen(AllDeliveries(front), vertical) + if ForServer(last, vertical) then [last] else []
  {
    assert (front + [last])[..|front|] == front;
    SeenAppend(AllDeliveries(front), Deliveries(last, last.receivers), vertical);
    SeenOfMessage(last, vertical);
  }

  lemma {:induction false} SeenIsHandled(msgs: seq<Message>, keep: Message -> bool, vertical: bool)
    requires keep == ToServer(vertical)
    ensures Seen(AllDeliveries(msgs), vertical) == Filter(msgs, keep)
    decreases |msgs|
  {
    if msgs != [] {
      var front, last := msgs[..|msgs| - 1], msgs[|msgs| - 1];
      assert msgs == front + [last];
      SeenIsHandled(front, keep, vertical);
      SeenSnoc(front, last, vertical);
      FilterSnoc(front, last, keep);
    }
  }

  /** Only server messages enter the cache, and the popped ones are the server messages handled. */
  ghost predicate PoppedExact(s: Sim, vertical: bool) {
    && (forall i :: 0 <= i < |s.cache| ==> ForServer(s.cache[i].msg, vertical))
    && s.popped == Filter(s.handled, ToServer(vertical))
  }

  lemma HandledPopped(s: Sim, msg: Message, handler: Handler, vertical: bool)
    requires PoppedExact(s, vertical)
    ensures var popped := s.popped + if ForServer(msg, vertical) then [msg] else [];
            PoppedExact(Deliver(s.(handled := s.handled + [msg], popped := popped), msg, msg.receivers, handler),
                        vertical)
  {
    var popped := s.popped + if ForServer(msg, vertical) then [msg] else [];
    FilterSnoc(s.handled, msg, ToServer(vertical));
    DeliverHandlesNothingElse(s.(handled := s.handled + [msg], popped := popped), msg, msg.receivers, handler);
  }

  lemma StepKeepsPopped(s: Sim, handler: Handler, vertical: bool)
    requires PoppedExact(s, vertical)
    ensures PoppedExact(Step(s, handler, vertical), vertical)
  {
    if s.queue != [] {
      if !ForServer(s.queue[0], vertical) {
        HandledPopped(s.(queue := s.queue[1..]), s.queue[0], handler, vertical);
        assert s.popped + [] == s.popped;
      }
    } else if s.cache != [] {
      var i := Least(s.cache);
      HandledPopped(s.(cache := Without(s.cache, i)), s.cache[i].msg, handler, vertical);
    }
  }

  /** In every run the popped messages are those the log shows the server to have got. */
  lemma {:induction false} PoppedIsSeen(queue: seq<Message>, serial: nat, handler: Handler, vertical: bool, steps: nat)
    ensures var s := Run(Start(queue, serial), handler, vertical, steps);
            PoppedExact(s, vertical) && s.popped == Seen(s.log, vertical)
  {
    RunKeepsPopped(queue, serial, handler, vertical, steps);
    EveryMessageOnce(queue, serial, handler, vertical, steps);
    SeenIsHandled(Run(Start(queue, serial), handler, vertical, steps).handled, ToServer(vertical), vertical);
  }

  lemma {:induction false} RunKeepsPopped(queue: seq<Message>, serial: nat, handler: Handler, vertical: bool,
                                          steps: nat)
    ensures PoppedExact(Run(Start(queue, serial), handler, vertical, steps), vertical)
  {
    if steps > 0 {
      RunKeepsPopped(queue, serial, handler, vertical, steps - 1);
      StepKeepsPopped(Run(Start(queue, serial), handler, vertical, steps - 1), handler, vertical);
    }
  }

  // ---- which server message is handled next ----

  /** Serial numbers in the cache are below the counter and all different. */
  ghost predicate SerialsOk(s: Sim) {
    && (forall i :: 0 <= i < |s.cache| ==> s.cache[i].serial < s.serial)
    && (forall i, j :: 0 <= i < j < |s.cache| ==> s.cache[i].serial != s.cache[j].serial)
  }

  lemma SerialsWithout(s: Sim, i: nat)
    requires SerialsOk(s) && i < |s.cache|
    ensures SerialsOk(s.(cache := Without(s.cache, i)))
  {
    var rest := Without(s.cache, i);
    forall j | 0 <= j < |rest|
      ensures rest[j] == s.cache[if j < i then j else j + 1]
    {
    }
  }

  lemma StepKeepsSerials(s: Sim, handler: Handler, vertical: bool)
    requires SerialsOk(s)
    ensures SerialsOk(Step(s, handler, vertical))
  {
    if s.queue != [] {
      var msg := s.queue[0];
      DeliverHandlesNothingElse(s.(queue := s.queue[1..], handled := s.handled + [msg]), msg, msg.receivers, handler);
    } else if s.cache != [] {
      var i := Least(s.cache);
      var msg := s.cache[i].msg;
      SerialsWithout(s, i);
      DeliverHandlesNothingElse(
        s.(cache := Without(s.cache, i), handled := s.handled + [msg], popped := s.popped + [msg]),
        msg, msg.receivers, handler);
    }
  }

  lemma {:induction false} RunKeepsSerials(queue: seq<Message>, serial: nat, handler: Handler, vertical: bool,
                                           steps: nat)
    ensures SerialsOk(Run(Start(queue, serial), handler, vertical, steps))
  {
    if steps > 0 {
      RunKeepsSerials(queue, serial, handler, vertical, steps - 1);
      StepKeepsSerials(Run(Start(queue, serial), handler, vertical, steps - 1), handler, vertical);
    }
  }

  /** `c` comes first: the older timestamp, then the smaller state, then the earlier arrival. */
  ghost predicate FirstByFields(c: Cached, d: Cached) {
    || c.msg.timestamp < d.msg.timestamp
    || (c.msg.timestamp == d.msg.timestamp && c.msg.state < d.msg.state)
    || (c.msg.timestamp == d.msg.timestamp && c.msg.state == d.msg.state && c.serial < d.serial)
  }

  /** What a step that shows the server a message of its own has done: it has taken the `i`-th cached one,
      which comes first of all. */
  ghost predicate Shows(s: Sim, t: Sim, i: nat, vertical: bool) {
    && s.queue == [] && i < |s.cache|
    && Seen(t.log, vertical) == Seen(s.log, vertical) + [s.cache[i].msg]
    && t.handled == s.handled + [s.cache[i].msg] && t.cache == Without(s.cache, i)
    && forall j :: 0 <= j < |s.cache| && j != i ==> FirstByFields(s.cache[i], s.cache[j])
  }

  /** A step shows the server a message of its own exactly when the shared queue is empty and the cache is
      not; the message is then the one strictly before every other pending one by (timestamp, state,
      arrival). */
  lemma ServerMessageIsLeast(queue: seq<Message>, serial: nat, handler: Handler, vertical: bool, steps: nat)
    ensures var s := Run(Start(queue, serial), handler, vertical, steps);
            var t := Run(Start(queue, serial), handler, vertical, steps + 1);
            && (Seen(t.log, vertical) != Seen(s.log, vertical) <==> s.queue == [] && s.cache != [])
            && (s.queue == [] && s.cache != [] ==> exists i :: Shows(s, t, i, vertical))
  {
    PoppedIsSeen(queue, serial, handler, vertical, steps);
    PoppedIsSeen(queue, serial, handler, vertical, steps + 1);
    RunKeepsSerials(queue, serial, handler, vertical, steps);
    ShownIsLeast(Run(Start(queue, serial), handler, vertical, steps),
                 Run(Start(queue, serial), handler, vertical, steps + 1), handler, vertical);
  }

  lemma ShownIsLeast(s: Sim, t: Sim, handler: Handler, vertical: bool)
    requires SerialsOk(s) && t == Step(s, handler, vertical)
    requires s.popped == Seen(s.log, vertical) && t.popped == Seen(t.log, vertical)
    ensures Seen(t.log, vertical) != Seen(s.log, vertical) <==> s.queue == [] && s.cache != []
    ensures s.queue == [] && s.cache != [] ==> Shows(s, t, Least(s.cache), vertical)
  {
    PoppedIsLeast(s, handler, vertical);
    if s.queue == [] && s.cache != [] {
      forall j | 0 <= j < |s.cache| && j != Least(s.cache)
        ensures FirstByFields(s.cache[Least(s.cache)], s.cache[j])
      {
        LeastIsFirst(s, j);
      }
    }
  }

  lemma LeastIsFirst(s: Sim, j: nat)
    requires SerialsOk(s) && j < |s.cache| && j != Least(s.cache)
    ensures FirstByFields(s.cache[Least(s.cache)], s.cache[j])
  {
    assert !Before(s.cache[j], s.cache[Least(s.cache)]);
    assert s.cache[j].serial != s.cache[Least(s.cache)].serial;
  }

  lemma PoppedIsLeast(s: Sim, handler: Handler, vertical: bool)
    ensures var t := Step(s, handler, vertical);
            if s.queue == [] && s.cache != [] then
              var i := Least(s.cache);
              && t.popped == s.popped + [s.cache[i].msg]
              && t.handled == s.handled + [s.cache[i].msg] && t.cache == Without(s.cache, i)
            else t.popped == s.popped
  {
    if s.queue != [] {
      var msg := s.queue[0];
      if !ForServer(msg, vertical) {
        DeliverHandlesNothingElse(s.(queue := s.queue[1..], handled := s.handled + [msg]), msg, msg.receivers, handler);
      }
    } else if s.cache != [] {
      var i := Least(s.cache);
      var msg := s.cache[i].msg;
      DeliverHandlesNothingElse(
        s.(cache := Without(s.cache, i), handled := s.handled + [msg], popped := s.popped + [msg]),
        msg, msg.receivers, handler);
    }
  }

  // ---- ties ----

  /** The cached entries shown to the server, in order. */
  function Shown(queue: seq<Message>, serial: nat, handler: Handler, vertical: bool, steps: nat): seq<Cached> {
    if steps == 0 then []
    else
      Shown(queue, serial, handler, vertical, steps - 1)
      + ShownBy(Run(Start(queue, serial), handler, vertical, steps - 1))
  }

  function ShownBy(s: Sim): seq<Cached> {
    if s.queue == [] && s.cache != [] then [s.cache[Least(s.cache)]] else []
  }

  predicate Tied(a: Cached, b: Cached) {
    a.msg.timestamp == b.msg.timestamp && a.msg.state == b.msg.state
  }

  /** An entry's serial number says which of the enqueued server messages it is. */
  ghost predicate Numbered(c: Cached, serial: nat, arrived: seq<Message>) {
    serial <= c.serial < serial + |arrived| && arrived[c.serial - serial] == c.msg
  }

  /** Entries shown and cached are numbered by arrival, each once, and ties were shown in that order. */
  ghost predicate TiesInOrder(shown: seq<Cached>, cache: seq<Cached>, serial: nat, arrived: seq<Message>) {
    && (forall i :: 0 <= i < |shown| ==> Numbered(shown[i], serial, arrived))
    && (forall i :: 0 <= i < |cache| ==> Numbered(cache[i], serial, arrived))
    && (forall i, j :: 0 <= i < |shown| && 0 <= j < |cache| ==> shown[i].serial != cache[j].serial)
    && (forall i, j :: 0 <= i < j < |shown| ==> shown[i].serial != shown[j].serial)
    && (forall i, j :: 0 <= i < j < |shown| && Tied(shown[i], shown[j]) ==> shown[i].serial < shown[j].serial)
    && (forall i, j :: 0 <= i < |shown| && 0 <= j < |cache| && Tied(shown[i], cache[j]) ==>
          shown[i].serial < cache[j].serial)
  }

  lemma ArrivalKeepsTies(shown: seq<Cached>, cache: seq<Cached>, serial: nat, arrived: seq<Message>, msg: Message)
    requires TiesInOrder(shown, cache, serial, arrived)
    ensures TiesInOrder(shown, cache + [Cached(msg, serial + |arrived|)], serial, arrived + [msg])
  {
  }

  lemma PopKeepsTies(shown: seq<Cached>, cache: seq<Cached>, serial: nat, arrived: seq<Message>, i: nat)
    requires TiesInOrder(shown, cache, serial, arrived) && i < |cache|
    requires forall j :: 0 <= j < |cache| && j != i ==> FirstByFields(cache[i], cache[j])
    requires forall j :: 0 <= j < |cache| && j != i ==> cache[i].serial != cache[j].serial
    ensures TiesInOrder(shown + [cache[i]], Without(cache, i), serial, arrived)
  {
    var rest := Without(cache, i);
    forall j | 0 <= j < |rest|
      ensures rest[j] == cache[if j < i then j else j + 1]
    {
    }
  }

  /** What has left the queue of what was enqueued. */
  function Taken(s: Sim): seq<Message> {
    if |s.queue| <= |s.sent| then s.sent[..|s.sent| - |s.queue|] else []
  }

  ghost predicate QueueIsTail(s: Sim) {
    |s.queue| <= |s.sent| && s.sent[|s.sent| - |s.queue|..] == s.queue
  }

  /** A step takes the head of the queue, and what it enqueues goes to the end. */
  lemma StepTakesHead(s: Sim, handler: Handler, vertical: bool)
    requires QueueIsTail(s)
    ensures var t := Step(s, handler, vertical);
            && QueueIsTail(t)
            && Taken(t) == Taken(s) + if s.queue != [] then [s.queue[0]] else []
  {
    var t := Step(s, handler, vertical);
    StepAppends(s, handler, vertical);
    var n := |s.sent| - |s.queue|;
    if s.queue != [] {
      assert s.sent[n..][0] == s.sent[n] && s.sent[n + 1..] == s.sent[n..][1..];
      TailMoves(s.sent, t.sent, n + 1);
      assert s.sent[..n + 1] == s.sent[..n] + [s.sent[n]];
    } else {
      TailMoves(s.sent, t.sent, n);
    }
  }

  lemma TailMoves(sent: seq<Message>, after: seq<Message>, n: nat)
    requires n <= |sent| <= |after| && after[..|sent|] == sent
    ensures after[n..] == sent[n..] + after[|sent|..] && after[..n] == sent[..n]
  {
    assert after == sent + after[|sent|..];
  }

  /** The queue after a step: without its head, with the replies behind it. */
  lemma StepAppends(s: Sim, handler: Handler, vertical: bool)
    ensures var t := Step(s, handler, vertical);
            && |s.sent| <= |t.sent| && t.sent[..|s.sent|] == s.sent
            && t.queue == (if s.queue != [] then s.queue[1..] else []) + t.sent[|s.sent|..]
  {
    if s.queue != [] {
      var msg := s.queue[0];
      if !ForServer(msg, vertical) {
        DeliverAppends(s.(queue := s.queue[1..], handled := s.handled + [msg]), msg, msg.receivers, handler);
      }
    } else if s.cache != [] {
      var i := Least(s.cache);
      var msg := s.cache[i].msg;
      DeliverAppends(s.(cache := Without(s.cache, i), handled := s.handled + [msg], popped := s.popped + [msg]),
                     msg, msg.receivers, handler);
    }
  }

  ghost predicate TieInv(s: Sim, shown: seq<Cached>, serial: nat, vertical: bool) {
    && QueueIsTail(s) && SerialsOk(s)
    && s.serial == serial + |Filter(Taken(s), ToServer(vertical))|
    && TiesInOrder(shown, s.cache, serial, Filter(Taken(s), ToServer(vertical)))
  }

  lemma StepKeepsTies(s: Sim, shown: seq<Cached>, serial: nat, handler: Handler, vertical: bool)
    requires TieInv(s, shown, serial, vertical)
    ensures TieInv(Step(s, handler, vertical), shown + ShownBy(s), serial, vertical)
  {
    StepTakesHead(s, handler, vertical);
    StepKeepsSerials(s, handler, vertical);
    StepCaches(s, handler, vertical);
    TiesAfter(s, Step(s, handler, vertical), shown, serial, vertical);
  }

  /** Ties over the kinds of step, told from what changes. */
  lemma TiesAfter(s: Sim, t: Sim, shown: seq<Cached>, serial: nat, vertical: bool)
    requires TieInv(s, shown, serial, vertical) && QueueIsTail(t) && SerialsOk(t)
    requires Taken(t) == Taken(s) + if s.queue != [] then [s.queue[0]] else []
    requires CachesStep(s, t, vertical)
    ensures TieInv(t, shown + ShownBy(s), serial, vertical)
  {
    if s.queue != [] {
      assert ShownBy(s) == [];
      assert shown + [] == shown;
      ArrivedNext(Taken(s), s.queue[0], vertical);
      TiesAfterTake(s, t, shown, serial, vertical, Filter(Taken(s), ToServer(vertical)),
                    Filter(Taken(t), ToServer(vertical)));
    } else {
      assert Taken(t) == Taken(s);
      TiesAfterPop(s, t.cache, shown, shown + ShownBy(s), serial, vertical);
    }
  }

  lemma TiesAfterTake(s: Sim, t: Sim, shown: seq<Cached>, serial: nat, vertical: bool,
                      arrived: seq<Message>, arrived': seq<Message>)
    requires s.queue != [] && CachesStep(s, t, vertical) && s.serial == serial + |arrived|
    requires TiesInOrder(shown, s.cache, serial, arrived)
    requires arrived' == if ForServer(s.queue[0], vertical) then arrived + [s.queue[0]] else arrived
    ensures t.serial == serial + |arrived'|
    ensures TiesInOrder(shown, t.cache, serial, arrived')
  {
    if ForServer(s.queue[0], vertical) {
      TiesAfterArrival(shown, s.cache, t.cache, serial, arrived, arrived', s.queue[0]);
    } else {
      assert t.cache == s.cache && arrived' == arrived;
    }
  }

  lemma TiesAfterArrival(shown: seq<Cached>, cache: seq<Cached>, cache': seq<Cached>, serial: nat,
                         arrived: seq<Message>, arrived': seq<Message>, msg: Message)
    requires TiesInOrder(shown, cache, serial, arrived)
    requires cache' == cache + [Cached(msg, serial + |arrived|)] && arrived' == arrived + [msg]
    ensures TiesInOrder(shown, cache', serial, arrived')
  {
    ArrivalKeepsTies(shown, cache, serial, arrived, msg);
  }

  lemma TiesAfterPop(s: Sim, cache': seq<Cached>, shown: seq<Cached>, shown': seq<Cached>, serial: nat, vertical: bool)
    requires TieInv(s, shown, serial, vertical) && s.queue == []
    requires cache' == if s.cache != [] then Without(s.cache, Least(s.cache)) else s.cache
    requires shown' == shown + ShownBy(s)
    ensures TiesInOrder(shown', cache', serial, Filter(Taken(s), ToServer(vertical)))
  {
    if s.cache != [] {
      LeastKeepsTies(s, shown, serial, vertical);
    } else {
      assert shown' == shown;
    }
  }

  lemma ArrivedNext(taken: seq<Message>, msg: Message, vertical: bool)
    ensures Filter(taken + [msg], ToServer(vertical))
            == if ForServer(msg, vertical) then Filter(taken, ToServer(vertical)) + [msg]
               else Filter(taken, ToServer(vertical))
  {
    FilterSnoc(taken, msg, ToServer(vertical));
    assert Filter(taken, ToServer(vertical)) + [] == Filter(taken, ToServer(vertical));
  }

  lemma LeastKeepsTies(s: Sim, shown: seq<Cached>, serial: nat, vertical: bool)
    requires TieInv(s, shown, serial, vertical) && s.queue == [] && s.cache != []
    ensures TiesInOrder(shown + [s.cache[Least(s.cache)]], Without(s.cache, Least(s.cache)), serial,
                        Filter(Taken(s), ToServer(vertical)))
  {
    forall j | 0 <= j < |s.cache| && j != Least(s.cache)
      ensures FirstByFields(s.cache[Least(s.cache)], s.cache[j])
    {
      LeastIsFirst(s, j);
    }
    PopKeepsTies(shown, s.cache, serial, Filter(Taken(s), ToServer(vertical)), Least(s.cache));
  }

  /** What a step does to the cache. */
  ghost predicate CachesStep(s: Sim, t: Sim, vertical: bool) {
    if s.queue != [] && ForServer(s.queue[0], vertical)
    then t.cache == s.cache + [Cached(s.queue[0], s.serial)] && t.serial == s.serial + 1
    else t.serial == s.serial
         && t.cache == if s.queue == [] && s.cache != [] then Without(s.cache, Least(s.cache)) else s.cache
  }

  lemma StepCaches(s: Sim, handler: Handler, vertical: bool)
    ensures CachesStep(s, Step(s, handler, vertical), vertical)
  {
    if s.queue != [] {
      var msg := s.queue[0];
      if !ForServer(msg, vertical) {
        DeliverHandlesNothingElse(s.(queue := s.queue[1..], handled := s.handled + [msg]), msg, msg.receivers, handler);
      }
    } else if s.cache != [] {
      var i := Least(s.cache);
      var msg := s.cache[i].msg;
      DeliverHandlesNothingElse(
        s.(cache := Without(s.cache, i), handled := s.handled + [msg], popped := s.popped + [msg]),
        msg, msg.receivers, handler);
    }
  }

  lemma {:induction false} RunKeepsTies(queue: seq<Message>, serial: nat, handler: Handler, vertical: bool, steps: nat)
    ensures TieInv(Run(Start(queue, serial), handler, vertical, steps),
                   Shown(queue, serial, handler, vertical, steps), serial, vertical)
  {
    if steps > 0 {
      RunKeepsTies(queue, serial, handler, vertical, steps - 1);
      StepKeepsTies(Run(Start(queue, serial), handler, vertical, steps - 1),
                    Shown(queue, serial, handler, vertical, steps - 1), serial, handler, vertical);
    }
  }

  ghost predicate AreMessagesOf(msgs: seq<Message>, entries: seq<Cached>) {
    |msgs| == |entries| && forall i :: 0 <= i < |entries| ==> msgs[i] == entries[i].msg
  }

  lemma {:induction false} ShownIsPopped(queue: seq<Message>, serial: nat, handler: Handler, vertical: bool, steps: nat)
    ensures AreMessagesOf(Run(Start(queue, serial), handler, vertical, steps).popped,
                          Shown(queue, serial, handler, vertical, steps))
  {
    if steps > 0 {
      var s := Run(Start(queue, serial), handler, vertical, steps - 1);
      ShownIsPopped(queue, serial, handler, vertical, steps - 1);
      PoppedByStep(s, handler, vertical);
      MessagesAppended(s.popped, Step(s, handler, vertical).popped,
                       Shown(queue, serial, handler, vertical, steps - 1), ShownBy(s));
    }
  }

  lemma MessagesAppended(before: seq<Message>, after: seq<Message>, entries: seq<Cached>, more: seq<Cached>)
    requires AreMessagesOf(before, entries) && before <= after && |after| == |before| + |more| && |more| <= 1
    requires more != [] ==> after[|before|] == more[0].msg
    ensures AreMessagesOf(after, entries + more)
  {
  }

  lemma PoppedByStep(s: Sim, handler: Handler, vertical: bool)
    ensures |Step(s, handler, vertical).popped| == |s.popped| + |ShownBy(s)|
    ensures s.popped <= Step(s, handler, vertical).popped
    ensures ShownBy(s) != [] ==> Step(s, handler, vertical).popped[|s.popped|] == ShownBy(s)[0].msg
  {
    PoppedIsLeast(s, handler, vertical);
  }

  /** `place` says which enqueued message each message seen is: different ones, and of two with the same
      timestamp and state the one seen first was enqueued first. */
  ghost predicate FirstComeFirstServed(seen: seq<Message>, enqueued: seq<Message>, place: seq<nat>) {
    && |place| == |seen| && Distinct(place)
    && (forall i :: 0 <= i < |seen| ==> place[i] < |enqueued| && enqueued[place[i]] == seen[i])
    && (forall i, j :: 0 <= i < j < |seen| && seen[i].timestamp == seen[j].timestamp && seen[i].state == seen[j].state
          ==> place[i] < place[j])
  }

  /** In every run, server messages with the same timestamp and state are shown in the order in which they
      were enqueued. */
  lemma TiesAreFirstComeFirstServed(queue: seq<Message>, serial: nat, handler: Handler, vertical: bool, steps: nat)
    ensures var s := Run(Start(queue, serial), handler, vertical, steps);
            exists place: seq<nat> ::
              FirstComeFirstServed(Seen(s.log, vertical), Filter(s.sent, ToServer(vertical)), place)
  {
    var s := Run(Start(queue, serial), handler, vertical, steps);
    var shown := Shown(queue, serial, handler, vertical, steps);
    RunKeepsTies(queue, serial, handler, vertical, steps);
    ShownIsPopped(queue, serial, handler, vertical, steps);
    PoppedIsSeen(queue, serial, handler, vertical, steps);
    ArrivedOfSent(s, vertical);
    PlacesOfShown(shown, s.cache, serial, Filter(Taken(s), ToServer(vertical)), Seen(s.log, vertical),
                  Filter(s.sent, ToServer(vertical)));
  }

  lemma ArrivedOfSent(s: Sim, vertical: bool)
    requires QueueIsTail(s)
    ensures Filter(Taken(s), ToServer(vertical)) <= Filter(s.sent, ToServer(vertical))
  {
    assert s.sent == Taken(s) + s.queue;
    FilterAppend(Taken(s), s.queue, ToServer(vertical));
  }

  lemma PlacesOfShown(shown: seq<Cached>, cache: seq<Cached>, serial: nat, arrived: seq<Message>, seen: seq<Message>,
                      enqueued: seq<Message>)
    requires TiesInOrder(shown, cache, serial, arrived)
    requires |seen| == |shown| && forall i :: 0 <= i < |shown| ==> seen[i] == shown[i].msg
    requires arrived <= enqueued
    ensures exists place: seq<nat> :: FirstComeFirstServed(seen, enqueued, place)
  {
    assert forall i :: 0 <= i < |shown| ==> Numbered(shown[i], serial, arrived);
    var place: seq<nat> := seq(|shown|, i requires 0 <= i < |shown| && shown[i].serial >= serial =>
      shown[i].serial - serial);
    assert FirstComeFirstServed(seen, enqueued, place);
  }

  /** Where the head of the queue goes: outside vertical mode what is for the server alone is cached and
      shown to nobody yet; anything else goes at once to its receivers, in the order listed. */
  lemma HeadGoes(s: Sim, handler: Handler, vertical: bool)
    requires s.queue != []
    ensures var msg, t := s.queue[0], Step(s, handler, vertical);
            if !vertical && msg.receivers == [0]
            then t.log == s.log && t.cache == s.cache + [Cached(msg, s.serial)] && t.serial == s.serial + 1
            else t.log == s.log + Deliveries(msg, msg.receivers) && t.cache == s.cache && t.serial == s.serial
  {
    StepCaches(s, handler, vertical);
    if !ForServer(s.queue[0], vertical) {
      DeliverLogs(s.(queue := s.queue[1..], handled := s.handled + [s.queue[0]]), s.queue[0], s.queue[0].receivers,
                  handler);
    }
  }

  // ---- how long the loop takes ----

  /** Iterations a message takes: two if it goes through the cache, else one. */
  function Iterations(msgs: seq<Message>, vertical: bool): nat {
    if msgs == [] then 0 else (if ForServer(msgs[0], vertical) then 2 else 1) + Iterations(msgs[1..], vertical)
  }

  lemma {:induction false} IterationsAppend(a: seq<Message>, b: seq<Message>, vertical: bool)
    ensures Iterations(a + b, vertical) == Iterations(a, vertical) + Iterations(b, vertical)
  {
    if a == [] {
      assert a + b == b;
    } else {
      assert (a + b)[1..] == a[1..] + b;
      IterationsAppend(a[1..], b, vertical);
    }
  }

  /** What the pending messages still take. */
  function Remaining(s: Sim, vertical: bool): nat {
    |s.cache| + Iterations(s.queue, vertical)
  }

  /** Every step does one iteration's worth of the pending work and adds that of the replies. */
  lemma StepDoesOne(s: Sim, handler: Handler, vertical: bool)
    requires !Idle(s)
    ensures var t := Step(s, handler, vertical);
            && |s.sent| <= |t.sent| && t.sent[..|s.sent|] == s.sent
            && Remaining(t, vertical) == Remaining(s, vertical) - 1 + Iterations(t.sent[|s.sent|..], vertical)
  {
    var t := Step(s, handler, vertical);
    StepAppends(s, handler, vertical);
    StepCaches(s, handler, vertical);
    IterationsAppend(if s.queue != [] then s.queue[1..] else [], t.sent[|s.sent|..], vertical);
  }

  lemma IterationsGrow(sent: seq<Message>, after: seq<Message>, vertical: bool)
    requires sent <= after
    ensures Iterations(after, vertical) == Iterations(sent, vertical) + Iterations(after[|sent|..], vertical)
  {
    assert after == sent + after[|sent|..];
    IterationsAppend(sent, after[|sent|..], vertical);
  }

  lemma {:induction false} WorkDone(queue: seq<Message>, serial: nat, handler: Handler, vertical: bool, steps: nat)
    ensures var s := Run(Start(queue, serial), handler, vertical, steps);
            if Idle(s) then Iterations(s.sent, vertical) <= steps
            else Iterations(s.sent, vertical) == Remaining(s, vertical) + steps
  {
    if steps > 0 {
      var s := Run(Start(queue, serial), handler, vertical, steps - 1);
      WorkDone(queue, serial, handler, vertical, steps - 1);
      if !Idle(s) {
        var t := Step(s, handler, vertical);
        StepDoesOne(s, handler, vertical);
        IterationsGrow(s.sent, t.sent, vertical);
      }
    }
  }

  /** With any handlers: the loop has exited after `steps` iterations if and only if everything enqueued by
      then takes no more; it never stalls. */
  lemma ExitsAfterItsWork(queue: seq<Message>, serial: nat, handler: Handler, vertical: bool, steps: nat)
    ensures var s := Run(Start(queue, serial), handler, vertical, steps);
            Idle(s) <==> Iterations(s.sent, vertical) <= steps
  {
    WorkDone(queue, serial, handler, vertical, steps);
  }

  /** With handlers that send nothing, that is the work of the initial queue. */
  lemma QuietRunExits(queue: seq<Message>, serial: nat, handler: Handler, vertical: bool, steps: nat)
    requires forall log :: handler(log) == []
    ensures Idle(Run(Start(queue, serial), handler, vertical, steps)) <==> Iterations(queue, vertical) <= steps
  {
    ExitsAfterItsWork(queue, serial, handler, vertical, steps);
    EveryMessageOnce(queue, serial, handler, vertical, steps);
    NoReplies(Run(Start(queue, serial), handler, vertical, steps).log, handler);
    assert queue + [] == queue;
  }

  // ---- the server's clock ----

  ghost predicate NonDecreasing(msgs: seq<Message>) {
    forall i, j :: 0 <= i < j < |msgs| ==> msgs[i].timestamp <= msgs[j].timestamp
  }

  /** What the server's handler has been called with, in order: every delivery to receiver 0, whatever
      other receivers the message has. */
  function ServerSees(log: seq<Delivery>): seq<Message> {
    if log == [] then []
    else
      var d := log[|log| - 1];
      ServerSees(log[..|log| - 1]) + if d.receiver == 0 then [d.msg] else []
  }

  lemma {:induction false} ServerSeesAppend(log: seq<Delivery>, more: seq<Delivery>)
    ensures ServerSees(log + more) == ServerSees(log) + ServerSees(more)
    decreases |more|
  {
    if more == [] {
      assert log + more == log;
    } else {
      assert (log + more)[..|log + more| - 1] == log + more[..|more| - 1];
      ServerSeesAppend(log, more[..|more| - 1]);
    }
  }

  lemma ServerSeesOne(d: Delivery)
    ensures ServerSees([d]) == if d.receiver == 0 then [d.msg] else []
  {
    assert [d][..0] == [] && ServerSees([d][..0]) == [];
  }

  predicate NamesServer(msg: Message) {
    0 in msg.receivers
  }

  /** Some copies of one message: none if it is not for the server, at least one if it is. */
  ghost predicate CopiesOf(copies: seq<Message>, msg: Message) {
    && (copies != [] <==> NamesServer(msg))
    && forall i :: 0 <= i < |copies| ==> copies[i] == msg
  }

  lemma {:induction false} ServerSeesCopies(msg: Message, receivers: seq<nat>)
    ensures ServerSees(Deliveries(msg, receivers)) != [] <==> 0 in receivers
    ensures forall i :: 0 <= i < |ServerSees(Deliveries(msg, receivers))| ==>
              ServerSees(Deliveries(msg, receivers))[i] == msg
    decreases |receivers|
  {
    if receivers != [] {
      var front := receivers[..|receivers| - 1];
      assert receivers == front + [receivers[|receivers| - 1]];
      assert Deliveries(msg, receivers)[..|receivers| - 1] == Deliveries(msg, front);
      ServerSeesCopies(msg, front);
    }
  }

  /** All messages still to be handled: those in the cache, then those in the queue. */
  function Pending(s: Sim): (r: seq<Message>)
    ensures |r| == |s.cache| + |s.queue|
  {
    seq(|s.cache|, i requires 0 <= i < |s.cache| => s.cache[i].msg) + s.queue
  }

  /** `msg`, if it is for the server, is not older than what the server saw last. */
  predicate NotOlder(msg: Message, seen: seq<Message>) {
    NamesServer(msg) && seen != [] ==> msg.timestamp >= seen[|seen| - 1].timestamp
  }

  /** Of two messages for the server, `ahead` enqueued first, the one that will be handled first is not
      the newer one. What is not for the server alone is handled in turn, and before everything in the
      cache; the cache itself is sorted. */
  predicate InOrder(ahead: Message, msg: Message, vertical: bool) {
    NamesServer(ahead) && NamesServer(msg) ==>
      if !ForServer(ahead, vertical) then ahead.timestamp <= msg.timestamp
      else !ForServer(msg, vertical) ==> msg.timestamp <= ahead.timestamp
  }

  ghost predicate PairsInOrder(pending: seq<Message>, vertical: bool) {
    forall i, j :: 0 <= i < j < |pending| ==> InOrder(pending[i], pending[j], vertical)
  }

  ghost predicate NoneOlder(pending: seq<Message>, seen: seq<Message>) {
    forall j :: 0 <= j < |pending| ==> NotOlder(pending[j], seen)
  }

  /** The clock has not gone back, and no pending message will make it do so. */
  ghost predicate Sound(seen: seq<Message>, pending: seq<Message>, vertical: bool) {
    NonDecreasing(seen) && NoneOlder(pending, seen) && PairsInOrder(pending, vertical)
  }

  /** The last `count` pending messages were enqueued in time: none is older than what the server has
      seen by then, and each is in order with everything pending ahead of it. */
  ghost predicate JoinInTime(seen: seq<Message>, pending: seq<Message>, count: nat, vertical: bool)
    requires count <= |pending|
  {
    forall j :: |pending| - count <= j < |pending| ==>
      && NotOlder(pending[j], seen)
      && forall i :: 0 <= i < j ==> InOrder(pending[i], pending[j], vertical)
  }

  lemma SoundJoin(seen: seq<Message>, pending: seq<Message>, more: seq<Message>, vertical: bool)
    ensures Sound(seen, pending + more, vertical)
            <==> Sound(seen, pending, vertical) && JoinInTime(seen, pending + more, |more|, vertical)
  {
    var all := pending + more;
    assert forall i :: 0 <= i < |pending| ==> all[i] == pending[i];
    if Sound(seen, all, vertical) {
      forall i, j | 0 <= i < j < |pending|
        ensures InOrder(pending[i], pending[j], vertical)
      {
        assert InOrder(all[i], all[j], vertical);
      }
      forall j | 0 <= j < |pending|
        ensures NotOlder(pending[j], seen)
      {
        assert NotOlder(all[j], seen);
      }
    }
  }

  lemma CopiesKeepOrder(seen: seq<Message>, copies: seq<Message>, msg: Message)
    requires CopiesOf(copies, msg)
    ensures NonDecreasing(seen + copies) <==> NonDecreasing(seen) && NotOlder(msg, seen)
    ensures copies != [] ==> (seen + copies)[|seen + copies| - 1] == msg
  {
    var all := seen + copies;
    if NonDecreasing(all) {
      forall i, j | 0 <= i < j < |seen|
        ensures seen[i].timestamp <= seen[j].timestamp
      {
        assert all[i].timestamp <= all[j].timestamp;
      }
      if seen != [] && copies != [] {
        assert all[|seen| - 1].timestamp <= all[|seen|].timestamp;
      }
    }
  }

  /** The message at `x` comes next: it and any other message for the server are in order exactly if it
      is not newer. */
  ghost predicate ComesNext(pending: seq<Message>, x: nat, vertical: bool)
    requires x < |pending|
  {
    forall j :: 0 <= j < |pending| && j != x && NamesServer(pending[j]) && NamesServer(pending[x]) ==>
      ((if j < x then InOrder(pending[j], pending[x], vertical) else InOrder(pending[x], pending[j], vertical))
       <==> pending[x].timestamp <= pending[j].timestamp)
  }

  lemma AllWithout(pending: seq<Message>, x: nat, p: Message -> bool)
    requires x < |pending|
    ensures (forall j :: 0 <= j < |Without(pending, x)| ==> p(Without(pending, x)[j]))
            <==> (forall j :: 0 <= j < |pending| && j != x ==> p(pending[j]))
  {
    var rest := Without(pending, x);
    if forall j :: 0 <= j < |rest| ==> p(rest[j]) {
      forall j | 0 <= j < |pending| && j != x
        ensures p(pending[j])
      {
        assert p(rest[if j < x then j else j - 1]);
      }
    }
    if forall j :: 0 <= j < |pending| && j != x ==> p(pending[j]) {
      forall j | 0 <= j < |rest|
        ensures p(rest[j])
      {
        assert p(pending[if j < x then j else j + 1]);
      }
    }
  }

  /** No other message for the server is older than the one at `x`. */
  ghost predicate LeastAt(pending: seq<Message>, x: nat)
    requires x < |pending|
  {
    forall j :: 0 <= j < |pending| && j != x && NamesServer(pending[j]) && NamesServer(pending[x]) ==>
      pending[x].timestamp <= pending[j].timestamp
  }

  lemma NoneOlderAfter(seen: seq<Message>, copies: seq<Message>, pending: seq<Message>, x: nat)
    requires x < |pending| && CopiesOf(copies, pending[x]) && NotOlder(pending[x], seen)
    ensures NoneOlder(Without(pending, x), seen + copies) <==> NoneOlder(pending, seen) && LeastAt(pending, x)
  {
    CopiesKeepOrder(seen, copies, pending[x]);
    AllWithout(pending, x, m => NotOlder(m, seen + copies));
    if copies == [] {
      assert seen + copies == seen;
    } else {
      NoneOlderThanLast(seen, copies, pending, x);
    }
  }

  lemma NoneOlderThanLast(seen: seq<Message>, copies: seq<Message>, pending: seq<Message>, x: nat)
    requires x < |pending| && CopiesOf(copies, pending[x]) && NotOlder(pending[x], seen) && copies != []
    requires (seen + copies)[|seen + copies| - 1] == pending[x]
    ensures (forall j :: 0 <= j < |pending| && j != x ==> NotOlder(pending[j], seen + copies))
            <==> NoneOlder(pending, seen) && LeastAt(pending, x)
  {
    forall j | 0 <= j < |pending| && j != x
      ensures NotOlder(pending[j], seen + copies)
              <==> (NamesServer(pending[j]) ==> pending[x].timestamp <= pending[j].timestamp)
      ensures NotOlder(pending[j], seen + copies) ==> NotOlder(pending[j], seen)
    {
    }
  }

  lemma PairsWithout(pending: seq<Message>, x: nat, vertical: bool)
    requires x < |pending|
    ensures PairsInOrder(pending, vertical) <==>
              && PairsInOrder(Without(pending, x), vertical)
              && forall j :: 0 <= j < |pending| && j != x ==>
                   if j < x then InOrder(pending[j], pending[x], vertical)
                   else InOrder(pending[x], pending[j], vertical)
  {
    var rest := Without(pending, x);
    if PairsInOrder(pending, vertical) {
      forall i, j | 0 <= i < j < |rest|
        ensures InOrder(rest[i], rest[j], vertical)
      {
        var i', j' := if i < x then i else i + 1, if j < x then j else j + 1;
        assert InOrder(pending[i'], pending[j'], vertical);
      }
    }
    if PairsInOrder(rest, vertical) {
      forall i, j | 0 <= i < j < |pending| && i != x && j != x
        ensures InOrder(pending[i], pending[j], vertical)
      {
        var i', j' := if i < x then i else i - 1, if j < x then j else j - 1;
        assert InOrder(rest[i'], rest[j'], vertical);
      }
    }
  }

  /** Handling the message that comes next neither repairs nor breaks soundness. */
  lemma SoundTake(seen: seq<Message>, copies: seq<Message>, pending: seq<Message>, x: nat, vertical: bool)
    requires x < |pending| && CopiesOf(copies, pending[x]) && ComesNext(pending, x, vertical)
    ensures Sound(seen + copies, Without(pending, x), vertical) <==> Sound(seen, pending, vertical)
  {
    CopiesKeepOrder(seen, copies, pending[x]);
    PairsWithout(pending, x, vertical);
    if NotOlder(pending[x], seen) {
      NoneOlderAfter(seen, copies, pending, x);
    }
  }

  // ---- the clock, step by step ----

  /** Which pending message a step handles; none if it only moves one to the cache. */
  function Handled(s: Sim, vertical: bool): (x: Option<nat>)
    ensures x.Some? ==> x.value < |Pending(s)|
  {
    if s.queue != [] then (if ForServer(s.queue[0], vertical) then None else Some(|s.cache|))
    else if s.cache != [] then Some(Least(s.cache))
    else None
  }

  lemma SentSplit(before: seq<Message>, replies: seq<Message>, after: seq<Message>)
    requires |before + replies| <= |after| && after[..|before + replies|] == before + replies
    ensures after[..|before|] == before
    ensures after[|before|..] == replies + after[|before + replies|..]
  {
    assert after == (before + replies) + after[|before + replies|..];
  }

  lemma {:induction false} DeliverAppends(s: Sim, msg: Message, receivers: seq<nat>, handler: Handler)
    ensures var t := Deliver(s, msg, receivers, handler);
            && |s.sent| <= |t.sent| && t.sent[..|s.sent|] == s.sent
            && t.queue == s.queue + t.sent[|s.sent|..]
    decreases |receivers|
  {
    if receivers != [] {
      var log := s.log + [Delivery(receivers[0], msg)];
      var replies := handler(log);
      var next := s.(log := log, queue := s.queue + replies, sent := s.sent + replies);
      DeliverAppends(next, msg, receivers[1..], handler);
      var t := Deliver(next, msg, receivers[1..], handler);
      SentSplit(s.sent, replies, t.sent);
    }
  }

  /** A step that handles a message delivers it to its receivers and appends what they send. */
  ghost predicate TakesAndAppends(s: Sim, t: Sim, x: nat)
    requires x < |Pending(s)|
  {
    && |s.sent| <= |t.sent|
    && Pending(t) == Without(Pending(s), x) + t.sent[|s.sent|..]
    && t.log == s.log + Deliveries(Pending(s)[x], Pending(s)[x].receivers)
  }

  lemma HandlesHead(s: Sim, handler: Handler, vertical: bool)
    requires s.queue != [] && !ForServer(s.queue[0], vertical)
    ensures TakesAndAppends(s, Step(s, handler, vertical), |s.cache|)
  {
    var msg := s.queue[0];
    var s1 := s.(queue := s.queue[1..], handled := s.handled + [msg]);
    DeliverHandlesNothingElse(s1, msg, msg.receivers, handler);
    DeliverAppends(s1, msg, msg.receivers, handler);
    DeliverLogs(s1, msg, msg.receivers, handler);
    assert Without(Pending(s), |s.cache|) == Pending(s1);
    assert Pending(Step(s, handler, vertical)) == Pending(s1) + Step(s, handler, vertical).sent[|s.sent|..];
  }

  lemma HandlesLeast(s: Sim, handler: Handler, vertical: bool)
    requires s.queue == [] && s.cache != []
    ensures TakesAndAppends(s, Step(s, handler, vertical), Least(s.cache))
  {
    var i := Least(s.cache);
    var msg := s.cache[i].msg;
    var s1 := s.(cache := Without(s.cache, i), handled := s.handled + [msg], popped := s.popped + [msg]);
    DeliverHandlesNothingElse(s1, msg, msg.receivers, handler);
    DeliverAppends(s1, msg, msg.receivers, handler);
    DeliverLogs(s1, msg, msg.receivers, handler);
    assert Without(Pending(s), i) == Pending(s1);
    assert Pending(Step(s, handler, vertical)) == Pending(s1) + Step(s, handler, vertical).sent[|s.sent|..];
  }

  /** The two kinds of step. */
  lemma StepShape(s: Sim, handler: Handler, vertical: bool)
    ensures var t := Step(s, handler, vertical);
            match Handled(s, vertical)
            case None => Pending(t) == Pending(s) && t.sent == s.sent && t.log == s.log
            case Some(x) => TakesAndAppends(s, t, x)
  {
    if s.queue != [] {
      if ForServer(s.queue[0], vertical) {
        assert s.queue == [s.queue[0]] + s.queue[1..];
        assert Pending(Step(s, handler, vertical)) == Pending(s);
      } else {
        HandlesHead(s, handler, vertical);
      }
    } else if s.cache != [] {
      HandlesLeast(s, handler, vertical);
    }
  }

  ghost predicate CacheForServer(s: Sim, vertical: bool) {
    forall i :: 0 <= i < |s.cache| ==> ForServer(s.cache[i].msg, vertical)
  }

  lemma HandledComesNext(s: Sim, vertical: bool)
    requires CacheForServer(s, vertical) && Handled(s, vertical).Some?
    ensures ComesNext(Pending(s), Handled(s, vertical).value, vertical)
  {
    var pending, x := Pending(s), Handled(s, vertical).value;
    assert forall i :: 0 <= i < |s.cache| ==> pending[i] == s.cache[i].msg;
    if s.queue == [] {
      assert forall j :: 0 <= j < |s.cache| ==> !Before(s.cache[j], s.cache[x]);
    }
  }

  /** How many messages a step enqueues. */
  function Joined(s: Sim, t: Sim): nat {
    if |s.sent| <= |t.sent| then |t.sent| - |s.sent| else 0
  }

  /** What a step enqueues is enqueued in time. */
  ghost predicate StepInTime(s: Sim, t: Sim, vertical: bool) {
    Joined(s, t) <= |Pending(t)| && JoinInTime(ServerSees(t.log), Pending(t), Joined(s, t), vertical)
  }

  ghost predicate SoundState(s: Sim, vertical: bool) {
    Sound(ServerSees(s.log), Pending(s), vertical)
  }

  lemma StepKeepsSound(s: Sim, handler: Handler, vertical: bool)
    requires CacheForServer(s, vertical)
    ensures SoundState(Step(s, handler, vertical), vertical)
            <==> SoundState(s, vertical) && StepInTime(s, Step(s, handler, vertical), vertical)
  {
    var t := Step(s, handler, vertical);
    StepShape(s, handler, vertical);
    if Handled(s, vertical).Some? {
      var x := Handled(s, vertical).value;
      var msg := Pending(s)[x];
      var copies := ServerSees(Deliveries(msg, msg.receivers));
      ServerSeesAppend(s.log, Deliveries(msg, msg.receivers));
      ServerSeesCopies(msg, msg.receivers);
      HandledComesNext(s, vertical);
      SoundTake(ServerSees(s.log), copies, Pending(s), x, vertical);
      SoundJoin(ServerSees(t.log), Without(Pending(s), x), t.sent[|s.sent|..], vertical);
    }
  }

  /** In the whole run, the initial queue included, everything is enqueued in time. */
  ghost predicate RunInTime(queue: seq<Message>, serial: nat, handler: Handler, vertical: bool, steps: nat) {
    if steps == 0 then PairsInOrder(queue, vertical)
    else
      && RunInTime(queue, serial, handler, vertical, steps - 1)
      && StepInTime(Run(Start(queue, serial), handler, vertical, steps - 1),
                    Run(Start(queue, serial), handler, vertical, steps), vertical)
  }

  lemma {:induction false} SoundIffInTime(queue: seq<Message>, serial: nat, handler: Handler, vertical: bool,
                                          steps: nat)
    ensures SoundState(Run(Start(queue, serial), handler, vertical, steps), vertical)
            <==> RunInTime(queue, serial, handler, vertical, steps)
  {
    if steps == 0 {
      assert Pending(Start(queue, serial)) == queue;
    } else {
      var s := Run(Start(queue, serial), handler, vertical, steps - 1);
      SoundIffInTime(queue, serial, handler, vertical, steps - 1);
      RunKeepsPopped(queue, serial, handler, vertical, steps - 1);
      StepKeepsSound(s, handler, vertical);
    }
  }

  /** If everything is enqueued in time, the server sees non-decreasing timestamps at every point of
      the run: in both modes and for any receiver lists. */
  lemma ServerClockIsMonotone(queue: seq<Message>, serial: nat, handler: Handler, vertical: bool, steps: nat)
    requires RunInTime(queue, serial, handler, vertical, steps)
    ensures NonDecreasing(ServerSees(Run(Start(queue, serial), handler, vertical, steps).log))
  {
    SoundIffInTime(queue, serial, handler, vertical, steps);
  }

  /** Exactly when the server's clock is monotone: once the loop has exited, the server has seen
      non-decreasing timestamps if and only if everything was enqueued in time. */
  lemma ClockMonotoneIffInTime(queue: seq<Message>, serial: nat, handler: Handler, vertical: bool, steps: nat)
    requires Idle(Run(Start(queue, serial), handler, vertical, steps))
    ensures NonDecreasing(ServerSees(Run(Start(queue, serial), handler, vertical, steps).log))
            <==> RunInTime(queue, serial, handler, vertical, steps)
  {
    SoundIffInTime(queue, serial, handler, vertical, steps);
    assert Pending(Run(Start(queue, serial), handler, vertical, steps)) == [];
  }

  // ---- what a handler can do about it ----

  /** Messages for the server go to nobody else. */
  ghost predicate ServerAlone(msgs: seq<Message>) {
    forall i :: 0 <= i < |msgs| ==> NamesServer(msgs[i]) ==> ForServer(msgs[i], false)
  }

  ghost predicate NotBefore(msgs: seq<Message>, time: real) {
    forall i :: 0 <= i < |msgs| ==> msgs[i].timestamp >= time
  }

  /** Every reply is no older than the message it answers, and replies for the server go to it alone. */
  ghost predicate AnswersForward(handler: Handler) {
    forall log: seq<Delivery> :: log != [] ==>
      ServerAlone(handler(log)) && NotBefore(handler(log), log[|log| - 1].msg.timestamp)
  }

  lemma {:induction false} RepliesForward(s: Sim, msg: Message, receivers: seq<nat>, handler: Handler)
    requires AnswersForward(handler)
    ensures var t := Deliver(s, msg, receivers, handler);
            |s.sent| <= |t.sent| && ServerAlone(t.sent[|s.sent|..]) && NotBefore(t.sent[|s.sent|..], msg.timestamp)
    decreases |receivers|
  {
    if receivers != [] {
      var log := s.log + [Delivery(receivers[0], msg)];
      var replies := handler(log);
      var next := s.(log := log, queue := s.queue + replies, sent := s.sent + replies);
      RepliesForward(next, msg, receivers[1..], handler);
      DeliverAppends(next, msg, receivers[1..], handler);
      var t := Deliver(next, msg, receivers[1..], handler);
      SentSplit(s.sent, replies, t.sent);
    }
  }

  /** Nothing pending, for whomever, is older than what the server saw last. */
  ghost predicate Forward(s: Sim) {
    KeepsForward(ServerSees(s.log), Pending(s))
  }

  ghost predicate KeepsForward(seen: seq<Message>, pending: seq<Message>) {
    && NonDecreasing(seen) && ServerAlone(pending)
    && (seen != [] ==> NotBefore(pending, seen[|seen| - 1].timestamp))
  }

  /** A server message is only handled when it is the oldest one pending. */
  lemma HandledIsOldest(s: Sim, x: nat, j: nat)
    requires ServerAlone(Pending(s)) && Handled(s, false) == Some(x) && NamesServer(Pending(s)[x]) && j < |Pending(s)|
    ensures Pending(s)[x].timestamp <= Pending(s)[j].timestamp
  {
    assert ForServer(Pending(s)[x], false);
    LeastIsOldest(s.cache, j);
  }

  lemma LeastIsOldest(cache: seq<Cached>, j: nat)
    requires j < |cache|
    ensures cache[Least(cache)].msg.timestamp <= cache[j].msg.timestamp
  {
    assert !Before(cache[j], cache[Least(cache)]);
  }

  lemma TakeKeepsForward(s: Sim, t: Sim, x: nat)
    requires Forward(s) && Handled(s, false) == Some(x) && TakesAndAppends(s, t, x)
    requires ServerAlone(t.sent[|s.sent|..]) && NotBefore(t.sent[|s.sent|..], Pending(s)[x].timestamp)
    ensures Forward(t)
  {
    var msg := Pending(s)[x];
    ServerSeesAppend(s.log, Deliveries(msg, msg.receivers));
    ServerSeesCopies(msg, msg.receivers);
    if NamesServer(msg) {
      RestNotBefore(s, x);
    }
    TakeForward(ServerSees(s.log), ServerSees(Deliveries(msg, msg.receivers)), Pending(s), x, t.sent[|s.sent|..]);
  }

  lemma RestNotBefore(s: Sim, x: nat)
    requires ServerAlone(Pending(s)) && Handled(s, false) == Some(x) && NamesServer(Pending(s)[x])
    ensures NotBefore(Pending(s), Pending(s)[x].timestamp)
  {
    forall j | 0 <= j < |Pending(s)|
      ensures Pending(s)[j].timestamp >= Pending(s)[x].timestamp
    {
      HandledIsOldest(s, x, j);
    }
  }

  lemma TakeForward(seen: seq<Message>, copies: seq<Message>, pending: seq<Message>, x: nat, more: seq<Message>)
    requires KeepsForward(seen, pending) && x < |pending| && CopiesOf(copies, pending[x])
    requires NamesServer(pending[x]) ==> NotBefore(pending, pending[x].timestamp)
    requires ServerAlone(more) && NotBefore(more, pending[x].timestamp)
    ensures KeepsForward(seen + copies, Without(pending, x) + more)
  {
    CopiesKeepOrder(seen, copies, pending[x]);
    AloneWithout(pending, x);
    if seen != [] {
      NotBeforeWithout(pending, x, seen[|seen| - 1].timestamp);
    }
    if copies != [] {
      NotBeforeWithout(pending, x, pending[x].timestamp);
    }
    ForwardJoin(seen, copies, pending[x], Without(pending, x), more);
  }

  lemma AloneWithout(pending: seq<Message>, x: nat)
    requires ServerAlone(pending) && x < |pending|
    ensures ServerAlone(Without(pending, x))
  {
    AllWithout(pending, x, m => NamesServer(m) ==> ForServer(m, false));
  }

  lemma NotBeforeWithout(pending: seq<Message>, x: nat, time: real)
    requires NotBefore(pending, time) && x < |pending|
    ensures NotBefore(Without(pending, x), time)
  {
    AllWithout(pending, x, (m: Message) => m.timestamp >= time);
  }

  lemma ForwardJoin(seen: seq<Message>, copies: seq<Message>, msg: Message, rest: seq<Message>, more: seq<Message>)
    requires ServerAlone(rest) && ServerAlone(more) && NotBefore(more, msg.timestamp)
    requires copies != [] ==> (seen + copies)[|seen + copies| - 1] == msg && NotBefore(rest, msg.timestamp)
    requires seen != [] ==>
               NotBefore(rest, seen[|seen| - 1].timestamp) && msg.timestamp >= seen[|seen| - 1].timestamp
    ensures ServerAlone(rest + more)
    ensures seen + copies != [] ==> NotBefore(rest + more, (seen + copies)[|seen + copies| - 1].timestamp)
  {
    if copies == [] {
      assert seen + copies == seen;
    }
  }

  lemma StepKeepsForward(s: Sim, handler: Handler)
    requires Forward(s) && AnswersForward(handler)
    ensures Forward(Step(s, handler, false))
  {
    StepShape(s, handler, false);
    if Handled(s, false).Some? {
      StepRepliesForward(s, handler);
      TakeKeepsForward(s, Step(s, handler, false), Handled(s, false).value);
    }
  }

  lemma StepRepliesForward(s: Sim, handler: Handler)
    requires AnswersForward(handler) && Handled(s, false).Some?
    ensures var t := Step(s, handler, false);
            && |s.sent| <= |t.sent| && ServerAlone(t.sent[|s.sent|..])
            && NotBefore(t.sent[|s.sent|..], Pending(s)[Handled(s, false).value].timestamp)
  {
    if s.queue != [] {
      var msg := s.queue[0];
      RepliesForward(s.(queue := s.queue[1..], handled := s.handled + [msg]), msg, msg.receivers, handler);
    } else {
      var i := Least(s.cache);
      var msg := s.cache[i].msg;
      RepliesForward(s.(cache := Without(s.cache, i), handled := s.handled + [msg], popped := s.popped + [msg]),
                     msg, msg.receivers, handler);
    }
  }

  lemma {:induction false} RunKeepsForward(queue: seq<Message>, serial: nat, handler: Handler, steps: nat)
    requires ServerAlone(queue) && AnswersForward(handler)
    ensures Forward(Run(Start(queue, serial), handler, false, steps))
  {
    if steps == 0 {
      assert Pending(Start(queue, serial)) == queue;
    } else {
      RunKeepsForward(queue, serial, handler, steps - 1);
      StepKeepsForward(Run(Start(queue, serial), handler, false, steps - 1), handler);
    }
  }

  /** A condition on the handlers alone: if no reply is older than the message it answers and messages
      for the server go to it alone, the server's clock never goes back, from any such initial queue,
      in any order, and whatever is sent to clients. */
  lemma ForwardHandlersKeepTheClock(queue: seq<Message>, serial: nat, handler: Handler, steps: nat)
    requires ServerAlone(queue) && AnswersForward(handler)
    ensures NonDecreasing(ServerSees(Run(Start(queue, serial), handler, false, steps).log))
  {
    RunKeepsForward(queue, serial, handler, steps);
  }

  /** Where messages for the server go to it alone, being in time is about what it saw last only. */
  lemma AloneInTime(seen: seq<Message>, pending: seq<Message>, count: nat)
    requires ServerAlone(pending) && count <= |pending|
    ensures JoinInTime(seen, pending, count, false)
            <==> forall j :: |pending| - count <= j < |pending| ==> NotOlder(pending[j], seen)
  {
    forall i, j | 0 <= i < j < |pending|
      ensures InOrder(pending[i], pending[j], false)
    {
    }
  }

  // ---- servers that go back in time ----

  function Early(): Message {
    Message(1, [0], 0, 2.0, 0)
  }

  function Late(): Message {
    Message(1, [0], 0, 1.0, 0)
  }

  /** Answers the first delivery with an older message for the server, and nothing after. */
  function LateHandler(): Handler {
    log => if |log| == 1 then [Late()] else []
  }

  lemma OneCached(s: Sim, msg: Message, handler: Handler)
    requires s.queue == [msg] && s.cache == [] && msg.receivers == [0]
    ensures Step(s, handler, false) == s.(queue := [], cache := [Cached(msg, s.serial)], serial := s.serial + 1)
  {
    assert s.queue[1..] == [];
  }

  lemma OnePopped(s: Sim, msg: Message, serial: nat, handler: Handler)
    requires s.queue == [] && s.cache == [Cached(msg, serial)] && msg.receivers == [0]
    ensures var log := s.log + [Delivery(0, msg)];
            Step(s, handler, false)
            == s.(queue := handler(log), cache := [], log := log, sent := s.sent + handler(log),
                  handled := s.handled + [msg], popped := s.popped + [msg])
  {
    assert Without(s.cache, 0) == [] && Least(s.cache) == 0;
    DeliverToServer(s.(cache := [], handled := s.handled + [msg], popped := s.popped + [msg]), msg, handler);
    var log := s.log + [Delivery(0, msg)];
    assert [] + handler(log) == handler(log);
  }

  lemma DeliverToServer(s: Sim, msg: Message, handler: Handler)
    requires msg.receivers == [0]
    ensures var log := s.log + [Delivery(0, msg)];
            Deliver(s, msg, msg.receivers, handler)
            == s.(log := log, queue := s.queue + handler(log), sent := s.sent + handler(log))
  {
    assert msg.receivers[1..] == [];
  }

  const FOUR: nat := 4

  /** At a concrete input: the loop ends after four steps and the server has seen time 2, then 1. */
  lemma ClockCanGoBack()
    ensures var s := Run(Start([Early()], 0), LateHandler(), false, FOUR);
            Idle(s) && ServerSees(s.log) == [Early(), Late()] && !NonDecreasing(ServerSees(s.log))
  {
    var h := LateHandler();
    FourSteps(Start([Early()], 0), h);
    TwoSeen(Early(), Late(), [Delivery(0, Early()), Delivery(0, Late())]);
  }

  lemma TwoSeen(first: Message, second: Message, log: seq<Delivery>)
    requires log == [Delivery(0, first), Delivery(0, second)] && first.timestamp > second.timestamp
    ensures ServerSees(log) == [first, second] && !NonDecreasing(ServerSees(log))
  {
    assert log == [Delivery(0, first)] + [Delivery(0, second)];
    ServerSeesAppend([Delivery(0, first)], [Delivery(0, second)]);
    ServerSeesOne(Delivery(0, first));
    ServerSeesOne(Delivery(0, second));
    var seen := ServerSees(log);
    assert seen[0].timestamp > seen[1].timestamp;
  }

  lemma FourSteps(s: Sim, handler: Handler)
    requires s == Start([Early()], 0) && handler == LateHandler()
    ensures var t := Run(s, handler, false, 4); Idle(t) && t.log == [Delivery(0, Early()), Delivery(0, Late())]
  {
    OneCached(s, Early(), handler);
    var s1 := Run(s, handler, false, 1);
    assert s1 == Step(Run(s, handler, false, 0), handler, false);
    OnePopped(s1, Early(), 0, handler);
    var s2 := Run(s, handler, false, 2);
    assert s2 == Step(s1, handler, false);
    OneCached(s2, Late(), handler);
    var s3 := Run(s, handler, false, 3);
    assert s3 == Step(s2, handler, false);
    OnePopped(s3, Late(), 1, handler);
  }

  /** For the server and a client. */
  function Shared(time: real): Message {
    Message(1, [0, 2], 0, time, 0)
  }

  function QuietHandler(): Handler {
    log => []
  }

  /** At a concrete input, in both modes and with handlers that send nothing: messages that also go to
      a client are not sorted, and the server sees time 2, then time 1. */
  lemma SharedClockCanGoBack(vertical: bool)
    ensures var s := Run(Start([Shared(2.0), Shared(1.0)], 0), QuietHandler(), vertical, 2);
            && Idle(s) && ServerSees(s.log) == [Shared(2.0), Shared(1.0)] && !NonDecreasing(ServerSees(s.log))
            && !RunInTime([Shared(2.0), Shared(1.0)], 0, QuietHandler(), vertical, 2)
  {
    var queue, h := [Shared(2.0), Shared(1.0)], QuietHandler();
    var s0 := Run(Start(queue, 0), h, vertical, 0);
    SharedHandled(s0, 2.0, h, vertical);
    var s1 := Run(Start(queue, 0), h, vertical, 1);
    SharedHandled(s1, 1.0, h, vertical);
    var s2 := Run(Start(queue, 0), h, vertical, 2);
    var first, second := Deliveries(Shared(2.0), [0, 2]), Deliveries(Shared(1.0), [0, 2]);
    assert s2.log == first + second;
    ServerSeesAppend(first, second);
    SharedSeen(2.0);
    SharedSeen(1.0);
    var seen := ServerSees(s2.log);
    assert seen[0].timestamp > seen[1].timestamp;
    ClockMonotoneIffInTime(queue, 0, h, vertical, 2);
  }

  lemma SharedHandled(s: Sim, time: real, handler: Handler, vertical: bool)
    requires s.queue != [] && s.queue[0] == Shared(time) && handler == QuietHandler()
    ensures var t := Step(s, handler, vertical);
            t.queue == s.queue[1..] && t.cache == s.cache && t.log == s.log + Deliveries(Shared(time), [0, 2])
  {
    var msg := s.queue[0];
    var s1 := s.(queue := s.queue[1..], handled := s.handled + [msg]);
    assert msg.receivers[1..] == [2] && [2][1..] == [];
    assert s1.queue + [] == s1.queue && s1.sent + [] == s1.sent;
    DeliverLogs(s1, msg, msg.receivers, handler);
    DeliverHandlesNothingElse(s1, msg, msg.receivers, handler);
  }

  lemma SharedSeen(time: real)
    ensures ServerSees(Deliveries(Shared(time), [0, 2])) == [Shared(time)]
  {
    assert Deliveries(Shared(time), [0, 2]) == [Delivery(0, Shared(time))] + [Delivery(2, Shared(time))];
    ServerSeesAppend([Delivery(0, Shared(time))], [Delivery(2, Shared(time))]);
    ServerSeesOne(Delivery(0, Shared(time)));
    ServerSeesOne(Delivery(2, Shared(time)));
  }

  // ---- the loop itself ----

  class StandaloneRunner {
    var sharedCommQueue: seq<Message>
    var serialNumForMsg: nat
    var log: seq<Delivery>  // what the workers' handlers have been called with
    ghost var sim: Sim  // the same state with its history
    const verticalUse: bool

    constructor (queue: seq<Message>, vertical: bool)
      ensures sim == Start(queue, 0) && Matches([]) && verticalUse == vertical
    {
      sharedCommQueue, serialNumForMsg, log := queue, 0, [];
      sim := Start(queue, 0);
      verticalUse := vertical;
    }

    ghost predicate Matches(cache: seq<Cached>)
      reads this
    {
      && sim.queue == sharedCommQueue && sim.cache == cache
      && sim.serial == serialNumForMsg && sim.log == log
    }

    method HandleMsg(msg: Message, cache: seq<Cached>, handler: Handler)
      requires Matches(cache)
      modifies this
      ensures Matches(cache) && sim == Deliver(old(sim), msg, msg.receivers, handler)
    {
      for n := 0 to |msg.receivers|
        invariant Matches(cache)
        invariant Deliver(sim, msg, msg.receivers[n..], handler) == Deliver(old(sim), msg, msg.receivers, handler)
      {
        assert msg.receivers[n..][1..] == msg.receivers[n + 1..];
        log := log + [Delivery(msg.receivers[n], msg)];
        var replies := handler(log);
        sharedCommQueue := sharedCommQueue + replies;
        sim := sim.(log := log, queue := sim.queue + replies, sent := sim.sent + replies);
      }
    }

    /** _run_simulation, stopped after `limit` iterations (arbitrary handlers need not stop). */
    method RunSimulation(handler: Handler, limit: nat) returns (finished: bool)
      requires Matches([])
      modifies this
      ensures sim == Run(old(sim), handler, verticalUse, limit)
      ensures finished <==> Idle(sim)
      ensures sharedCommQueue == sim.queue && log == sim.log
    {
      var serverMsgCache: seq<Cached> := [];
      for n := 0 to limit
        invariant Matches(serverMsgCache)
        invariant sim == Run(old(sim), handler, verticalUse, n)
      {
        if |sharedCommQueue| > 0 {
          var msg := sharedCommQueue[0];
          sharedCommQueue := sharedCommQueue[1..];
          if !verticalUse && msg.receivers == [0] {
            serverMsgCache := serverMsgCache + [Cached(msg, serialNumForMsg)];
            serialNumForMsg := serialNumForMsg + 1;
            sim := Step(sim, handler, verticalUse);
          } else {
            sim := sim.(queue := sharedCommQueue, handled := sim.handled + [msg]);
            HandleMsg(msg, serverMsgCache, handler);
          }
        } else if |serverMsgCache| > 0 {
          var i := Least(serverMsgCache);
          var msg := serverMsgCache[i].msg;
          serverMsgCache := Without(serverMsgCache, i);
          sim := sim.(cache := serverMsgCache, handled := sim.handled + [msg], popped := sim.popped + [msg]);
          HandleMsg(msg, serverMsgCache, handler);
        }
      }
      finished := |sharedCommQueue| == 0 && |serverMsgCache| == 0;
    }
  }
}
