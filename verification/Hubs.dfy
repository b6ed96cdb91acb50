/**
 * The fan-out hub: topic -> subscribers, delivery to every subscriber's mailbox, and reaping of
 * the ones that are closed or wedged.  The registry is generic in what identifies a mailbox: the
 * object itself in the class below, any name in the model of whole runs.  A fan-out may visit the
 * subscribers in any order; the order it took is part of the event.
 */
module Hubs {
  import opened Options
  import opened Mailboxes

  datatype Topic = Topic(name: string)

  type ConnId = nat

  type Registry<B> = map<Topic, map<ConnId, B>>

  // --- The registry ------------------------------------------------------------

  function SubsOf<B>(topics: Registry<B>, topic: Topic): map<ConnId, B> {
    if topic in topics then topics[topic] else map[]
  }

  /** Replace a topic's subscribers, dropping the topic with its last one. */
  function WithSubs<B>(topics: Registry<B>, topic: Topic, subs: map<ConnId, B>): Registry<B> {
    if subs.Keys == {} then topics - {topic} else topics[topic := subs]
  }

  function AfterSubscribe<B>(topics: Registry<B>, topic: Topic, conn: ConnId, box: B): Registry<B> {
    topics[topic := SubsOf(topics, topic)[conn := box]]
  }

  /** Remove a set of connections from one topic. */
  function Reap<B>(topics: Registry<B>, topic: Topic, conns: set<ConnId>): Registry<B> {
    if topic in topics then WithSubs(topics, topic, topics[topic] - conns) else topics
  }

  function AfterUnsubscribe<B>(topics: Registry<B>, topic: Topic, conn: ConnId): Registry<B> {
    Reap(topics, topic, {conn})
  }

  function AfterDisconnect<B>(topics: Registry<B>, conn: ConnId): Registry<B> {
    map topic | topic in topics && (topics[topic] - {conn}).Keys != {} :: topics[topic] - {conn}
  }

  /** Every topic has a subscriber: names are client-controlled, so an empty one must not linger. */
  ghost predicate NoEmptyTopic<B>(topics: Registry<B>) {
    forall topic | topic in topics :: topics[topic].Keys != {}
  }

  // --- Fan-out -----------------------------------------------------------------

  ghost predicate AllBounded<B>(boxes: map<B, Box>) {
    forall box | box in boxes :: Bounded(boxes[box])
  }

  /** The result of offering one message along a list of connections. */
  datatype FanOut<B> = FanOut(boxes: map<B, Box>, delivered: nat, wedged: set<ConnId>)

  ghost predicate CanReach<B>(boxes: map<B, Box>, subs: map<ConnId, B>, order: seq<ConnId>) {
    AllBounded(boxes) && forall i | 0 <= i < |order| :: order[i] in subs && subs[order[i]] in boxes
  }

  /** Offer the message to one more connection. */
  function FanOne<B>(f: FanOut<B>, box: B, conn: ConnId, msg: Message): (f': FanOut<B>)
    requires box in f.boxes && Bounded(f.boxes[box])
    ensures f'.boxes.Keys == f.boxes.Keys
  {
    var (b, outcome) := AfterDeliver(f.boxes[box], msg);
    FanOut(f.boxes[box := b],
           if outcome.Delivered? then f.delivered + 1 else f.delivered,
           if outcome.Gone? then f.wedged + {conn} else f.wedged)
  }

  ghost function Fan<B>(boxes: map<B, Box>, subs: map<ConnId, B>, order: seq<ConnId>, msg: Message): (f: FanOut<B>)
    requires CanReach(boxes, subs, order)
    ensures AllBounded(f.boxes) && f.boxes.Keys == boxes.Keys
    decreases |order|
  {
    if order == [] then FanOut(boxes, 0, {}) else
      var n := |order| - 1;
      FanOne(Fan(boxes, subs, order[..n], msg), subs[order[n]], order[n], msg)
  }

  /** The snapshot lists every subscriber once. */
  ghost predicate Enumerates(order: seq<ConnId>, conns: set<ConnId>) {
    && (forall i, j | 0 <= i < j < |order| :: order[i] != order[j])
    && (forall c :: c in order <==> c in conns)
  }

  function Members(conns: seq<ConnId>): set<ConnId> {
    set c | c in conns
  }

  lemma EnumerationGrows(order: seq<ConnId>, conns: set<ConnId>, conn: ConnId)
    requires Enumerates(order, conns) && conn !in conns
    ensures Enumerates(order + [conn], conns + {conn})
  {
  }

  // --- The object --------------------------------------------------------------

  ghost function Contents(boxes: set<Mailbox>): map<Mailbox, Box>
    reads boxes
  {
    map m | m in boxes :: m.Value()
  }

  /** `list(subscribers)`: every key once. */
  method Snapshot(subs: map<ConnId, Mailbox>) returns (order: seq<ConnId>)
    ensures Enumerates(order, subs.Keys)
  {
    order := [];
    var rest := subs.Keys;
    while rest != {}
      invariant rest <= subs.Keys && Enumerates(order, subs.Keys - rest)
      decreases rest
    {
      var conn :| conn in rest;
      EnumerationGrows(order, subs.Keys - rest, conn);
      assert subs.Keys - (rest - {conn}) == (subs.Keys - rest) + {conn};
      order, rest := order + [conn], rest - {conn};
    }
  }

  class Hub {
    var topics: Registry<Mailbox>

    ghost predicate Valid()
      reads this
    {
      NoEmptyTopic(topics)
    }

    constructor ()
      ensures Valid() && topics == map[]
    {
      topics := map[];
    }

    method Subscribe(topic: Topic, conn: ConnId, mailbox: Mailbox)
      requires Valid()
      modifies this
      ensures Valid() && topics == AfterSubscribe(old(topics), topic, conn, mailbox)
    {
      if topic !in topics {
        topics := topics[topic := map[]];
      }
      var subscribers: map<ConnId, Mailbox> := topics[topic];
      subscribers := subscribers[conn := mailbox];
      topics := topics[topic := subscribers];
      assert conn in topics[topic].Keys;
    }

    method Unsubscribe(topic: Topic, conn: ConnId)
      requires Valid()
      modifies this
      ensures Valid() && topics == AfterUnsubscribe(old(topics), topic, conn)
    {
      if topic !in topics {
        return;
      }
      LeaveTopic(topic, conn);
    }

    /**
     * Returns how many subscribers the message reached.  The snapshot's order and the connections
     * found gone are named for the contract.
     */
    method Publish(topic: Topic, msg: Message)
        returns (delivered: nat, ghost order: seq<ConnId>, ghost wedged: seq<ConnId>)
      requires Valid()
      requires forall m | m in SubsOf(topics, topic).Values :: m.Valid()
      modifies this, SubsOf(topics, topic).Values
      ensures Valid() && topics == Reap(old(topics), topic, Members(wedged))
      ensures var subs := old(SubsOf(topics, topic));
              && Enumerates(order, subs.Keys) && CanReach(old(Contents(subs.Values)), subs, order)
              && Agrees(Fan(old(Contents(subs.Values)), subs, order, msg), subs.Values, delivered, wedged)
    {
      if topic !in topics {
        assert Contents(SubsOf(topics, topic).Values) == map[];
        return 0, [], [];
      }
      delivered, order, wedged := PublishTo(topic, topics[topic], msg);
    }

    /** The publish of a topic that has subscribers: snapshot, deliver, reap. */
    method PublishTo(topic: Topic, subs: map<ConnId, Mailbox>, msg: Message)
        returns (delivered: nat, ghost order: seq<ConnId>, ghost wedged: seq<ConnId>)
      requires Valid() && topic in topics && topics[topic] == subs
      requires forall m | m in subs.Values :: m.Valid()
      modifies this, subs.Values
      ensures Valid() && topics == Reap(old(topics), topic, Members(wedged))
      ensures Enumerates(order, subs.Keys) && CanReach(old(Contents(subs.Values)), subs, order)
      ensures Agrees(Fan(old(Contents(subs.Values)), subs, order, msg), subs.Values, delivered, wedged)
    {
      var gone;
      delivered, order, gone := DeliverToAll(subs, msg);
      wedged := gone;
      ghost var f := Fan(old(Contents(subs.Values)), subs, order, msg);
      ReapAll(topic, gone);
      assert Agrees(f, subs.Values, delivered, gone);
    }

    method ReapAll(topic: Topic, wedged: seq<ConnId>)
      requires Valid()
      modifies this
      ensures Valid() && topics == Reap(old(topics), topic, Members(wedged))
    {
      ReapNobody(topics, topic);
      assert Members(wedged[..0]) == {};
      for i := 0 to |wedged|
        invariant Valid() && topics == Reap(old(topics), topic, Members(wedged[..i]))
      {
        ReapOneMore(old(topics), topic, Members(wedged[..i]), wedged[i]);
        assert Members(wedged[..i + 1]) == Members(wedged[..i]) + {wedged[i]};
        Unsubscribe(topic, wedged[i]);
      }
      assert wedged[..|wedged|] == wedged;
    }

    method Disconnect(conn: ConnId)
      requires Valid()
      modifies this
      ensures Valid() && topics == AfterDisconnect(old(topics), conn)
    {
      var rest := topics.Keys;
      while rest != {}
        invariant rest <= old(topics).Keys && topics == DisconnectedBut(old(topics), conn, rest)
        decreases rest
      {
        var topic :| topic in rest;
        DisconnectOneMore(old(topics), conn, rest, topic);
        LeaveTopic(topic, conn);
        rest := rest - {topic};
      }
      DisconnectedFromAll(old(topics), conn);
    }

    /** Take the connection out of a topic that exists, and the topic with its last subscriber. */
    method LeaveTopic(topic: Topic, conn: ConnId)
      requires topic in topics
      modifies this
      ensures topics == WithSubs(old(topics), topic, old(topics)[topic] - {conn})
    {
      var subscribers := topics[topic] - {conn};
      topics := topics[topic := subscribers];
      if subscribers.Keys == {} {
        topics := topics - {topic};
      }
    }
  }

  /** The registry while `Disconnect` has still to visit the topics in `rest`. */
  function DisconnectedBut<B>(topics: Registry<B>, conn: ConnId, rest: set<Topic>): Registry<B> {
    map topic | topic in topics && (topic in rest || (topics[topic] - {conn}).Keys != {}) ::
      if topic in rest then topics[topic] else topics[topic] - {conn}
  }

  lemma DisconnectOneMore<B>(topics: Registry<B>, conn: ConnId, rest: set<Topic>, topic: Topic)
    requires topic in rest && topic in topics
    ensures topic in DisconnectedBut(topics, conn, rest) && DisconnectedBut(topics, conn, rest)[topic] == topics[topic]
    ensures DisconnectedBut(topics, conn, rest - {topic})
            == WithSubs(DisconnectedBut(topics, conn, rest), topic, topics[topic] - {conn})
  {
  }

  lemma DisconnectedFromAll<B>(topics: Registry<B>, conn: ConnId)
    ensures DisconnectedBut(topics, conn, {}) == AfterDisconnect(topics, conn)
    ensures NoEmptyTopic(AfterDisconnect(topics, conn))
  {
  }

  /** The mailboxes and the tallies are those of the fan-out. */
  ghost predicate Agrees(f: FanOut<Mailbox>, all: set<Mailbox>, delivered: nat, wedged: seq<ConnId>)
    reads all
  {
    delivered == f.delivered && Contents(all) == f.boxes && Members(wedged) == f.wedged
  }

  /** The delivery loop of `publish`: who was reached, and who is gone. */
  method DeliverAlong(subs: map<ConnId, Mailbox>, order: seq<ConnId>, msg: Message)
      returns (delivered: nat, wedged: seq<ConnId>)
    requires forall m | m in subs.Values :: m.Valid()
    requires forall i | 0 <= i < |order| :: order[i] in subs
    modifies subs.Values
    ensures CanReach(old(Contents(subs.Values)), subs, order)
    ensures Agrees(Fan(old(Contents(subs.Values)), subs, order, msg), subs.Values, delivered, wedged)
  {
    delivered, wedged := 0, [];
    ghost var before := Contents(subs.Values);
    assert CanReach(before, subs, order) by {
      assert forall i | 0 <= i < |order| :: subs[order[i]] in subs.Values;
    }
    ghost var f := Fan(before, subs, [], msg);
    for i := 0 to |order|
      invariant forall m | m in subs.Values :: m.Valid()
      invariant CanReach(before, subs, order[..i]) && f == Fan(before, subs, order[..i], msg)
      invariant Agrees(f, subs.Values, delivered, wedged)
    {
      FanNext(before, subs, order, i, msg);
      delivered, wedged := DeliverNext(subs.Values, subs[order[i]], order[i], msg, f, delivered, wedged);
      f := FanOne(f, subs[order[i]], order[i], msg);
    }
    assert order[..|order|] == order;
  }

  /** The snapshot and the deliveries of `publish`. */
  method DeliverToAll(subs: map<ConnId, Mailbox>, msg: Message)
      returns (delivered: nat, ghost order: seq<ConnId>, wedged: seq<ConnId>)
    requires forall m | m in subs.Values :: m.Valid()
    modifies subs.Values
    ensures Enumerates(order, subs.Keys) && CanReach(old(Contents(subs.Values)), subs, order)
    ensures Agrees(Fan(old(Contents(subs.Values)), subs, order, msg), subs.Values, delivered, wedged)
  {
    var targets := Snapshot(subs);
    assert forall i | 0 <= i < |targets| :: targets[i] in targets;
    order := targets;
    delivered, wedged := DeliverAlong(subs, targets, msg);
  }

  /** One turn of the delivery loop. */
  method DeliverNext(ghost all: set<Mailbox>, mailbox: Mailbox, conn: ConnId, msg: Message, ghost f: FanOut<Mailbox>,
                     soFar: nat, wedgedSoFar: seq<ConnId>)
      returns (delivered: nat, wedged: seq<ConnId>)
    requires mailbox in all && AllBounded(f.boxes) && Agrees(f, all, soFar, wedgedSoFar)
    requires forall m | m in all :: m.Valid()
    modifies mailbox
    ensures forall m | m in all :: m.Valid()
    ensures Agrees(FanOne(f, mailbox, conn, msg), all, delivered, wedged)
  {
    delivered, wedged := soFar, wedgedSoFar;
    assert f.boxes[mailbox] == mailbox.Value();
    var outcome := mailbox.Deliver(msg);
    assert Contents(all) == f.boxes[mailbox := mailbox.Value()];
    assert Members(wedged + [conn]) == Members(wedged) + {conn};
    match outcome
    case Delivered => delivered := delivered + 1;
    case Gone => wedged := wedged + [conn];
    case Dropped =>
  }

  lemma FanNext<B>(boxes: map<B, Box>, subs: map<ConnId, B>, order: seq<ConnId>, i: nat, msg: Message)
    requires CanReach(boxes, subs, order) && i < |order|
    ensures CanReach(boxes, subs, order[..i]) && CanReach(boxes, subs, order[..i + 1])
    ensures Fan(boxes, subs, order[..i + 1], msg)
            == FanOne(Fan(boxes, subs, order[..i], msg), subs[order[i]], order[i], msg)
  {
    assert order[..i + 1][..i] == order[..i];
  }

  lemma ReapNobody<B>(topics: Registry<B>, topic: Topic)
    requires NoEmptyTopic(topics)
    ensures Reap(topics, topic, {}) == topics
  {
    if topic in topics {
      assert topics[topic] - {} == topics[topic];
    }
  }

  lemma ReapOneMore<B>(topics: Registry<B>, topic: Topic, conns: set<ConnId>, conn: ConnId)
    requires NoEmptyTopic(topics)
    ensures AfterUnsubscribe(Reap(topics, topic, conns), topic, conn) == Reap(topics, topic, conns + {conn})
  {
    if topic in topics {
      assert topics[topic] - conns - {conn} == topics[topic] - (conns + {conn});
    }
  }

  // --- What the registry operations promise ------------------------------------

  /** Every operation keeps the registry free of empty topics. */
  lemma OperationsLeaveNoEmptyTopic<B>(topics: Registry<B>, topic: Topic, conn: ConnId, box: B, conns: set<ConnId>)
    requires NoEmptyTopic(topics)
    ensures NoEmptyTopic(AfterSubscribe(topics, topic, conn, box))
    ensures NoEmptyTopic(Reap(topics, topic, conns))
    ensures NoEmptyTopic(AfterDisconnect(topics, conn))
  {
    assert conn in SubsOf(topics, topic)[conn := box].Keys;
  }

  /** A subscribe gives the connection that mailbox on that topic, replacing any other, and changes no one else. */
  lemma SubscribeSetsExactly<B>(topics: Registry<B>, topic: Topic, conn: ConnId, box: B, other: Topic)
    ensures SubsOf(AfterSubscribe(topics, topic, conn, box), other)
            == if other == topic then SubsOf(topics, topic)[conn := box] else SubsOf(topics, other)
  {
  }

  /** A disconnect removes the connection from every topic and leaves everyone else where they were. */
  lemma DisconnectLeavesNothingBehind<B>(topics: Registry<B>, conn: ConnId, topic: Topic)
    ensures conn !in SubsOf(AfterDisconnect(topics, conn), topic)
    ensures SubsOf(AfterDisconnect(topics, conn), topic) == SubsOf(topics, topic) - {conn}
  {
    if topic in topics && topic !in AfterDisconnect(topics, conn) {
      assert (topics[topic] - {conn}).Keys == {};
    }
  }

  lemma ReapRemovesExactly<B>(topics: Registry<B>, topic: Topic, conns: set<ConnId>, other: Topic)
    ensures SubsOf(Reap(topics, topic, conns), other)
            == if other == topic then SubsOf(topics, topic) - conns else SubsOf(topics, other)
  {
    if topic in topics {
      assert (topics[topic] - conns).Keys == {} ==> topics[topic] - conns == map[];
    } else {
      var none: map<ConnId, B> := map[];
      assert none - conns == none;
    }
  }

  // --- Whole runs --------------------------------------------------------------

  datatype HubState<B> = HubState(topics: Registry<B>, boxes: map<B, Box>)

  datatype Event<B> =
    | Subscribe(topic: Topic, conn: ConnId, box: B)
    | Unsubscribe(topic: Topic, conn: ConnId)
    | Publish(topic: Topic, msg: Message, order: seq<ConnId>)
    | Leave(conn: ConnId)
    | Receive(box: B)
    | CloseMailbox(box: B)

  /** Every mailbox is within its bound, and every subscriber has one. */
  ghost predicate WellFormed<B>(s: HubState<B>) {
    && AllBounded(s.boxes)
    && forall topic, conn | topic in s.topics && conn in s.topics[topic] :: s.topics[topic][conn] in s.boxes
  }

  ghost predicate CanHappen<B>(s: HubState<B>, e: Event<B>) {
    match e
    case Subscribe(_, _, box) => box in s.boxes
    case Publish(topic, _, order) => Enumerates(order, SubsOf(s.topics, topic).Keys)
    case Receive(box) => box in s.boxes
    case CloseMailbox(box) => box in s.boxes
    case _ => true
  }

  lemma PublishCanReach<B>(s: HubState<B>, topic: Topic, order: seq<ConnId>)
    requires WellFormed(s) && Enumerates(order, SubsOf(s.topics, topic).Keys)
    ensures CanReach(s.boxes, SubsOf(s.topics, topic), order)
  {
    forall i | 0 <= i < |order|
      ensures order[i] in SubsOf(s.topics, topic)
    {
      assert order[i] in order;
    }
  }

  ghost function Apply<B>(s: HubState<B>, e: Event<B>): HubState<B>
    requires WellFormed(s) && CanHappen(s, e)
  {
    match e
    case Subscribe(topic, conn, box) => s.(topics := AfterSubscribe(s.topics, topic, conn, box))
    case Unsubscribe(topic, conn) => s.(topics := AfterUnsubscribe(s.topics, topic, conn))
    case Publish(topic, msg, order) =>
      PublishCanReach(s, topic, order);
      var f := Fan(s.boxes, SubsOf(s.topics, topic), order, msg);
      HubState(Reap(s.topics, topic, f.wedged), f.boxes)
    case Leave(conn) => s.(topics := AfterDisconnect(s.topics, conn))
    case Receive(box) => s.(boxes := s.boxes[box := AfterTryRecv(s.boxes[box]).0])
    case CloseMailbox(box) => s.(boxes := s.boxes[box := AfterClose(s.boxes[box])])
  }

  // --- One connection, alone ---------------------------------------------------

  /** A connection with its own mailbox and nobody else around: the topics it is in, and the box. */
  datatype Solo = Solo(joined: set<Topic>, box: Box)

  /** What the outside sees of it: the outcome of each delivery, and what it received. */
  datatype Sight = Outcome(outcome: DeliverOutcome) | Took(msg: Option<Message>)

  /** An event as it concerns the connection `c` with mailbox `b`. */
  datatype SoloEvent =
    | Join(topic: Topic)
    | Quit(topic: Topic)
    | QuitAll
    | Deliver(topic: Topic, msg: Message)
    | Take
    | Shut

  function SoloStep(v: Solo, e: SoloEvent): (Solo, seq<Sight>)
    requires Bounded(v.box)
  {
    match e
    case Join(topic) => (v.(joined := v.joined + {topic}), [])
    case Quit(topic) => (v.(joined := v.joined - {topic}), [])
    case QuitAll => (v.(joined := {}), [])
    case Deliver(topic, msg) =>
      var (box, outcome) := AfterDeliver(v.box, msg);
      (Solo(if outcome.Gone? then v.joined - {topic} else v.joined, box), [Outcome(outcome)])
    case Take =>
      var (box, got) := AfterTryRecv(v.box);
      (v.(box := box), [Took(got)])
    case Shut => (v.(box := AfterClose(v.box)), [])
  }

  /** The event as seen by the connection; `None` if it does not concern it. */
  ghost function Concern<B>(v: Solo, e: Event<B>, c: ConnId, b: B): Option<SoloEvent> {
    match e
    case Subscribe(topic, conn, _) => if conn == c then Some(Join(topic)) else None
    case Unsubscribe(topic, conn) => if conn == c then Some(Quit(topic)) else None
    case Publish(topic, msg, _) => if topic in v.joined then Some(Deliver(topic, msg)) else None
    case Leave(conn) => if conn == c then Some(QuitAll) else None
    case Receive(box) => if box == b then Some(Take) else None
    case CloseMailbox(box) => if box == b then Some(Shut) else None
  }

  function TopicsOf<B>(topics: Registry<B>, c: ConnId): set<Topic> {
    set topic | topic in topics && c in topics[topic]
  }

  /** The part of the hub that belongs to the connection. */
  ghost function View<B>(s: HubState<B>, c: ConnId, b: B): Solo
    requires b in s.boxes
  {
    Solo(TopicsOf(s.topics, c), s.boxes[b])
  }

  /** `b` is the mailbox of `c`, and of nobody else. */
  ghost predicate Owns<B>(s: HubState<B>, c: ConnId, b: B) {
    && b in s.boxes
    && forall topic, conn | topic in s.topics && conn in s.topics[topic] :: (s.topics[topic][conn] == b <==> conn == c)
  }

  ghost predicate KeepsOwner<B>(e: Event<B>, c: ConnId, b: B) {
    e.Subscribe? ==> (e.box == b <==> e.conn == c)
  }

  /** What the fan-out has done to the mailbox `b` of `c`, given whether `c` was listed. */
  ghost predicate Touched<B>(f: FanOut<B>, boxes: map<B, Box>, msg: Message, c: ConnId, b: B, listed: bool)
    requires b in boxes && Bounded(boxes[b])
  {
    && b in f.boxes
    && f.boxes[b] == (if listed then AfterDeliver(boxes[b], msg).0 else boxes[b])
    && (c in f.wedged <==> listed && AfterDeliver(boxes[b], msg).1.Gone?)
  }

  /** A fan-out touches the mailbox of a connection once if the connection is listed, else not at all. */
  lemma {:induction false} FanTouchesOnce<B>(boxes: map<B, Box>, subs: map<ConnId, B>, order: seq<ConnId>,
                                             msg: Message, c: ConnId, b: B)
    requires CanReach(boxes, subs, order) && b in boxes
    requires forall i, j | 0 <= i < j < |order| :: order[i] != order[j]
    requires forall conn | conn in subs :: subs[conn] == b <==> conn == c
    ensures Touched(Fan(boxes, subs, order, msg), boxes, msg, c, b, c in order)
    decreases |order|
  {
    if order != [] {
      var n := |order| - 1;
      FanTouchesOnce(boxes, subs, order[..n], msg, c, b);
      assert c in order <==> c in order[..n] || order[n] == c;
      TouchOne(Fan(boxes, subs, order[..n], msg), boxes, subs[order[n]], order[n], msg, c, b, c in order[..n]);
    }
  }

  lemma TouchOne<B>(f: FanOut<B>, boxes: map<B, Box>, box: B, conn: ConnId, msg: Message, c: ConnId, b: B, listed: bool)
    requires b in boxes && Bounded(boxes[b]) && Touched(f, boxes, msg, c, b, listed)
    requires box in f.boxes && Bounded(f.boxes[box]) && (box == b <==> conn == c) && !(listed && conn == c)
    ensures Touched(FanOne(f, box, conn, msg), boxes, msg, c, b, listed || conn == c)
  {
  }

  /** How many of the listed connections would be delivered to, each asked on its own. */
  ghost function Reached<B>(boxes: map<B, Box>, subs: map<ConnId, B>, order: seq<ConnId>, msg: Message): nat
    requires CanReach(boxes, subs, order)
  {
    if order == [] then 0 else
      var n := |order| - 1;
      Reached(boxes, subs, order[..n], msg) + (if AfterDeliver(boxes[subs[order[n]]], msg).1.Delivered? then 1 else 0)
  }

  /** With a mailbox each, the count a publish returns is the number of mailboxes that took the message. */
  lemma {:induction false} PublishCountsTheReached<B>(boxes: map<B, Box>, subs: map<ConnId, B>, order: seq<ConnId>,
                                                      msg: Message)
    requires CanReach(boxes, subs, order)
    requires forall i, j | 0 <= i < j < |order| :: order[i] != order[j]
    requires forall c, d | c in subs && d in subs && c != d :: subs[c] != subs[d]
    ensures Fan(boxes, subs, order, msg).delivered == Reached(boxes, subs, order, msg)
    decreases |order|
  {
    if order != [] {
      var n := |order| - 1;
      var c := order[n];
      PublishCountsTheReached(boxes, subs, order[..n], msg);
      FanTouchesOnce(boxes, subs, order[..n], msg, c, subs[c]);
    }
  }

  /** The connection's mailbox, asked on its own, takes the message. */
  ghost predicate WouldTake<B>(boxes: map<B, Box>, subs: map<ConnId, B>, c: ConnId, msg: Message) {
    && c in subs && subs[c] in boxes && Bounded(boxes[subs[c]])
    && AfterDeliver(boxes[subs[c]], msg).1.Delivered?
  }

  ghost function Takers<B>(boxes: map<B, Box>, subs: map<ConnId, B>, conns: set<ConnId>, msg: Message): set<ConnId> {
    set c | c in conns && WouldTake(boxes, subs, c, msg)
  }

  lemma TakersGrow<B>(boxes: map<B, Box>, subs: map<ConnId, B>, conns: set<ConnId>, c: ConnId, msg: Message)
    requires c !in conns
    ensures |Takers(boxes, subs, conns + {c}, msg)|
            == |Takers(boxes, subs, conns, msg)| + (if WouldTake(boxes, subs, c, msg) then 1 else 0)
  {
    var takers := Takers(boxes, subs, conns, msg);
    assert Takers(boxes, subs, conns + {c}, msg) == if WouldTake(boxes, subs, c, msg) then takers + {c} else takers;
  }

  lemma {:induction false} ReachedIsCount<B>(boxes: map<B, Box>, subs: map<ConnId, B>, order: seq<ConnId>, msg: Message)
    requires CanReach(boxes, subs, order)
    requires forall i, j | 0 <= i < j < |order| :: order[i] != order[j]
    ensures Reached(boxes, subs, order, msg) == |Takers(boxes, subs, Members(order), msg)|
    decreases |order|
  {
    if order != [] {
      var n := |order| - 1;
      ReachedIsCount(boxes, subs, order[..n], msg);
      assert Members(order) == Members(order[..n]) + {order[n]} && order[n] !in Members(order[..n]);
      TakersGrow(boxes, subs, Members(order[..n]), order[n], msg);
    }
  }

  /** A fan-out reaps only listed connections, and leaves alone the mailboxes of everybody else. */
  lemma {:induction false} FanLeavesAlone<B>(boxes: map<B, Box>, subs: map<ConnId, B>, order: seq<ConnId>, msg: Message)
    requires CanReach(boxes, subs, order)
    ensures Fan(boxes, subs, order, msg).wedged <= Members(order)
    ensures forall b | b in boxes && (forall c | c in order :: subs[c] != b) ::
              Fan(boxes, subs, order, msg).boxes[b] == boxes[b]
    decreases |order|
  {
    if order != [] {
      var n := |order| - 1;
      FanLeavesAlone(boxes, subs, order[..n], msg);
      assert Members(order) == Members(order[..n]) + {order[n]};
      assert forall c | c in order[..n] :: c in order;
      assert order[n] in order;
    }
  }

  /** Two listings of the same subscribers, who have a mailbox each. */
  ghost predicate TwoListings<B>(boxes: map<B, Box>, subs: map<ConnId, B>, o1: seq<ConnId>, o2: seq<ConnId>) {
    && CanReach(boxes, subs, o1) && CanReach(boxes, subs, o2)
    && Enumerates(o1, subs.Keys) && Enumerates(o2, subs.Keys)
    && forall c, d | c in subs && d in subs && c != d :: subs[c] != subs[d]
  }

  lemma SameCount<B>(boxes: map<B, Box>, subs: map<ConnId, B>, o1: seq<ConnId>, o2: seq<ConnId>, msg: Message)
    requires TwoListings(boxes, subs, o1, o2)
    ensures Fan(boxes, subs, o1, msg).delivered == Fan(boxes, subs, o2, msg).delivered
  {
    PublishCountsTheReached(boxes, subs, o1, msg);
    PublishCountsTheReached(boxes, subs, o2, msg);
    ReachedIsCount(boxes, subs, o1, msg);
    ReachedIsCount(boxes, subs, o2, msg);
    assert Members(o1) == Members(o2);
  }

  lemma SameForOne<B>(boxes: map<B, Box>, subs: map<ConnId, B>, o1: seq<ConnId>, o2: seq<ConnId>, msg: Message,
                      c: ConnId)
    requires TwoListings(boxes, subs, o1, o2) && c in subs && subs[c] in boxes
    ensures Fan(boxes, subs, o1, msg).boxes[subs[c]] == Fan(boxes, subs, o2, msg).boxes[subs[c]]
    ensures c in Fan(boxes, subs, o1, msg).wedged <==> c in Fan(boxes, subs, o2, msg).wedged
  {
    assert c in o1 && c in o2;
    FanTouchesOnce(boxes, subs, o1, msg, c, subs[c]);
    FanTouchesOnce(boxes, subs, o2, msg, c, subs[c]);
  }

  lemma SameBox<B>(boxes: map<B, Box>, subs: map<ConnId, B>, o1: seq<ConnId>, o2: seq<ConnId>, msg: Message, b: B)
    requires TwoListings(boxes, subs, o1, o2) && b in boxes
    ensures Fan(boxes, subs, o1, msg).boxes[b] == Fan(boxes, subs, o2, msg).boxes[b]
  {
    if c :| c in subs && subs[c] == b {
      SameForOne(boxes, subs, o1, o2, msg, c);
    } else {
      FanLeavesAlone(boxes, subs, o1, msg);
      FanLeavesAlone(boxes, subs, o2, msg);
    }
  }

  lemma SameReaped<B>(boxes: map<B, Box>, subs: map<ConnId, B>, o1: seq<ConnId>, o2: seq<ConnId>, msg: Message,
                      c: ConnId)
    requires TwoListings(boxes, subs, o1, o2)
    ensures c in Fan(boxes, subs, o1, msg).wedged <==> c in Fan(boxes, subs, o2, msg).wedged
  {
    if i :| 0 <= i < |o1| && o1[i] == c {
      SameForOne(boxes, subs, o1, o2, msg, c);
    } else {
      FanLeavesAlone(boxes, subs, o1, msg);
      FanLeavesAlone(boxes, subs, o2, msg);
      assert c !in Members(o1) && c !in Members(o2);
    }
  }

  lemma SameFan<B>(f1: FanOut<B>, f2: FanOut<B>)
    requires f1.delivered == f2.delivered && f1.boxes.Keys == f2.boxes.Keys
    requires forall b | b in f1.boxes :: f1.boxes[b] == f2.boxes[b]
    requires forall c: ConnId :: c in f1.wedged <==> c in f2.wedged
    ensures f1 == f2
  {
    assert f1.boxes == f2.boxes && f1.wedged == f2.wedged;
  }

  /** With a mailbox each, a publish does the same in whatever order it visits the subscribers. */
  lemma FanOrderIsIrrelevant<B>(boxes: map<B, Box>, subs: map<ConnId, B>, o1: seq<ConnId>, o2: seq<ConnId>,
                                msg: Message)
    requires TwoListings(boxes, subs, o1, o2)
    ensures Fan(boxes, subs, o1, msg) == Fan(boxes, subs, o2, msg)
  {
    SameCount(boxes, subs, o1, o2, msg);
    forall c: ConnId
      ensures c in Fan(boxes, subs, o1, msg).wedged <==> c in Fan(boxes, subs, o2, msg).wedged
    {
      SameReaped(boxes, subs, o1, o2, msg, c);
    }
    forall b | b in boxes
      ensures Fan(boxes, subs, o1, msg).boxes[b] == Fan(boxes, subs, o2, msg).boxes[b]
    {
      SameBox(boxes, subs, o1, o2, msg, b);
    }
    SameFan(Fan(boxes, subs, o1, msg), Fan(boxes, subs, o2, msg));
  }

  lemma FanIsWellFormed<B>(s: HubState<B>, topic: Topic, msg: Message, order: seq<ConnId>)
    requires WellFormed(s) && CanHappen(s, Publish(topic, msg, order))
    ensures WellFormed(Apply(s, Publish(topic, msg, order)))
  {
    var s' := Apply(s, Publish(topic, msg, order));
    forall t, conn | t in s'.topics && conn in s'.topics[t]
      ensures t in s.topics && conn in s.topics[t] && s'.topics[t][conn] == s.topics[t][conn]
      ensures s'.topics[t][conn] in s'.boxes
    {
    }
  }

  lemma StepIsWellFormed<B>(s: HubState<B>, e: Event<B>)
    requires WellFormed(s) && CanHappen(s, e)
    ensures WellFormed(Apply(s, e)) && Apply(s, e).boxes.Keys == s.boxes.Keys
  {
    match e
    case Publish(topic, msg, order) => FanIsWellFormed(s, topic, msg, order);
    case _ =>
  }

  lemma StepKeepsOwner<B>(s: HubState<B>, e: Event<B>, c: ConnId, b: B)
    requires WellFormed(s) && CanHappen(s, e) && Owns(s, c, b) && KeepsOwner(e, c, b)
    ensures Owns(Apply(s, e), c, b)
  {
    StepIsWellFormed(s, e);
  }

  lemma PublishIsSolo<B>(s: HubState<B>, topic: Topic, msg: Message, order: seq<ConnId>, c: ConnId, b: B)
    requires WellFormed(s) && Owns(s, c, b) && Enumerates(order, SubsOf(s.topics, topic).Keys)
    ensures var s' := Apply(s, Publish(topic, msg, order));
            View(s', c, b) ==
              if c in SubsOf(s.topics, topic) then SoloStep(View(s, c, b), Deliver(topic, msg)).0 else View(s, c, b)
  {
    var subs := SubsOf(s.topics, topic);
    PublishCanReach(s, topic, order);
    FanTouchesOnce(s.boxes, subs, order, msg, c, b);
    var f := Fan(s.boxes, subs, order, msg);
    var s' := Apply(s, Publish(topic, msg, order));
    forall t: Topic
      ensures t in TopicsOf(s'.topics, c) <==> t in TopicsOf(s.topics, c) && !(t == topic && c in f.wedged)
    {
      ReapRemovesExactly(s.topics, topic, f.wedged, t);
      assert t in TopicsOf(s'.topics, c) <==> c in SubsOf(s'.topics, t);
      assert t in TopicsOf(s.topics, c) <==> c in SubsOf(s.topics, t);
    }
    assert TopicsOf(s'.topics, c) == if c in f.wedged then TopicsOf(s.topics, c) - {topic} else TopicsOf(s.topics, c);
  }

  /** What an event does to the view of a connection is what its solo reading does. */
  ghost function SoloAfter(v: Solo, e: Option<SoloEvent>): Solo
    requires Bounded(v.box)
  {
    match e
    case None => v
    case Some(se) => SoloStep(v, se).0
  }

  lemma StepIsSolo<B>(s: HubState<B>, e: Event<B>, c: ConnId, b: B)
    requires WellFormed(s) && CanHappen(s, e) && Owns(s, c, b) && KeepsOwner(e, c, b)
    ensures b in Apply(s, e).boxes && Bounded(View(s, c, b).box)
    ensures View(Apply(s, e), c, b) == SoloAfter(View(s, c, b), Concern(View(s, c, b), e, c, b))
  {
    var s' := Apply(s, e);
    match e
    case Publish(topic, msg, order) => PublishIsSolo(s, topic, msg, order, c, b);
    case Subscribe(topic, conn, box) =>
      assert TopicsOf(s'.topics, c) == if conn == c then TopicsOf(s.topics, c) + {topic} else TopicsOf(s.topics, c);
    case Unsubscribe(topic, conn) =>
      forall t: Topic
        ensures t in TopicsOf(s'.topics, c) <==> t in TopicsOf(s.topics, c) && !(t == topic && conn == c)
      {
        ReapRemovesExactly(s.topics, topic, {conn}, t);
        assert t in TopicsOf(s'.topics, c) <==> c in SubsOf(s'.topics, t);
        assert t in TopicsOf(s.topics, c) <==> c in SubsOf(s.topics, t);
      }
      assert TopicsOf(s'.topics, c) == if conn == c then TopicsOf(s.topics, c) - {topic} else TopicsOf(s.topics, c);
    case Leave(conn) =>
      forall t: Topic
        ensures t in TopicsOf(s'.topics, c) <==> t in TopicsOf(s.topics, c) && conn != c
      {
        DisconnectLeavesNothingBehind(s.topics, conn, t);
        assert t in TopicsOf(s'.topics, c) <==> c in SubsOf(s'.topics, t);
        assert t in TopicsOf(s.topics, c) <==> c in SubsOf(s.topics, t);
      }
      assert TopicsOf(s'.topics, c) == if conn == c then {} else TopicsOf(s.topics, c);
    case Receive(box) =>
    case CloseMailbox(box) =>
  }

  // --- What the connection sees ------------------------------------------------

  /** The position of a connection in the snapshot. */
  function PositionOf(order: seq<ConnId>, c: ConnId): (i: nat)
    requires c in order
    ensures i < |order| && order[i] == c
  {
    if order[0] == c then 0 else 1 + PositionOf(order[1..], c)
  }

  /** What the connection sees of an event in the hub: the outcome when its turn comes, or what it takes. */
  ghost function Seen<B>(s: HubState<B>, e: Event<B>, c: ConnId, b: B): seq<Sight>
    requires WellFormed(s) && CanHappen(s, e) && b in s.boxes
  {
    match e
    case Publish(topic, msg, order) =>
      var subs := SubsOf(s.topics, topic);
      PublishCanReach(s, topic, order);
      if c in order then
        var before := Fan(s.boxes, subs, order[..PositionOf(order, c)], msg).boxes;
        [Outcome(AfterDeliver(before[subs[c]], msg).1)]
      else []
    case Receive(box) => if box == b then [Took(AfterTryRecv(s.boxes[b]).1)] else []
    case _ => []
  }

  ghost function SoloSeen(v: Solo, e: Option<SoloEvent>): seq<Sight>
    requires Bounded(v.box)
  {
    match e
    case None => []
    case Some(se) => SoloStep(v, se).1
  }

  lemma SeenIsSolo<B>(s: HubState<B>, e: Event<B>, c: ConnId, b: B)
    requires WellFormed(s) && CanHappen(s, e) && Owns(s, c, b)
    ensures Bounded(View(s, c, b).box)
    ensures Seen(s, e, c, b) == SoloSeen(View(s, c, b), Concern(View(s, c, b), e, c, b))
  {
    if e.Publish? {
      var subs := SubsOf(s.topics, e.topic);
      PublishCanReach(s, e.topic, e.order);
      assert c in e.order <==> e.topic in TopicsOf(s.topics, c);
      if c in e.order {
        var i := PositionOf(e.order, c);
        FanTouchesOnce(s.boxes, subs, e.order[..i], e.msg, c, b);
      }
    }
  }

  // --- Isolation over whole runs -----------------------------------------------

  /** Every event of the run can happen when it comes. */
  ghost predicate Happens<B>(s: HubState<B>, es: seq<Event<B>>)
    requires WellFormed(s)
    decreases |es|
  {
    es == [] || (CanHappen(s, es[0]) && (StepIsWellFormed(s, es[0]); Happens(Apply(s, es[0]), es[1..])))
  }

  /** In the run, `c` is only ever subscribed with the mailbox `b`, and nobody else is. */
  ghost predicate KeepOwner<B>(es: seq<Event<B>>, c: ConnId, b: B) {
    forall i | 0 <= i < |es| :: KeepsOwner(es[i], c, b)
  }

  /** Where the run ends, and what the connection saw. */
  ghost function HubRun<B>(s: HubState<B>, es: seq<Event<B>>, c: ConnId, b: B): (HubState<B>, seq<Sight>)
    requires WellFormed(s) && Happens(s, es) && b in s.boxes
    decreases |es|
  {
    if es == [] then (s, []) else
      StepIsWellFormed(s, es[0]);
      var (last, sights) := HubRun(Apply(s, es[0]), es[1..], c, b);
      (last, Seen(s, es[0], c, b) + sights)
  }

  /** The events that concern the connection, in order, as it reads them. */
  ghost function Concerns<B>(v: Solo, es: seq<Event<B>>, c: ConnId, b: B): seq<SoloEvent>
    requires Bounded(v.box)
    decreases |es|
  {
    if es == [] then [] else
      var e := Concern(v, es[0], c, b);
      SoloStaysBounded(v, e);
      (if e.None? then [] else [e.value]) + Concerns(SoloAfter(v, e), es[1..], c, b)
  }

  lemma SoloStaysBounded(v: Solo, e: Option<SoloEvent>)
    requires Bounded(v.box)
    ensures Bounded(SoloAfter(v, e).box)
  {
  }

  function SoloRun(v: Solo, es: seq<SoloEvent>): (Solo, seq<Sight>)
    requires Bounded(v.box)
    decreases |es|
  {
    if es == [] then (v, []) else
      var (v', seen) := SoloStep(v, es[0]);
      SoloStaysBounded(v, Some(es[0]));
      var (last, sights) := SoloRun(v', es[1..]);
      (last, seen + sights)
  }

  /** A hub in order, a connection with a mailbox of its own, and events that leave it so. */
  ghost predicate OwnRun<B>(s: HubState<B>, es: seq<Event<B>>, c: ConnId, b: B) {
    WellFormed(s) && Owns(s, c, b) && Happens(s, es) && KeepOwner(es, c, b)
  }

  /** In any run of the hub a connection with its own mailbox fares exactly as it would alone. */
  lemma {:induction false} ConnectionStandsAlone<B>(s: HubState<B>, es: seq<Event<B>>, c: ConnId, b: B)
    requires OwnRun(s, es, c, b)
    ensures Bounded(View(s, c, b).box)
    ensures var alone := SoloRun(View(s, c, b), Concerns(View(s, c, b), es, c, b));
            && b in HubRun(s, es, c, b).0.boxes
            && View(HubRun(s, es, c, b).0, c, b) == alone.0
            && HubRun(s, es, c, b).1 == alone.1
    decreases |es|
  {
    if es != [] {
      var v := View(s, c, b);
      var e := Concern(v, es[0], c, b);
      StepIsWellFormed(s, es[0]);
      StepKeepsOwner(s, es[0], c, b);
      StepIsSolo(s, es[0], c, b);
      SeenIsSolo(s, es[0], c, b);
      ConnectionStandsAlone(Apply(s, es[0]), es[1..], c, b);
      var rest := Concerns(SoloAfter(v, e), es[1..], c, b);
      if e.Some? {
        assert Concerns(v, es, c, b)[1..] == rest;
      } else {
        assert Concerns(v, es, c, b) == rest;
      }
    }
  }

  /**
   * Slow clients do not disturb others: two runs, of any two hubs, that look the same to a
   * connection to begin with and agree on what concerns it, give it the same outcomes and messages,
   * whatever the other connections' mailboxes, reads, closures or reaping.
   */
  lemma RunsAgreeForOneConnection<B>(s1: HubState<B>, es1: seq<Event<B>>, s2: HubState<B>, es2: seq<Event<B>>,
                                     c: ConnId, b1: B, b2: B)
    requires OwnRun(s1, es1, c, b1) && OwnRun(s2, es2, c, b2)
    requires View(s1, c, b1) == View(s2, c, b2)
    requires Concerns(View(s1, c, b1), es1, c, b1) == Concerns(View(s2, c, b2), es2, c, b2)
    ensures HubRun(s1, es1, c, b1).1 == HubRun(s2, es2, c, b2).1
    ensures b1 in HubRun(s1, es1, c, b1).0.boxes && b2 in HubRun(s2, es2, c, b2).0.boxes
    ensures View(HubRun(s1, es1, c, b1).0, c, b1) == View(HubRun(s2, es2, c, b2).0, c, b2)
  {
    ConnectionStandsAlone(s1, es1, c, b1);
    ConnectionStandsAlone(s2, es2, c, b2);
  }
}
