/**
 * One connection's bounded outbound mailbox: a queue with three overflow policies and the
 * wake-up protocol between `deliver`, `close` and the one task that receives.
 */
module Mailboxes {
  import opened Arith
  import opened Options
  import opened Runs

  /** A server message; only its identity matters here. */
  datatype Message = Message(text: string)

  datatype OverflowPolicy = DropNewest | DropOldest | Disconnect

  datatype DeliverOutcome = Delivered | Dropped | Gone

  /** The mailbox's fields; `arrival` is the event that wakes the receiver. */
  datatype Box = Box(capacity: nat, policy: OverflowPolicy, queue: seq<Message>, closed: bool, arrival: bool)

  ghost predicate Bounded(b: Box) {
    1 <= b.capacity && |b.queue| <= b.capacity
  }

  function Fresh(capacity: int, policy: OverflowPolicy): Box {
    Box(Max(1, capacity), policy, [], false, false)
  }

  // --- The operations ----------------------------------------------------------

  function AfterDeliver(b: Box, msg: Message): (Box, DeliverOutcome)
    requires Bounded(b)
  {
    if b.closed then (b, Gone)
    else if |b.queue| < b.capacity then (b.(queue := b.queue + [msg], arrival := true), Delivered)
    else match b.policy
      case DropNewest => (b, Dropped)
      case Disconnect => (b, Gone)
      case DropOldest => (b.(queue := b.queue[1..] + [msg], arrival := true), Delivered)
  }

  function AfterClose(b: Box): Box {
    b.(closed := true, arrival := true)
  }

  function AfterTryRecv(b: Box): (Box, Option<Message>) {
    if b.queue == [] then (b, None) else (b.(queue := b.queue[1..]), Some(b.queue[0]))
  }

  /** What `recv` comes to before it returns or suspends. */
  datatype Received = Got(msg: Message) | Ended | Suspended

  /** `recv` from its start, or from a wake-up, to its return or its next await. */
  function AfterRecv(b: Box): (Box, Received) {
    if b.queue != [] then (b.(queue := b.queue[1..]), Got(b.queue[0]))
    else if b.closed then (b, Ended)
    else (b.(arrival := false), Suspended)
  }

  class Mailbox {
    const capacity: nat
    const policy: OverflowPolicy
    var queue: seq<Message>
    var closed: bool
    var arrival: bool

    ghost function Value(): Box
      reads this
    {
      Box(capacity, policy, queue, closed, arrival)
    }

    ghost predicate Valid()
      reads this
    {
      Bounded(Value())
    }

    constructor (capacity: int, policy: OverflowPolicy)
      ensures Valid() && Value() == Fresh(capacity, policy)
    {
      this.capacity := Max(1, capacity);
      this.policy := policy;
      queue, closed, arrival := [], false, false;
    }

    method Deliver(msg: Message) returns (outcome: DeliverOutcome)
      requires Valid()
      modifies this
      ensures Valid() && (Value(), outcome) == AfterDeliver(old(Value()), msg)
    {
      if closed {
        return Gone;
      }
      if |queue| >= capacity {
        match policy
        case DropNewest => return Dropped;
        case Disconnect => return Gone;
        case DropOldest =>
          queue := queue[1..];
          queue := queue + [msg];
      } else {
        queue := queue + [msg];
      }
      arrival := true;
      outcome := Delivered;
    }

    method Close()
      requires Valid()
      modifies this
      ensures Valid() && Value() == AfterClose(old(Value()))
    {
      closed := true;
      arrival := true;
    }

    method TryRecv() returns (msg: Option<Message>)
      requires Valid()
      modifies this
      ensures Valid() && (Value(), msg) == AfterTryRecv(old(Value()))
    {
      if queue == [] {
        return None;
      }
      msg := Some(queue[0]);
      queue := queue[1..];
    }

    /** The body of `recv` up to its return or its await, re-check included. */
    method RecvUntilAwait() returns (r: Received)
      requires Valid()
      modifies this
      ensures Valid() && (Value(), r) == AfterRecv(old(Value()))
      ensures old(queue) != [] ==> r == Got(old(queue)[0]) && queue == old(queue)[1..]
      ensures old(queue) == [] && old(closed) ==> r == Ended
      ensures old(queue) == [] && !old(closed) ==> r == Suspended && !arrival
    {
      r := Suspended;
      var again := true;
      while again
        invariant again ==> Value() == old(Value())
        invariant !again ==> (Value(), r) == AfterRecv(old(Value()))
        decreases again
      {
        if queue != [] {
          r := Got(queue[0]);
          queue := queue[1..];
          return;
        }
        if closed {
          return Ended;
        }
        arrival := false;
        again := queue != [] || closed;
      }
    }
  }

  // --- Runs of one mailbox -----------------------------------------------------

  /**
   * A mailbox in use, with what has gone through it: everything offered, everything popped, what
   * the policy shed, what was refused, and what `recv` answered (`None` is the end of the stream).
   */
  datatype Use = Use(
    box: Box,
    waiting: bool,
    offered: seq<Message>,
    received: seq<Message>,
    shed: seq<Message>,
    refused: seq<Message>,
    answers: seq<Option<Message>>)

  /** `CancelRecv` cancels the task parked in `recv`: it leaves the event and the buffer alone. */
  datatype Action = Offer(msg: Message) | CloseBox | Poll | CallRecv | Wake | CancelRecv

  predicate Enabled(u: Use, a: Action) {
    match a
    case CallRecv => !u.waiting
    case Wake => u.waiting && u.box.arrival
    case CancelRecv => u.waiting
    case _ => true
  }

  function ApplyOffer(u: Use, msg: Message): Use
    requires Bounded(u.box)
  {
    var (b, outcome) := AfterDeliver(u.box, msg);
    var u' := u.(box := b, offered := u.offered + [msg]);
    match outcome
    case Gone => u'.(refused := u.refused + [msg])
    case Dropped => u'.(shed := u.shed + [msg])
    case Delivered => if |b.queue| > |u.box.queue| then u' else u'.(shed := u.shed + [u.box.queue[0]])
  }

  function ApplyRecv(u: Use): Use {
    var (b, got) := AfterRecv(u.box);
    match got
    case Got(msg) => u.(box := b, waiting := false, received := u.received + [msg], answers := u.answers + [Some(msg)])
    case Ended => u.(box := b, waiting := false, answers := u.answers + [None])
    case Suspended => u.(box := b, waiting := true)
  }

  function Apply(u: Use, a: Action): Use
    requires Bounded(u.box)
  {
    match a
    case Offer(msg) => ApplyOffer(u, msg)
    case CloseBox => u.(box := AfterClose(u.box))
    case Poll =>
      var (b, got) := AfterTryRecv(u.box);
      if got.Some? then u.(box := b, received := u.received + [got.value]) else u
    case CallRecv => ApplyRecv(u)
    case Wake => ApplyRecv(u)
    case CancelRecv => u.(waiting := false)
  }

  ghost predicate Next(u: Use, a: Action, u': Use) {
    Bounded(u.box) && Enabled(u, a) && u' == Apply(u, a)
  }

  ghost predicate Init(u: Use) {
    exists capacity, policy :: u == Use(Fresh(capacity, policy), false, [], [], [], [], [])
  }

  // --- The wake-up protocol ----------------------------------------------------

  /** A receiver parked on a clear event has nothing to receive and nothing to end. */
  ghost predicate NothingMissed(u: Use) {
    u.waiting && !u.box.arrival ==> u.box.queue == [] && !u.box.closed
  }

  lemma StepMissesNothing(u: Use, a: Action)
    requires Bounded(u.box) && NothingMissed(u) && Enabled(u, a)
    ensures Bounded(Apply(u, a).box) && NothingMissed(Apply(u, a))
  {
  }

  /** In every interleaving the buffer is bounded and no wake-up is lost. */
  lemma NoWakeUpIsLost(r: seq<Use>, acts: seq<Action>, k: nat)
    requires IsRun(Next, r, acts) && Init(r[0]) && k < |r|
    ensures Bounded(r[k].box) && NothingMissed(r[k])
  {
    if !(Bounded(r[k].box) && NothingMissed(r[k])) {
      var i := Crossing((u: Use) => !(Bounded(u.box) && NothingMissed(u)), r, 0, k);
      StepMissesNothing(r[i], acts[i]);
    }
  }

  // --- Conservation and order --------------------------------------------------

  /** Strictly increasing positions: no message twice, none out of order. */
  ghost predicate Increasing(at: seq<nat>) {
    forall i, j | 0 <= i < j < |at| :: at[i] < at[j]
  }

  /** `kept` are the positions, among the offered messages, of those popped or still buffered. */
  ghost predicate KeptAt(u: Use, kept: seq<nat>) {
    && Increasing(kept) && |kept| == |u.received| + |u.box.queue|
    && forall i | 0 <= i < |kept| :: kept[i] < |u.offered| && (u.received + u.box.queue)[i] == u.offered[kept[i]]
  }

  /** How often `m` occurs in `s`. */
  function Count(s: seq<Message>, m: Message): nat {
    if s == [] then 0 else Count(s[..|s| - 1], m) + (if s[|s| - 1] == m then 1 else 0)
  }

  /** Every message was offered as often as it was popped, is buffered, was shed or was refused. */
  ghost predicate AllAccounted(u: Use) {
    && (forall m: Message :: Tallies(u, m))
    && |u.offered| == |u.received| + |u.box.queue| + |u.shed| + |u.refused|
  }

  ghost predicate Accounted(u: Use) {
    Bounded(u.box) && AllAccounted(u) && exists kept :: KeptAt(u, kept)
  }

  lemma QueueingKeepsOrder(u: Use, u': Use, msg: Message, kept: seq<nat>)
    requires KeptAt(u, kept) && u'.box.queue == u.box.queue + [msg]
    requires u'.offered == u.offered + [msg] && u'.received == u.received
    ensures KeptAt(u', kept + [|u.offered|])
  {
  }

  lemma EvictingKeepsOrder(u: Use, u': Use, msg: Message, kept: seq<nat>)
    requires KeptAt(u, kept) && u.box.queue != [] && u'.box.queue == u.box.queue[1..] + [msg]
    requires u'.offered == u.offered + [msg] && u'.received == u.received
    ensures KeptAt(u', kept[..|u.received|] + kept[|u.received| + 1..] + [|u.offered|])
  {
  }

  lemma OfferKeepsOrder(u: Use, msg: Message, kept: seq<nat>) returns (kept': seq<nat>)
    requires Bounded(u.box) && KeptAt(u, kept)
    ensures KeptAt(ApplyOffer(u, msg), kept')
  {
    var u' := ApplyOffer(u, msg);
    if u'.box == u.box {
      kept' := kept;
    } else if |u.box.queue| < u.box.capacity {
      QueueingKeepsOrder(u, u', msg, kept);
      kept' := kept + [|u.offered|];
    } else {
      EvictingKeepsOrder(u, u', msg, kept);
      kept' := kept[..|u.received|] + kept[|u.received| + 1..] + [|u.offered|];
    }
  }

  lemma SnocCounts(s: seq<Message>, x: Message, m: Message)
    ensures Count(s + [x], m) == Count(s, m) + (if m == x then 1 else 0)
  {
    assert (s + [x])[..|s|] == s;
  }

  lemma {:induction false} PopCounts(s: seq<Message>, m: Message)
    requires s != []
    ensures Count(s, m) == Count(s[1..], m) + (if m == s[0] then 1 else 0)
    decreases |s|
  {
    if |s| > 1 {
      var front := s[..|s| - 1];
      PopCounts(front, m);
      assert front[1..] == s[1..][..|s| - 2];
    }
  }

  ghost predicate Tallies(u: Use, m: Message) {
    Count(u.offered, m) == Count(u.received, m) + Count(u.box.queue, m) + Count(u.shed, m) + Count(u.refused, m)
  }

  lemma RefusingTallies(u: Use, u': Use, msg: Message, m: Message)
    requires Tallies(u, m)
    requires u' == u.(offered := u.offered + [msg], refused := u.refused + [msg])
    ensures Tallies(u', m)
  {
    SnocCounts(u.offered, msg, m);
    SnocCounts(u.refused, msg, m);
  }

  lemma SheddingTallies(u: Use, u': Use, msg: Message, m: Message)
    requires Tallies(u, m)
    requires u' == u.(offered := u.offered + [msg], shed := u.shed + [msg])
    ensures Tallies(u', m)
  {
    SnocCounts(u.offered, msg, m);
    SnocCounts(u.shed, msg, m);
  }

  lemma QueueingTallies(u: Use, u': Use, msg: Message, m: Message)
    requires Tallies(u, m) && u'.box.queue == u.box.queue + [msg]
    requires u' == u.(box := u'.box, offered := u.offered + [msg])
    ensures Tallies(u', m)
  {
    SnocCounts(u.offered, msg, m);
    SnocCounts(u.box.queue, msg, m);
  }

  lemma EvictingTallies(u: Use, u': Use, msg: Message, m: Message)
    requires Tallies(u, m) && u.box.queue != [] && u'.box.queue == u.box.queue[1..] + [msg]
    requires u' == u.(box := u'.box, offered := u.offered + [msg], shed := u.shed + [u.box.queue[0]])
    ensures Tallies(u', m)
  {
    var q := u.box.queue;
    SnocCounts(u.offered, msg, m);
    PopCounts(q, m);
    SnocCounts(q[1..], msg, m);
    SnocCounts(u.shed, q[0], m);
  }

  lemma OfferTallies(u: Use, msg: Message, m: Message, u': Use)
    requires Bounded(u.box) && Tallies(u, m) && u' == ApplyOffer(u, msg)
    ensures Tallies(u', m)
  {
    match AfterDeliver(u.box, msg).1
    case Gone => RefusingTallies(u, u', msg, m);
    case Dropped => SheddingTallies(u, u', msg, m);
    case Delivered =>
      if |u.box.queue| < u.box.capacity {
        QueueingTallies(u, u', msg, m);
      } else {
        EvictingTallies(u, u', msg, m);
      }
  }

  lemma OfferIsAccounted(u: Use, msg: Message)
    requires Bounded(u.box) && AllAccounted(u)
    ensures AllAccounted(ApplyOffer(u, msg))
  {
    var u' := ApplyOffer(u, msg);
    forall m: Message
      ensures Tallies(u', m)
    {
      assert Tallies(u, m);
      OfferTallies(u, msg, m, u');
    }
  }

  /** Moving the head of the buffer to what was popped changes neither the order nor the tally. */
  lemma PopIsAccounted(u: Use, u': Use)
    requires Accounted(u) && u.box.queue != []
    requires u'.box == u.box.(queue := u.box.queue[1..]) && u'.received == u.received + [u.box.queue[0]]
    requires u'.offered == u.offered && u'.shed == u.shed && u'.refused == u.refused
    ensures Accounted(u')
  {
    var kept :| KeptAt(u, kept);
    assert u'.received + u'.box.queue == u.received + u.box.queue;
    assert KeptAt(u', kept);
    forall m: Message
      ensures Tallies(u', m)
    {
      assert Tallies(u, m);
      PopCounts(u.box.queue, m);
      SnocCounts(u.received, u.box.queue[0], m);
    }
  }

  ghost predicate SameContents(u: Use, u': Use) {
    && u'.box == u.box.(closed := u'.box.closed, arrival := u'.box.arrival) && u'.received == u.received
    && u'.offered == u.offered && u'.shed == u.shed && u'.refused == u.refused
  }

  lemma SameIsAccounted(u: Use, u': Use)
    requires Accounted(u) && SameContents(u, u')
    ensures Accounted(u')
  {
    var kept :| KeptAt(u, kept);
    assert KeptAt(u', kept);
    assert forall m: Message :: Tallies(u, m) ==> Tallies(u', m);
  }

  lemma StepIsAccounted(u: Use, a: Action)
    requires Accounted(u) && Enabled(u, a)
    ensures Accounted(Apply(u, a))
  {
    if a.Offer? {
      OfferIsAccounted(u, a.msg);
      var kept :| KeptAt(u, kept);
      var kept' := OfferKeepsOrder(u, a.msg, kept);
    } else if a.CloseBox? || a.CancelRecv? || u.box.queue == [] {
      SameIsAccounted(u, Apply(u, a));
    } else {
      PopIsAccounted(u, Apply(u, a));
    }
  }

  /**
   * Over every run the buffer never exceeds the capacity; what was popped followed by what is
   * buffered is an in-order, duplicate-free selection of what was offered; and every offered
   * message is exactly one of popped, buffered, shed or refused.
   */
  lemma NothingIsLostOrInvented(r: seq<Use>, acts: seq<Action>, k: nat)
    requires IsRun(Next, r, acts) && Init(r[0]) && k < |r|
    ensures Bounded(r[k].box)
    ensures exists kept :: KeptAt(r[k], kept)
    ensures AllAccounted(r[k])
  {
    assert Accounted(r[0]) by {
      assert KeptAt(r[0], []);
    }
    if !Accounted(r[k]) {
      var i := Crossing((u: Use) => !Accounted(u), r, 0, k);
      StepIsAccounted(r[i], acts[i]);
    }
  }

  // --- What may be lost --------------------------------------------------------

  /** Shedding and refusing follow the policy, and start only once more than a buffer was offered. */
  ghost predicate LossFits(u: Use) {
    && (u.box.policy.Disconnect? ==> u.shed == [])
    && (!u.box.closed && !u.box.policy.Disconnect? ==> u.refused == [])
    && (!u.box.closed && |u.offered| <= u.box.capacity ==> u.shed == [] && u.refused == [])
  }

  lemma StepLossFits(u: Use, a: Action)
    requires Accounted(u) && LossFits(u) && Enabled(u, a)
    ensures LossFits(Apply(u, a))
  {
  }

  /**
   * Over every run: under the disconnect policy nothing is shed; under the others nothing is refused
   * before the close; and an open mailbox loses nothing before more than `capacity` were offered.
   */
  lemma PolicyDecidesTheLoss(r: seq<Use>, acts: seq<Action>, k: nat)
    requires IsRun(Next, r, acts) && Init(r[0]) && k < |r|
    ensures LossFits(r[k])
  {
    if !LossFits(r[k]) {
      var i := Crossing((u: Use) => !LossFits(u), r, 0, k);
      NothingIsLostOrInvented(r, acts, i);
      StepLossFits(r[i], acts[i]);
    }
  }

  // --- Drain, then end ---------------------------------------------------------

  ghost predicate DrainedFrom(u: Use, v: Use) {
    && v.box.closed
    && u.received <= v.received
    && v.received + v.box.queue == u.received + u.box.queue
    && u.answers <= v.answers
  }

  lemma StepDrains(u: Use, v: Use, a: Action)
    requires Bounded(v.box) && DrainedFrom(u, v) && Enabled(v, a)
    ensures DrainedFrom(u, Apply(v, a))
  {
    var v' := Apply(v, a);
    var q := v.box.queue;
    if v'.box.queue != q {
      assert q == [q[0]] + q[1..];
      assert v'.received + v'.box.queue == v.received + q;
    }
  }

  /** After a close nothing is added or lost: the buffer is handed out in order. */
  lemma CloseThenDrain(r: seq<Use>, acts: seq<Action>, i: nat, j: nat)
    requires IsRun(Next, r, acts) && Init(r[0]) && i <= j < |r| && r[i].box.closed
    ensures DrainedFrom(r[i], r[j])
  {
    if !DrainedFrom(r[i], r[j]) {
      var u := r[i];
      var k := Crossing((v: Use) => !DrainedFrom(u, v), r, i, j);
      NoWakeUpIsLost(r, acts, k);
      StepDrains(u, r[k], acts[k]);
    }
  }

  /** The step makes `recv` answer `None`. */
  ghost predicate Ends(u: Use, a: Action) {
    Bounded(u.box) && Enabled(u, a) && Apply(u, a).answers == u.answers + [None]
  }

  lemma EndsWhenDrained(u: Use, a: Action)
    requires Ends(u, a)
    ensures (a.CallRecv? || a.Wake?) && u.box.closed && u.box.queue == []
  {
    var answers := Apply(u, a).answers;
    assert |answers| == |u.answers| + 1 && answers[|u.answers|] == None;
  }

  /** `recv` answers `None` only once everything buffered at the close has been handed out, in order. */
  lemma EndComesAfterTheLastMessage(r: seq<Use>, acts: seq<Action>, i: nat, k: nat)
    requires IsRun(Next, r, acts) && Init(r[0]) && i <= k < |acts|
    requires r[i].box.closed && Ends(r[k], acts[k])
    ensures r[k].received == r[i].received + r[i].box.queue && r[k].box.queue == []
    ensures r[k + 1].received == r[k].received && r[k + 1].answers == r[k].answers + [None]
  {
    CloseThenDrain(r, acts, i, k);
    assert Next(r[k], acts[k], r[k + 1]);
    EndsWhenDrained(r[k], acts[k]);
  }

  /** Closed, drained, and nobody parked. */
  ghost predicate Over(u: Use) {
    u.box.closed && u.box.queue == [] && !u.waiting
  }

  lemma StepStaysOver(u: Use, a: Action)
    requires Bounded(u.box) && Over(u) && Enabled(u, a)
    ensures Over(Apply(u, a))
  {
  }

  /** Once `recv` has answered `None` it answers nothing but `None`, and nothing more is handed out. */
  lemma OnlyEndsFollow(r: seq<Use>, acts: seq<Action>, k: nat, j: nat)
    requires IsRun(Next, r, acts) && Init(r[0]) && k < j < |acts| && Ends(r[k], acts[k])
    ensures r[j].received == r[k].received && r[j].box.queue == [] && !r[j].waiting
    ensures acts[j].CallRecv? ==> Ends(r[j], acts[j])
    ensures !acts[j].Wake?
  {
    EndNeedsAClose(r, acts, k);
    EndComesAfterTheLastMessage(r, acts, k, k);
    CloseThenDrain(r, acts, k, j);
    assert Next(r[k], acts[k], r[k + 1]) && Next(r[j], acts[j], r[j + 1]);
    if !Over(r[j]) {
      var i := Crossing((u: Use) => !Over(u), r, k + 1, j);
      NoWakeUpIsLost(r, acts, i);
      StepStaysOver(r[i], acts[i]);
    }
  }

  /** An open mailbox never ends the stream, and a closed one never leaves the receiver asleep. */
  lemma EndNeedsAClose(r: seq<Use>, acts: seq<Action>, k: nat)
    requires IsRun(Next, r, acts) && Init(r[0]) && k < |r|
    ensures (exists a :: Ends(r[k], a)) ==> r[k].box.closed
    ensures r[k].box.closed && r[k].waiting ==> Enabled(r[k], Wake)
  {
    NoWakeUpIsLost(r, acts, k);
    if a :| Ends(r[k], a) {
      EndsWhenDrained(r[k], a);
    }
  }

  // --- What a receive answers --------------------------------------------------

  /** A receive on a non-empty buffer takes the oldest message, answers it, and does not wait. */
  lemma ReceivesTakeTheOldest(r: seq<Use>, acts: seq<Action>, k: nat)
    requires IsRun(Next, r, acts) && k < |acts| && r[k].box.queue != []
    requires acts[k].CallRecv? || acts[k].Wake?
    ensures r[k + 1].received == r[k].received + [r[k].box.queue[0]]
    ensures r[k + 1].answers == r[k].answers + [Some(r[k].box.queue[0])]
    ensures r[k + 1].box.queue == r[k].box.queue[1..] && !r[k + 1].waiting
    ensures r[k + 1].box.closed == r[k].box.closed
  {
    assert Next(r[k], acts[k], r[k + 1]);
  }

  /** On an empty buffer it ends if the mailbox is closed, and else parks on a clear event. */
  lemma EmptyReceivesEndOrPark(r: seq<Use>, acts: seq<Action>, k: nat)
    requires IsRun(Next, r, acts) && k < |acts| && r[k].box.queue == []
    requires acts[k].CallRecv? || acts[k].Wake?
    ensures r[k + 1].received == r[k].received && r[k + 1].box.queue == []
    ensures r[k].box.closed ==> r[k + 1].answers == r[k].answers + [None] && !r[k + 1].waiting
    ensures !r[k].box.closed ==>
              r[k + 1].answers == r[k].answers && r[k + 1].waiting && !Enabled(r[k + 1], Wake)
  {
    assert Next(r[k], acts[k], r[k + 1]);
  }

  /** A poll takes the oldest message if there is one, and never disturbs the receiver. */
  lemma PollsTakeTheOldest(r: seq<Use>, acts: seq<Action>, k: nat)
    requires IsRun(Next, r, acts) && k < |acts| && acts[k].Poll?
    ensures r[k].box.queue == [] ==> r[k + 1] == r[k]
    ensures r[k].box.queue != [] ==>
              && r[k + 1].received == r[k].received + [r[k].box.queue[0]]
              && r[k + 1].box.queue == r[k].box.queue[1..]
    ensures r[k + 1].answers == r[k].answers && r[k + 1].waiting == r[k].waiting
  {
    assert Next(r[k], acts[k], r[k + 1]);
  }

  /** A close closes, keeps the buffer, and lets a parked receiver wake. */
  lemma ClosesClose(r: seq<Use>, acts: seq<Action>, k: nat)
    requires IsRun(Next, r, acts) && k < |acts| && acts[k].CloseBox?
    ensures r[k + 1].box.closed && r[k + 1].box.queue == r[k].box.queue
    ensures r[k + 1].waiting == r[k].waiting && (r[k].waiting ==> Enabled(r[k + 1], Wake))
    ensures r[k + 1].received == r[k].received && r[k + 1].answers == r[k].answers
  {
    assert Next(r[k], acts[k], r[k + 1]);
  }

  /** How many of the actions take from the buffer. */
  function Receives(acts: seq<Action>): nat {
    if acts == [] then 0 else
      var a := acts[|acts| - 1];
      Receives(acts[..|acts| - 1]) + (if a.CallRecv? || a.Wake? || a.Poll? then 1 else 0)
  }

  /** A step of a closed mailbox: a receive takes one message while there is one, and nothing else takes any. */
  lemma ClosedStep(u: Use, a: Action)
    requires Bounded(u.box) && Enabled(u, a) && u.box.closed
    ensures Apply(u, a).box.closed
    ensures var takes := (a.CallRecv? || a.Wake? || a.Poll?) && u.box.queue != [];
            && Apply(u, a).box.queue == (if takes then u.box.queue[1..] else u.box.queue)
            && Apply(u, a).received == (if takes then u.received + [u.box.queue[0]] else u.received)
  {
  }

  lemma TakeOneMore(queue: seq<Message>, got: seq<Message>, m: nat)
    requires m < |queue|
    ensures queue[m..][1..] == queue[m + 1..] && got + queue[..m] + [queue[m..][0]] == got + queue[..m + 1]
  {
    assert queue[..m + 1] == queue[..m] + [queue[m]];
  }

  /** From `u` on, the first `n` buffered messages have been handed out. */
  ghost predicate HandedOut(u: Use, v: Use, n: nat) {
    && n <= |u.box.queue| && Bounded(v.box) && v.box.closed
    && v.box.queue == u.box.queue[n..] && v.received == u.received + u.box.queue[..n]
  }

  lemma HandOutNext(u: Use, v: Use, a: Action, m: nat)
    requires HandedOut(u, v, Min(m, |u.box.queue|)) && Enabled(v, a)
    ensures HandedOut(u, Apply(v, a), Min(m + (if a.CallRecv? || a.Wake? || a.Poll? then 1 else 0), |u.box.queue|))
  {
    ClosedStep(v, a);
    if m < |u.box.queue| {
      TakeOneMore(u.box.queue, u.received, m);
    }
  }

  lemma ReceivesSnoc(acts: seq<Action>, i: nat, j: nat)
    requires i < j <= |acts|
    ensures var a := acts[j - 1];
            Receives(acts[i..j]) == Receives(acts[i..j - 1]) + (if a.CallRecv? || a.Wake? || a.Poll? then 1 else 0)
  {
    assert acts[i..j][..j - 1 - i] == acts[i..j - 1];
  }

  /** After a close, every receive hands out the next buffered message, until there are none. */
  lemma {:induction false} ReceivesDrainTheBuffer(r: seq<Use>, acts: seq<Action>, i: nat, j: nat)
    requires IsRun(Next, r, acts) && Init(r[0]) && i <= j < |r| && r[i].box.closed
    ensures HandedOut(r[i], r[j], Min(Receives(acts[i..j]), |r[i].box.queue|))
    decreases j
  {
    if i < j {
      ReceivesDrainTheBuffer(r, acts, i, j - 1);
      assert Next(r[j - 1], acts[j - 1], r[j]);
      HandOutNext(r[i], r[j - 1], acts[j - 1], Receives(acts[i..j - 1]));
      ReceivesSnoc(acts, i, j);
    } else {
      NoWakeUpIsLost(r, acts, i);
      assert acts[i..i] == [];
    }
  }

  /** So n buffered messages take exactly n receives, and the next call of `recv` answers `None`. */
  lemma DrainTakesExactlyTheBuffer(r: seq<Use>, acts: seq<Action>, i: nat, j: nat)
    requires IsRun(Next, r, acts) && Init(r[0]) && i <= j < |acts| && r[i].box.closed
    requires acts[j].CallRecv? || acts[j].Wake?
    ensures var m := Receives(acts[i..j]);
            r[j + 1].answers == r[j].answers + [if m < |r[i].box.queue| then Some(r[i].box.queue[m]) else None]
  {
    ReceivesDrainTheBuffer(r, acts, i, j);
    if r[j].box.queue == [] {
      EmptyReceivesEndOrPark(r, acts, j);
    } else {
      ReceivesTakeTheOldest(r, acts, j);
    }
  }

  // --- What a delivery answers -------------------------------------------------

  /**
   * A closed mailbox answers `Gone` under every policy and keeps its buffer; an open one with room
   * queues the message at the end; a full one drops it, evicts the oldest for it, or answers `Gone`.
   */
  lemma DeliveriesAnswer(b: Box, msg: Message)
    requires Bounded(b)
    ensures var (b', o) := AfterDeliver(b, msg);
            && (o == Gone <==> b.closed || (|b.queue| == b.capacity && b.policy == Disconnect))
            && (o == Dropped <==> !b.closed && |b.queue| == b.capacity && b.policy == DropNewest)
            && (o == Delivered ==> b'.arrival && b'.queue != [] && b'.queue[|b'.queue| - 1] == msg)
            && (o == Delivered && |b.queue| < b.capacity ==> b'.queue == b.queue + [msg])
            && (o == Delivered && |b.queue| == b.capacity ==> b'.queue == b.queue[1..] + [msg])
            && (o != Delivered ==> b' == b)
            && b'.closed == b.closed && b'.capacity == b.capacity && b'.policy == b.policy
  {
  }

  /** Over runs: after a close every message offered is refused and the buffer is left alone. */
  lemma ClosedMailboxesRefuse(r: seq<Use>, acts: seq<Action>, i: nat, k: nat, msg: Message)
    requires IsRun(Next, r, acts) && Init(r[0]) && i <= k < |acts| && r[i].box.closed && acts[k] == Offer(msg)
    ensures r[k + 1] == r[k].(offered := r[k].offered + [msg], refused := r[k].refused + [msg])
  {
    CloseThenDrain(r, acts, i, k);
    assert Next(r[k], acts[k], r[k + 1]);
  }

  // --- Without reads -----------------------------------------------------------

  function DeliverAll(b: Box, msgs: seq<Message>): (b': Box)
    requires Bounded(b)
    ensures Bounded(b')
    decreases |msgs|
  {
    if msgs == [] then b else AfterDeliver(DeliverAll(b, msgs[..|msgs| - 1]), msgs[|msgs| - 1]).0
  }

  /** What a full mailbox keeps when nobody reads: the newest under drop-oldest, else the oldest. */
  function Survivors(policy: OverflowPolicy, capacity: nat, msgs: seq<Message>): seq<Message> {
    var n := Min(capacity, |msgs|);
    if policy.DropOldest? then msgs[|msgs| - n..] else msgs[..n]
  }

  /** One more message, offered to a full mailbox: the newest are kept, or the oldest. */
  lemma SurvivorsOfFull(policy: OverflowPolicy, capacity: nat, msgs: seq<Message>, last: Message)
    requires 1 <= capacity <= |msgs|
    ensures |Survivors(policy, capacity, msgs)| == capacity
    ensures Survivors(policy, capacity, msgs + [last]) ==
              if policy.DropOldest? then Survivors(policy, capacity, msgs)[1..] + [last]
              else Survivors(policy, capacity, msgs)
  {
  }

  /** One more message, offered to a mailbox with room: everything is kept. */
  lemma SurvivorsOfRoom(policy: OverflowPolicy, capacity: nat, msgs: seq<Message>, last: Message)
    requires |msgs| < capacity
    ensures Survivors(policy, capacity, msgs) == msgs
    ensures Survivors(policy, capacity, msgs + [last]) == msgs + [last]
  {
  }

  /** Without reads the buffer is the last `capacity` messages under drop-oldest and the first otherwise. */
  lemma {:induction false} UnreadBufferIs(capacity: int, policy: OverflowPolicy, msgs: seq<Message>)
    ensures var b := DeliverAll(Fresh(capacity, policy), msgs);
            b.queue == Survivors(policy, Max(1, capacity), msgs) && !b.closed && Bounded(b)
            && b.policy == policy && b.capacity == Max(1, capacity)
    decreases |msgs|
  {
    if msgs != [] {
      var front, last := msgs[..|msgs| - 1], msgs[|msgs| - 1];
      UnreadBufferIs(capacity, policy, front);
      assert msgs == front + [last];
      if |front| < Max(1, capacity) {
        SurvivorsOfRoom(policy, Max(1, capacity), front, last);
      } else {
        SurvivorsOfFull(policy, Max(1, capacity), front, last);
      }
    }
  }
}
