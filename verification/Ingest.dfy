/**
 * Click ingestion: handlers put clicks on a bounded queue, one background task drains it in
 * batches, and a shutdown posts a stop sentinel and waits for the task within a budget.
 *
 * The background task is suspended either in `queue.get()` or in the execution of a statement; one
 * step below is one stretch of its code between two such awaits.
 */
module Ingest {
  import opened Arith
  import opened Options
  import opened Runs

  datatype ClickEvent = ClickEvent(
    linkId: int,
    referer: Option<string>,
    userAgent: Option<string>,
    ipHash: Option<string>)

  /** A queue entry: a click, or the `None` that asks the consumer to finish. */
  datatype Item = Click(event: ClickEvent) | Stop

  // --- The statement of one batch ----------------------------------------------

  datatype Argument = Number(n: int) | Text(t: Option<string>)

  /** The columns of the insert, in order. */
  function Field(e: ClickEvent, column: nat): Argument
    requires column < 4
  {
    match column
    case 0 => Number(e.linkId)
    case 1 => Text(e.referer)
    case 2 => Text(e.userAgent)
    case _ => Text(e.ipHash)
  }

  /** The placeholder numbers row by row, and the arguments they refer to. */
  datatype Statement = Statement(rows: seq<seq<nat>>, args: seq<Argument>)

  /**
   * The statement inserts exactly the batch: the placeholders number the arguments 1, 2, 3, ... in
   * reading order, and row r, column c refers to field c of event r.
   */
  ghost predicate Inserts(st: Statement, batch: seq<ClickEvent>) {
    && |st.rows| == |batch| && |st.args| == 4 * |batch|
    && (forall r :: 0 <= r < |batch| ==> |st.rows[r]| == 4)
    && forall r, c :: 0 <= r < |batch| && 0 <= c < 4 ==>
         st.rows[r][c] == 4 * r + c + 1 && st.args[st.rows[r][c] - 1] == Field(batch[r], c)
  }

  method BuildStatement(batch: seq<ClickEvent>) returns (st: Statement)
    ensures Inserts(st, batch)
  {
    var rows: seq<seq<nat>> := [];
    for i := 0 to |batch|
      invariant |rows| == i
      invariant forall r :: 0 <= r < i ==> rows[r] == [4 * r + 1, 4 * r + 2, 4 * r + 3, 4 * r + 4]
    {
      rows := rows + [[i * 4 + 1, i * 4 + 2, i * 4 + 3, i * 4 + 4]];
    }
    var args: seq<Argument> := [];
    for i := 0 to |batch|
      invariant |args| == 4 * i
      invariant forall r, c :: 0 <= r < i && 0 <= c < 4 ==> args[4 * r + c] == Field(batch[r], c)
    {
      var e := batch[i];
      args := args + [Number(e.linkId), Text(e.referer), Text(e.userAgent), Text(e.ipHash)];
    }
    st := Statement(rows, args);
  }

  /** Two statements for the same batch are the same statement. */
  lemma StatementIsDetermined(a: Statement, b: Statement, batch: seq<ClickEvent>)
    requires Inserts(a, batch) && Inserts(b, batch)
    ensures a == b
  {
    forall r | 0 <= r < |batch|
      ensures a.rows[r] == b.rows[r]
    {
      assert forall c | 0 <= c < 4 :: a.rows[r][c] == b.rows[r][c];
    }
    forall k | 0 <= k < |a.args|
      ensures a.args[k] == b.args[k]
    {
      assert a.rows[k / 4][k % 4] == 4 * (k / 4) + k % 4 + 1;
      assert b.rows[k / 4][k % 4] == k + 1;
    }
  }

  // --- The system --------------------------------------------------------------

  /** A batch that has been through `flush`: the statement was acknowledged, or the events count as lost. */
  datatype Flushed = Flushed(events: seq<ClickEvent>, written: bool)

  datatype Why = Tick | Full | Final

  /** Where the background task is suspended, or how it ended. */
  datatype Consumer = Getting | Flushing(why: Why) | Returned | Died | Cancelled

  datatype ShutdownOutcome = FLUSHED | FAILED | TIMED_OUT | PROPAGATED

  datatype Drain = NotStarted | Stopping | Posted | Ended(outcome: ShutdownOutcome)

  datatype State = State(
    capacity: int,
    maxBatch: int,
    queue: seq<Item>,
    closed: bool,
    gauge: int,
    batch: seq<ClickEvent>,
    consumer: Consumer,
    drain: Drain,
    accepted: seq<ClickEvent>,
    shed: seq<ClickEvent>,
    flushed: seq<Flushed>)

  /** How the execution of a statement ends for the task that awaits it. */
  datatype Result = Acknowledged | DatabaseError | OtherError | Cancellation

  datatype Action =
    | Accept(event: ClickEvent)
    | Timeout
    | Take
    | Executed(result: Result)
    | CancelGet
    | StartDrain
    | PostStop
    | Join
    | BudgetSpent

  /** `asyncio.Queue.full()`: a queue without a positive capacity is unbounded. */
  predicate IsFull(capacity: int, queue: seq<Item>) {
    capacity > 0 && |queue| >= capacity
  }

  predicate Enabled(s: State, a: Action) {
    match a
    case Accept(_) => true
    case Timeout => s.consumer.Getting?
    case Take => s.consumer.Getting? && s.queue != []
    case Executed(_) => s.consumer.Flushing?
    case CancelGet => s.consumer.Getting?
    case StartDrain => s.drain.NotStarted?
    case PostStop => s.drain.Stopping? && !IsFull(s.capacity, s.queue)
    case Join => s.drain.Posted? && (s.consumer.Returned? || s.consumer.Died? || s.consumer.Cancelled?)
    case BudgetSpent => s.drain.Stopping? || s.drain.Posted?
  }

  function ApplyAccept(s: State, event: ClickEvent): State {
    if s.closed || IsFull(s.capacity, s.queue) then s.(shed := s.shed + [event])
    else s.(queue := s.queue + [Click(event)], gauge := s.gauge + 1, accepted := s.accepted + [event])
  }

  /** `flush` up to its await: an empty batch returns at once. */
  function BeginFlush(s: State, why: Why): State {
    if s.batch != [] then s.(consumer := Flushing(why)) else AfterFlush(s, why)
  }

  /** The consumer, once a flush has returned. */
  function AfterFlush(s: State, why: Why): State {
    s.(consumer := if why.Final? then Returned else Getting)
  }

  /** The stretch after `queue.get()` hands over an item. */
  function ApplyTake(s: State): State
    requires s.queue != []
  {
    var s1 := s.(queue := s.queue[1..]);
    match s.queue[0]
    case Stop => BeginFlush(s1, Final)
    case Click(event) =>
      var s2 := s1.(gauge := s.gauge - 1, batch := s.batch + [event]);
      if |s2.batch| >= s.maxBatch then BeginFlush(s2, Full) else s2
  }

  /** The stretch after a statement: the batch is cleared whatever happened. */
  function ApplyExecuted(s: State, why: Why, result: Result): State {
    var s1 := s.(flushed := s.flushed + [Flushed(s.batch, result.Acknowledged?)], batch := []);
    match result
    case Acknowledged => AfterFlush(s1, why)
    case DatabaseError => AfterFlush(s1, why)
    case OtherError => s1.(consumer := Died)
    case Cancellation => s1.(consumer := Cancelled)
  }

  function Apply(s: State, a: Action): State
    requires Enabled(s, a)
  {
    match a
    case Accept(event) => ApplyAccept(s, event)
    case Timeout => BeginFlush(s, Tick)
    case Take => ApplyTake(s)
    case Executed(result) => ApplyExecuted(s, s.consumer.why, result)
    case CancelGet => s.(consumer := Cancelled)
    case StartDrain => s.(closed := true, drain := Stopping)
    case PostStop => s.(queue := s.queue + [Stop], drain := Posted)
    case Join => s.(drain := Ended(match s.consumer {
        case Returned => FLUSHED
        case Died => FAILED
        case _ => PROPAGATED
      }))
    case BudgetSpent => s.(drain := Ended(TIMED_OUT))
  }

  ghost predicate Next(s: State, a: Action, s': State) {
    Enabled(s, a) && s' == Apply(s, a)
  }

  ghost predicate Init(s: State) {
    s == State(s.capacity, s.maxBatch, [], false, 0, [], Getting, NotStarted, [], [], [])
  }

  // --- Conservation ------------------------------------------------------------

  function ClickOf(item: Item): seq<ClickEvent> {
    match item
    case Click(e) => [e]
    case Stop => []
  }

  function Clicks(queue: seq<Item>): seq<ClickEvent> {
    if queue == [] then [] else Clicks(queue[..|queue| - 1]) + ClickOf(queue[|queue| - 1])
  }

  function EventsOf(flushed: seq<Flushed>): seq<ClickEvent> {
    if flushed == [] then [] else EventsOf(flushed[..|flushed| - 1]) + flushed[|flushed| - 1].events
  }

  lemma ClicksSnoc(queue: seq<Item>, item: Item)
    ensures Clicks(queue + [item]) == Clicks(queue) + ClickOf(item)
  {
    assert (queue + [item])[..|queue|] == queue;
  }

  lemma {:induction false} ClicksPop(queue: seq<Item>)
    requires queue != []
    ensures Clicks(queue) == ClickOf(queue[0]) + Clicks(queue[1..])
    decreases |queue|
  {
    if |queue| == 1 {
      assert queue[..0] == [];
    } else {
      var front := queue[..|queue| - 1];
      ClicksPop(front);
      assert front[1..] == queue[1..][..|queue| - 2];
      var head, middle, last := ClickOf(queue[0]), Clicks(front[1..]), ClickOf(queue[|queue| - 1]);
      assert (head + middle) + last == head + (middle + last);
    }
  }

  lemma EventsSnoc(flushed: seq<Flushed>, f: Flushed)
    ensures EventsOf(flushed + [f]) == EventsOf(flushed) + f.events
  {
    assert (flushed + [f])[..|flushed|] == flushed;
  }

  /** Accepted clicks are, in order, those flushed, those in the batch and those in the queue. */
  ghost predicate Conserved(s: State) {
    s.accepted == EventsOf(s.flushed) + s.batch + Clicks(s.queue) && s.gauge == |Clicks(s.queue)|
  }

  ghost predicate BatchesFit(s: State) {
    && |s.batch| <= Max(1, s.maxBatch)
    && (s.consumer.Getting? ==> |s.batch| < Max(1, s.maxBatch))
    && (s.consumer.Flushing? ==> s.batch != [])
    && (s.consumer == Flushing(Full) ==> |s.batch| == Max(1, s.maxBatch))
    && (s.consumer.Returned? ==> s.batch == [])
    && forall i :: 0 <= i < |s.flushed| ==> 1 <= |s.flushed[i].events| <= Max(1, s.maxBatch)
  }

  /** The sentinel was posted after the sink closed, once, and nothing follows it. */
  ghost predicate StopIsLast(s: State) {
    && (!s.drain.NotStarted? ==> s.closed)
    && (forall i :: 0 <= i < |s.queue| && s.queue[i].Stop? ==>
          i == |s.queue| - 1 && (s.drain.Posted? || s.drain.Ended?))
    && (s.consumer.Returned? || s.consumer == Flushing(Final) ==>
          s.queue == [] && (s.drain.Posted? || s.drain.Ended?))
  }

  /** Once posted, the sentinel waits at the end of the queue for a consumer that has not got to it. */
  ghost predicate StopIsComing(s: State) {
    s.drain.Posted? && (s.consumer.Getting? || s.consumer == Flushing(Tick) || s.consumer == Flushing(Full)) ==>
      s.queue != [] && s.queue[|s.queue| - 1] == Stop
  }

  ghost predicate FlushedMeansFlushed(s: State) {
    s.drain == Ended(FLUSHED) ==> s.consumer.Returned?
  }

  ghost predicate Inv(s: State) {
    Conserved(s) && BatchesFit(s) && StopIsLast(s) && StopIsComing(s) && FlushedMeansFlushed(s)
  }

  /** Moving the boundary between two neighbours changes nothing. */
  lemma Regroup<T>(a: seq<T>, b: seq<T>, c: seq<T>, d: seq<T>)
    ensures a + b + (c + d) == a + (b + c) + d
    ensures a + b + (c + d) == (a + b + c) + d
  {
  }

  lemma TakeConserves(s: State, s': State)
    requires Conserved(s) && s.queue != [] && s'.queue == s.queue[1..]
    requires s'.batch == s.batch + ClickOf(s.queue[0]) && s'.gauge == s.gauge - |ClickOf(s.queue[0])|
    requires s'.accepted == s.accepted && s'.flushed == s.flushed
    ensures Conserved(s')
  {
    ClicksPop(s.queue);
    Regroup(EventsOf(s.flushed), s.batch, ClickOf(s.queue[0]), Clicks(s.queue[1..]));
  }

  lemma AcceptConserves(s: State, event: ClickEvent)
    requires Conserved(s)
    ensures Conserved(ApplyAccept(s, event))
  {
    ClicksSnoc(s.queue, Click(event));
    Regroup(EventsOf(s.flushed), s.batch, Clicks(s.queue), [event]);
  }

  lemma ExecutedConserves(s: State, why: Why, result: Result)
    requires Conserved(s)
    ensures Conserved(ApplyExecuted(s, why, result))
  {
    EventsSnoc(s.flushed, Flushed(s.batch, result.Acknowledged?));
    var sent := EventsOf(s.flushed) + s.batch;
    assert sent + [] == sent;
  }

  lemma StopConserves(s: State, s': State)
    requires Conserved(s) && s'.queue == s.queue + [Stop] && s'.accepted == s.accepted && s'.batch == s.batch
    requires s'.flushed == s.flushed && s'.gauge == s.gauge
    ensures Conserved(s')
  {
    ClicksSnoc(s.queue, Stop);
    assert Clicks(s.queue) + [] == Clicks(s.queue);
  }

  lemma StepConserves(s: State, a: Action)
    requires Conserved(s) && Enabled(s, a)
    ensures Conserved(Apply(s, a))
  {
    match a
    case Accept(event) => AcceptConserves(s, event);
    case Take => TakeConserves(s, ApplyTake(s));
    case PostStop => StopConserves(s, Apply(s, a));
    case Executed(result) => ExecutedConserves(s, s.consumer.why, result);
    case _ =>
  }

  lemma StepKeepsBatches(s: State, a: Action)
    requires BatchesFit(s) && Enabled(s, a)
    ensures BatchesFit(Apply(s, a))
  {
  }

  lemma StepKeepsStop(s: State, a: Action)
    requires StopIsLast(s) && FlushedMeansFlushed(s) && Enabled(s, a)
    ensures StopIsLast(Apply(s, a)) && FlushedMeansFlushed(Apply(s, a))
  {
  }

  lemma StepKeepsStopComing(s: State, a: Action)
    requires StopIsLast(s) && StopIsComing(s) && Enabled(s, a)
    ensures StopIsComing(Apply(s, a))
  {
  }

  lemma StepKeepsInv(s: State, a: Action)
    requires Inv(s) && Enabled(s, a)
    ensures Inv(Apply(s, a))
  {
    StepConserves(s, a);
    StepKeepsBatches(s, a);
    StepKeepsStop(s, a);
    StepKeepsStopComing(s, a);
  }

  lemma RunKeepsInv(r: seq<State>, acts: seq<Action>, k: nat)
    requires IsRun(Next, r, acts) && Init(r[0]) && k < |r|
    ensures Inv(r[k])
  {
    if !Inv(r[k]) {
      var i := Crossing((s: State) => !Inv(s), r, 0, k);
      StepKeepsInv(r[i], acts[i]);
    }
  }

  /**
   * At every await of every run the accepted clicks are, in order, those of the flushed batches,
   * those of the current batch and those still queued; the gauge is the number queued; and every
   * statement carried between one and `max_batch` rows.
   */
  lemma AcceptedClicksAreConserved(r: seq<State>, acts: seq<Action>, k: nat)
    requires IsRun(Next, r, acts) && Init(r[0]) && k < |r|
    ensures r[k].accepted == EventsOf(r[k].flushed) + r[k].batch + Clicks(r[k].queue)
    ensures r[k].gauge == |Clicks(r[k].queue)|
    ensures forall i :: 0 <= i < |r[k].flushed| ==> 1 <= |r[k].flushed[i].events| <= Max(1, r[k].maxBatch)
  {
    RunKeepsInv(r, acts, k);
  }

  /** A drain that reports `FLUSHED` has put every accepted click through some flushed batch. */
  lemma FlushedDrainLosesNothing(r: seq<State>, acts: seq<Action>, k: nat)
    requires IsRun(Next, r, acts) && Init(r[0]) && k < |r| && r[k].drain == Ended(FLUSHED)
    ensures r[k].accepted == EventsOf(r[k].flushed)
    ensures r[k].queue == [] && r[k].batch == [] && r[k].gauge == 0
  {
    RunKeepsInv(r, acts, k);
  }

  // --- Accepting and shedding --------------------------------------------------

  /** The sink takes no more clicks: it is closed, or holds as many items as it may. */
  ghost predicate NoRoom(s: State) {
    s.closed || (s.capacity > 0 && |s.queue| >= s.capacity)
  }

  /** A click is shed exactly when the sink is closed or full, and else goes to the end of the queue. */
  lemma ClicksAreShedExactly(r: seq<State>, acts: seq<Action>, k: nat, event: ClickEvent)
    requires IsRun(Next, r, acts) && k < |acts| && acts[k] == Accept(event)
    ensures NoRoom(r[k]) ==> r[k + 1] == r[k].(shed := r[k].shed + [event])
    ensures !NoRoom(r[k]) ==>
              r[k + 1] == r[k].(queue := r[k].queue + [Click(event)], gauge := r[k].gauge + 1,
                                accepted := r[k].accepted + [event])
  {
    assert Next(r[k], acts[k], r[k + 1]);
  }

  /** The clicks offered by the actions, in order. */
  function OfferedBy(acts: seq<Action>): seq<ClickEvent> {
    if acts == [] then [] else
      var a := acts[|acts| - 1];
      OfferedBy(acts[..|acts| - 1]) + (if a.Accept? then [a.event] else [])
  }

  /** The queue is within its capacity. */
  ghost predicate WithinCapacity(s: State) {
    s.capacity > 0 ==> |s.queue| <= s.capacity
  }

  /** Only an offered click is accepted or shed, and it is one of the two. */
  lemma OnlyOffersCount(s: State, a: Action)
    requires Enabled(s, a) && WithinCapacity(s)
    ensures WithinCapacity(Apply(s, a)) && Apply(s, a).capacity == s.capacity
    ensures !a.Accept? ==> Apply(s, a).accepted == s.accepted && Apply(s, a).shed == s.shed
  {
  }

  /** Over every run the queue is within its capacity, and every offered click was accepted or shed. */
  lemma {:induction false} OffersAreAcceptedOrShed(r: seq<State>, acts: seq<Action>, k: nat)
    requires IsRun(Next, r, acts) && Init(r[0]) && k < |r|
    ensures WithinCapacity(r[k]) && r[k].capacity == r[0].capacity
    ensures |OfferedBy(acts[..k])| == |r[k].accepted| + |r[k].shed|
    ensures forall e | e in r[k].accepted || e in r[k].shed :: e in OfferedBy(acts[..k])
    decreases k
  {
    if k > 0 {
      OffersAreAcceptedOrShed(r, acts, k - 1);
      assert Next(r[k - 1], acts[k - 1], r[k]);
      OnlyOffersCount(r[k - 1], acts[k - 1]);
      OfferedSnoc(acts, k);
    }
  }

  lemma OfferedSnoc(acts: seq<Action>, k: nat)
    requires 0 < k <= |acts|
    ensures OfferedBy(acts[..k])
            == OfferedBy(acts[..k - 1]) + (if acts[k - 1].Accept? then [acts[k - 1].event] else [])
  {
    assert acts[..k][..k - 1] == acts[..k - 1];
  }

  // --- What the consumer does --------------------------------------------------

  /** A tick with something in the batch leads to one statement with exactly that batch. */
  lemma TicksFlushTheBatch(r: seq<State>, acts: seq<Action>, k: nat, j: nat, result: Result)
    requires IsRun(Next, r, acts) && k < j < |acts| && acts[k] == Timeout && r[k].batch != []
    requires acts[j] == Executed(result) && forall i | k < i < j :: !acts[i].Executed?
    ensures r[j + 1].flushed == r[k].flushed + [Flushed(r[k].batch, result.Acknowledged?)] && r[j + 1].batch == []
  {
    assert Next(r[k], acts[k], r[k + 1]) && Next(r[j], acts[j], r[j + 1]);
    FlushesWait(r, acts, k + 1, j);
  }

  ghost predicate SameFlush(s: State, s': State) {
    s'.consumer == s.consumer && s'.batch == s.batch && s'.flushed == s.flushed
  }

  lemma OthersLeaveTheFlush(s: State, a: Action)
    requires Enabled(s, a) && s.consumer.Flushing? && !a.Executed?
    ensures SameFlush(s, Apply(s, a))
  {
  }

  /** Nothing but the end of its statement moves a flushing consumer. */
  lemma FlushesWait(r: seq<State>, acts: seq<Action>, i: nat, j: nat)
    requires IsRun(Next, r, acts) && i <= j < |r| && r[i].consumer.Flushing?
    requires forall m | i <= m < j :: !acts[m].Executed?
    ensures SameFlush(r[i], r[j])
  {
    var s := r[i];
    if !SameFlush(s, r[j]) {
      var m := Crossing((s': State) => !SameFlush(s, s'), r, i, j);
      OthersLeaveTheFlush(r[m], acts[m]);
    }
  }

  /** A click taken off the queue joins the batch, which is flushed exactly when it is full. */
  lemma TakenClicksAreBatched(r: seq<State>, acts: seq<Action>, k: nat, event: ClickEvent)
    requires IsRun(Next, r, acts) && Init(r[0]) && k < |acts| && acts[k] == Take
    requires r[k].queue != [] && r[k].queue[0] == Click(event)
    ensures r[k + 1].batch == r[k].batch + [event] && r[k + 1].queue == r[k].queue[1..]
    ensures |r[k + 1].batch| >= r[k].maxBatch ==> r[k + 1].consumer == Flushing(Full)
    ensures |r[k + 1].batch| < r[k].maxBatch ==> r[k + 1].consumer == Getting
  {
    assert Next(r[k], acts[k], r[k + 1]);
  }

  /** The sentinel flushes what is left and ends the consumer. */
  lemma TheSentinelEndsTheConsumer(r: seq<State>, acts: seq<Action>, k: nat)
    requires IsRun(Next, r, acts) && Init(r[0]) && k < |acts| && acts[k] == Take
    requires r[k].queue != [] && r[k].queue[0] == Stop
    ensures r[k + 1].batch == r[k].batch
    ensures r[k + 1].consumer == if r[k].batch == [] then Returned else Flushing(Final)
  {
    assert Next(r[k], acts[k], r[k + 1]);
  }

  /** A statement that is acknowledged, or refused by the database, lets the consumer go on; anything else ends it. */
  lemma StatementsDecideTheConsumer(r: seq<State>, acts: seq<Action>, k: nat, why: Why, result: Result)
    requires IsRun(Next, r, acts) && k < |acts| && acts[k] == Executed(result) && r[k].consumer == Flushing(why)
    ensures result.Acknowledged? || result.DatabaseError? ==>
              r[k + 1].consumer == if why == Final then Returned else Getting
    ensures result.OtherError? ==> r[k + 1].consumer == Died
    ensures result.Cancellation? ==> r[k + 1].consumer == Consumer.Cancelled
  {
    assert Next(r[k], acts[k], r[k + 1]);
  }

  /** What the drain reports: `FLUSHED` for a consumer that returned, `FAILED` for one that raised, else the timeout. */
  lemma DrainsReport(r: seq<State>, acts: seq<Action>, k: nat)
    requires IsRun(Next, r, acts) && k < |acts| && (acts[k] == Join || acts[k] == BudgetSpent)
    ensures r[k + 1].drain.Ended?
    ensures r[k + 1].drain.outcome == FLUSHED <==> acts[k] == Join && r[k].consumer.Returned?
    ensures r[k + 1].drain.outcome == FAILED <==> acts[k] == Join && r[k].consumer.Died?
    ensures r[k + 1].drain.outcome == TIMED_OUT <==> acts[k] == BudgetSpent
  {
    assert Next(r[k], acts[k], r[k + 1]);
  }

  // --- A drain can always flush ------------------------------------------------

  /** A run that starts at `s`. */
  ghost predicate RunFrom(s: State, r: seq<State>, acts: seq<Action>) {
    IsRun(Next, r, acts) && r[0] == s
  }

  /** Take one step, then go on. */
  lemma StepThenRun(s: State, a: Action, r: seq<State>, acts: seq<Action>)
    requires Enabled(s, a) && RunFrom(Apply(s, a), r, acts)
    ensures RunFrom(s, [s] + r, [a] + acts) && ([s] + r)[|acts| + 1] == r[|acts|]
  {
    Runs.Join(Next, [s, r[0]], [a], r, acts);
    assert [s, r[0]] + r[1..] == [s] + r;
  }

  ghost predicate Alive(s: State) {
    s.consumer.Getting? || s.consumer.Flushing?
  }

  /** What the consumer does next if the database answers. */
  function NextOf(s: State): Action {
    if s.consumer.Flushing? then Executed(Acknowledged) else Take
  }

  /** The consumer has come closer to the end of the queue, and nobody else has moved. */
  ghost predicate Progress(s: State, s': State) {
    && (|s'.queue| < |s.queue| || (|s'.queue| == |s.queue| && s.consumer.Flushing? && !s'.consumer.Flushing?))
    && s'.drain == s.drain && s'.capacity == s.capacity && (Alive(s') || s'.consumer.Returned?)
  }

  lemma ConsumerProgresses(s: State, s': State)
    requires Inv(s) && Alive(s) && Enabled(s, NextOf(s)) && s' == Apply(s, NextOf(s))
    ensures Inv(s') && Progress(s, s') && (s'.consumer.Returned? ==> s.drain.Posted? || s.drain.Ended?)
  {
    StepKeepsInv(s, NextOf(s));
  }

  /** With a database that answers, a consumer that has been told to stop empties the queue and returns. */
  lemma {:induction false} ConsumeToTheEnd(s: State) returns (r: seq<State>, acts: seq<Action>)
    requires Inv(s) && s.drain.Posted? && Alive(s)
    ensures RunFrom(s, r, acts) && r[|acts|].drain.Posted? && r[|acts|].consumer.Returned?
    decreases |s.queue|, s.consumer.Flushing?
  {
    var a := NextOf(s);
    var s' := Apply(s, a);
    ConsumerProgresses(s, s');
    if s'.consumer.Returned? {
      r, acts := [s, s'], [a];
    } else {
      r, acts := ConsumeToTheEnd(s');
      StepThenRun(s, a, r, acts);
      r, acts := [s] + r, [a] + acts;
    }
  }

  /** A drain that has begun, with room for its sentinel. */
  ghost predicate HasRoom(s: State) {
    Inv(s) && s.drain.Stopping? && Alive(s) && !IsFull(s.capacity, s.queue)
  }

  /** And one that has not been told yet makes room for the sentinel. */
  lemma {:induction false} MakeRoom(s: State) returns (r: seq<State>, acts: seq<Action>)
    requires Inv(s) && s.drain.Stopping? && Alive(s)
    ensures RunFrom(s, r, acts) && HasRoom(r[|acts|])
    decreases |s.queue|, s.consumer.Flushing?
  {
    if !IsFull(s.capacity, s.queue) {
      r, acts := [s], [];
    } else {
      ConsumerProgresses(s, Apply(s, NextOf(s)));
      r, acts := MakeRoom(Apply(s, NextOf(s)));
      StepThenRun(s, NextOf(s), r, acts);
      r, acts := [s] + r, [NextOf(s)] + acts;
    }
  }

  lemma RunThenRun(s: State, r: seq<State>, acts: seq<Action>, q: seq<State>, more: seq<Action>)
    requires RunFrom(s, r, acts) && RunFrom(r[|acts|], q, more)
    ensures RunFrom(s, r + q[1..], acts + more) && (r + q[1..])[|acts + more|] == q[|more|]
  {
    Runs.Join(Next, r, acts, q, more);
    assert (r + q[1..])[|acts| + |more|] == q[|more|];
  }

  lemma PostedCanFlush(s: State) returns (r: seq<State>, acts: seq<Action>)
    requires Inv(s) && s.drain.Posted? && Alive(s)
    ensures RunFrom(s, r, acts) && r[|acts|].drain == Ended(FLUSHED)
  {
    r, acts := ConsumeToTheEnd(s);
    var last := r[|acts|];
    var q := [last, Apply(last, Action.Join)];
    RunThenRun(s, r, acts, q, [Action.Join]);
    r, acts := r + q[1..], acts + [Action.Join];
  }

  lemma StoppingCanFlush(s: State) returns (r: seq<State>, acts: seq<Action>)
    requires Inv(s) && s.drain.Stopping? && Alive(s)
    ensures RunFrom(s, r, acts) && r[|acts|].drain == Ended(FLUSHED)
  {
    r, acts := MakeRoom(s);
    var last := r[|acts|];
    var q, more := RoomCanFlush(last);
    RunThenRun(s, r, acts, q, more);
    r, acts := r + q[1..], acts + more;
  }

  lemma RoomCanFlush(s: State) returns (r: seq<State>, acts: seq<Action>)
    requires HasRoom(s)
    ensures RunFrom(s, r, acts) && r[|acts|].drain == Ended(FLUSHED)
  {
    StepKeepsInv(s, PostStop);
    r, acts := PostedCanFlush(Apply(s, PostStop));
    StepThenRun(s, PostStop, r, acts);
    r, acts := [s] + r, [PostStop] + acts;
  }

  /**
   * From every state of the invariant in which a drain has begun and the consumer is alive, some
   * continuation ends in `FLUSHED`: neither a full queue nor a statement in flight can block a
   * shutdown for good.
   */
  lemma DrainsCanFlush(s: State)
    requires Inv(s) && (s.drain.Stopping? || s.drain.Posted?) && Alive(s)
    ensures exists r: seq<State>, acts: seq<Action> :: RunFrom(s, r, acts) && r[|acts|].drain == Ended(FLUSHED)
  {
    if s.drain.Posted? {
      var r, acts := PostedCanFlush(s);
    } else {
      var r, acts := StoppingCanFlush(s);
    }
  }

  // --- The code between the awaits ---------------------------------------------

  /** The sink and the ingestor: the queue, the gauge and the consumer's current batch. */
  class ClickIngestor {
    const capacity: int
    const maxBatch: int
    var queue: seq<Item>
    var closed: bool
    var gauge: int
    var batch: seq<ClickEvent>

    ghost predicate Holds(s: State)
      reads this
    {
      && capacity == s.capacity && maxBatch == s.maxBatch
      && queue == s.queue && closed == s.closed && gauge == s.gauge && batch == s.batch
    }

    constructor (capacity: int, maxBatch: int)
      ensures Init(State(capacity, maxBatch, queue, closed, gauge, batch, Getting, NotStarted, [], [], []))
      ensures this.capacity == capacity && this.maxBatch == maxBatch
    {
      this.capacity, this.maxBatch := capacity, maxBatch;
      queue, closed, gauge, batch := [], false, 0, [];
    }

    /** `ClickSink.accept`: false means the click was shed. */
    method Accept(ghost s: State, event: ClickEvent) returns (ok: bool)
      requires Holds(s)
      modifies this
      ensures Holds(ApplyAccept(s, event))
      ensures ApplyAccept(s, event).accepted == if ok then s.accepted + [event] else s.accepted
      ensures ok <==> !old(closed) && (capacity <= 0 || |old(queue)| < capacity)
      ensures queue == if ok then old(queue) + [Click(event)] else old(queue)
    {
      if closed {
        return false;
      }
      if capacity > 0 && |queue| >= capacity {
        return false;
      }
      queue := queue + [Click(event)];
      gauge := gauge + 1;
      ok := true;
    }

    /** `stop` up to its await: refuse new clicks. */
    method Close(ghost s: State)
      requires Holds(s) && Enabled(s, StartDrain)
      modifies this
      ensures Holds(Apply(s, StartDrain))
    {
      closed := true;
    }

    /** `stop` once the queue has room for the sentinel. */
    method PutStop(ghost s: State)
      requires Holds(s) && Enabled(s, PostStop)
      modifies this
      ensures Holds(Apply(s, PostStop))
    {
      queue := queue + [Stop];
    }

    /** `run` after `queue.get()`: count the item out, batch it, and say where the task goes next. */
    method AfterGet(ghost s: State) returns (next: Consumer)
      requires Holds(s) && Enabled(s, Take)
      modifies this
      ensures Holds(Apply(s, Take)) && next == Apply(s, Take).consumer
    {
      var item := queue[0];
      queue := queue[1..];
      if item.Stop? {
        return if batch == [] then Returned else Flushing(Final);
      }
      gauge := gauge - 1;
      batch := batch + [item.event];
      next := if |batch| >= maxBatch then Flushing(Full) else Getting;
    }

    /** `flush` up to its await: nothing for an empty batch, else the one statement that inserts it. */
    method BeginFlushing() returns (st: Option<Statement>)
      ensures st.None? <==> batch == []
      ensures st.Some? ==> Inserts(st.value, batch)
    {
      if batch == [] {
        return None;
      }
      var built := BuildStatement(batch);
      st := Some(built);
    }

    /** `flush` after its await: the rows written, the cleared batch, and where the task goes next. */
    method AfterExecute(ghost s: State, why: Why, result: Result) returns (rows: nat, next: Consumer)
      requires Holds(s) && s.consumer == Flushing(why)
      modifies this
      ensures var s' := Apply(s, Executed(result));
              && Holds(s') && next == s'.consumer
              && s'.flushed == s.flushed + [Flushed(old(batch), result.Acknowledged?)]
              && rows == if result.Acknowledged? then |old(batch)| else 0
    {
      rows := if result.Acknowledged? then |batch| else 0;
      batch := [];
      next := match result {
        case OtherError => Died
        case Cancellation => Cancelled
        case _ => if why.Final? then Returned else Getting
      };
    }
  }
}
