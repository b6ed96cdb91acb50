/**
 * The single-flight rebuild of `Cache.get_or_rebuild`.
 *
 * Tasks share one in-process dictionary of futures and one Redis.  A task only
 * yields at an `await`, so one action below is one stretch of code between two
 * awaits, or one moment at which Redis serves a command, or the environment
 * removing or overwriting an entry.  "Redis served the read" and "the task
 * resumed" are separate actions: every interesting interleaving lies between.
 *
 * A task creates at most one future, so a future is named by the task that
 * created it.
 */
module SingleFlight {
  import opened Options
  import opened CacheEntries
  import opened Runs

  type TaskId = nat

  /** What an awaited call raised; `Cancelled` is asyncio's cancellation. */
  datatype Error = Cancelled | Failed(code: nat)

  datatype Outcome = Value(v: Cached) | Raised(e: Error)

  datatype Future = Pending | Resolved(o: Outcome)

  /** What `Cache.get` hands back to the task, once Redis has answered. */
  datatype Reply = Hit(v: Cached) | Absent | ReadFailed(e: Error)

  /** How a finished call came by its answer. */
  datatype Role = Direct | Led | Waited(on: TaskId) | HungUp(on: TaskId)

  /** Where a call to `get_or_rebuild` is suspended, or how it ended. */
  datatype Stage =
    | Reading
    | ReadServed(reply: Reply)
    | Parked(leader: TaskId)
    | Rebuilding
    | Writing(v: Cached)
    | WriteServed(w: Cached, err: Option<Error>)
    | Done(role: Role, o: Outcome)

  datatype Task = Task(slug: Slug, at: Stage)

  datatype State = State(
    tasks: map<TaskId, Task>,
    inflight: map<Slug, TaskId>,
    futures: map<TaskId, Future>,
    redis: map<Slug, Stored>)

  /** What one task does next. */
  datatype Move =
    | ServeRead
    | FailRead(e: Error)
    | Resume
    | CancelReader
    | RebuildReturns(v: Cached)
    | ServeWrite
    | FailWrite(e: Error, applied: bool)
    | Finish
    | LeaderRaises(e: Error)
    | Wake
    | HangUp

  datatype Action =
    | Start(t: TaskId, slug: Slug)
    | Step(t: TaskId, m: Move)
    | Remove(slug: Slug)
    | OtherWrite(slug: Slug, stored: Stored)

  // --- The transition system ---------------------------------------------------

  /** The task is between electing itself leader and leaving `get_or_rebuild`. */
  predicate Leading(at: Stage) {
    at.Rebuilding? || at.Writing? || at.WriteServed?
  }

  predicate CanMove(s: State, at: Stage, m: Move) {
    match m
    case ServeRead => at.Reading?
    case FailRead(_) => at.Reading?
    case Resume => at.ReadServed?
    case CancelReader => at.Reading? || at.ReadServed?
    case RebuildReturns(_) => at.Rebuilding?
    case ServeWrite => at.Writing?
    case FailWrite(_, _) => at.Writing?
    case Finish => at.WriteServed?
    case LeaderRaises(_) => Leading(at)
    case Wake => at.Parked? && at.leader in s.futures && s.futures[at.leader].Resolved?
    case HangUp => at.Parked?
  }

  predicate Enabled(s: State, a: Action) {
    match a
    case Start(t, _) => t !in s.tasks
    case Step(t, m) => t in s.tasks && CanMove(s, s.tasks[t].at, m)
    case Remove(_) => true
    case OtherWrite(_, _) => true
  }

  /** `Cache.get` on an entry: an undecodable payload raises. */
  function ReplyOf(redis: map<Slug, Stored>, slug: Slug): Reply {
    if slug !in redis then Absent
    else match redis[slug]
      case Entry(v) => Hit(v)
      case Garbage => ReadFailed(Failed(0))
  }

  /** Only the position of task `t` changes. */
  function Goto(s: State, t: TaskId, task: Task): State {
    s.(tasks := s.tasks[t := task])
  }

  /** The task elects itself leader: a pending future goes into the slot. */
  function Lead(s: State, t: TaskId, slug: Slug): State {
    s.(futures := s.futures[t := Pending],
       inflight := s.inflight[slug := t],
       tasks := s.tasks[t := Task(slug, Rebuilding)])
  }

  /** The leader leaves: its future is resolved and its slot torn down. */
  function Leave(s: State, t: TaskId, slug: Slug, o: Outcome): State {
    s.(futures := s.futures[t := Resolved(o)],
       inflight := s.inflight - {slug},
       tasks := s.tasks[t := Task(slug, Done(Led, o))])
  }

  /** The stretch from the end of the read to the next await: hit, error, park or lead. */
  function AfterRead(s: State, t: TaskId, slug: Slug, reply: Reply): State {
    match reply
    case Hit(v) => Goto(s, t, Task(slug, Done(Direct, Value(v))))
    case ReadFailed(e) => Goto(s, t, Task(slug, Done(Direct, Raised(e))))
    case Absent =>
      if slug in s.inflight then Goto(s, t, Task(slug, Parked(s.inflight[slug])))
      else Lead(s, t, slug)
  }

  function ApplyMove(s: State, t: TaskId, slug: Slug, at: Stage, m: Move): State
    requires CanMove(s, at, m)
  {
    match m
    case ServeRead => Goto(s, t, Task(slug, ReadServed(ReplyOf(s.redis, slug))))
    case FailRead(e) => Goto(s, t, Task(slug, ReadServed(ReadFailed(e))))
    case Resume => AfterRead(s, t, slug, at.reply)
    case CancelReader => Goto(s, t, Task(slug, Done(Direct, Raised(Cancelled))))
    case RebuildReturns(v) => Goto(s, t, Task(slug, Writing(v)))
    case ServeWrite =>
      Goto(s, t, Task(slug, WriteServed(at.v, None))).(redis := s.redis[slug := Entry(at.v)])
    case FailWrite(e, applied) =>
      Goto(s, t, Task(slug, WriteServed(at.v, Some(e)))).(
        redis := if applied then s.redis[slug := Entry(at.v)] else s.redis)
    case Finish => Leave(s, t, slug, if at.err.None? then Value(at.w) else Raised(at.err.value))
    case LeaderRaises(e) => Leave(s, t, slug, Raised(e))
    case Wake => Goto(s, t, Task(slug, Done(Waited(at.leader), s.futures[at.leader].o)))
    case HangUp => Goto(s, t, Task(slug, Done(HungUp(at.leader), Raised(Cancelled))))
  }

  function Apply(s: State, a: Action): State
    requires Enabled(s, a)
  {
    match a
    case Start(t, slug) => Goto(s, t, Task(slug, Reading))
    case Step(t, m) => ApplyMove(s, t, s.tasks[t].slug, s.tasks[t].at, m)
    case Remove(slug) => s.(redis := s.redis - {slug})
    case OtherWrite(slug, stored) => s.(redis := s.redis[slug := stored])
  }

  /** A process that has just built its `Cache`; Redis may already hold anything. */
  predicate Init(s: State) {
    s.tasks == map[] && s.inflight == map[] && s.futures == map[]
  }

  ghost predicate Next(s: State, a: Action, s': State) {
    Enabled(s, a) && s' == Apply(s, a)
  }

  // --- The invariant -----------------------------------------------------------

  ghost predicate LeadersHoldSlots(s: State) {
    forall t :: t in s.tasks && Leading(s.tasks[t].at) ==>
      && t in s.futures && s.futures[t].Pending?
      && s.tasks[t].slug in s.inflight && s.inflight[s.tasks[t].slug] == t
  }

  ghost predicate SlotsHaveLeaders(s: State) {
    forall slug :: slug in s.inflight ==>
      var t := s.inflight[slug];
      t in s.tasks && Leading(s.tasks[t].at) && s.tasks[t].slug == slug
  }

  /** A pending future has a live leader; a resolved one holds what its leader returned or raised. */
  ghost predicate FuturesFollowLeaders(s: State) {
    forall f :: f in s.futures ==>
      && f in s.tasks
      && (s.futures[f].Pending? ==> Leading(s.tasks[f].at))
      && (s.futures[f].Resolved? ==> s.tasks[f].at == Done(Led, s.futures[f].o))
  }

  /** The future of `l` exists, and `l` led for `slug`. */
  ghost predicate LedFor(s: State, l: TaskId, slug: Slug) {
    l in s.futures && l in s.tasks && s.tasks[l].slug == slug
  }

  /** A parked waiter waits for a future of its slug; a woken one got exactly what is in it. */
  ghost predicate WaiterOk(s: State, task: Task) {
    && (task.at.Parked? ==> LedFor(s, task.at.leader, task.slug))
    && (task.at.Done? && task.at.role.Waited? ==>
          LedFor(s, task.at.role.on, task.slug) && s.futures[task.at.role.on] == Resolved(task.at.o))
  }

  ghost predicate WaitersFollowFutures(s: State) {
    forall t :: t in s.tasks ==> WaiterOk(s, s.tasks[t])
  }

  ghost predicate Inv(s: State) {
    && LeadersHoldSlots(s)
    && SlotsHaveLeaders(s)
    && FuturesFollowLeaders(s)
    && WaitersFollowFutures(s)
  }

  /** `s'` differs from `s` in Redis and in the position of `t`, which neither starts nor ends leading. */
  ghost predicate OnlyMoved(s: State, t: TaskId, s': State) {
    && t in s'.tasks && s' == Goto(s, t, s'.tasks[t]).(redis := s'.redis)
    && (t in s.tasks ==> s.tasks[t].slug == s'.tasks[t].slug)
    && (Leading(s'.tasks[t].at) <==> t in s.tasks && Leading(s.tasks[t].at))
    && (t in s.futures ==> Leading(s'.tasks[t].at))
  }

  lemma MovingKeepsSlots(s: State, t: TaskId, s': State)
    requires LeadersHoldSlots(s) && SlotsHaveLeaders(s) && OnlyMoved(s, t, s')
    ensures LeadersHoldSlots(s') && SlotsHaveLeaders(s')
  {
  }

  lemma MovingKeepsFutures(s: State, t: TaskId, s': State)
    requires FuturesFollowLeaders(s) && WaitersFollowFutures(s) && OnlyMoved(s, t, s')
    requires WaiterOk(s, s'.tasks[t])
    ensures FuturesFollowLeaders(s') && WaitersFollowFutures(s')
  {
  }

  lemma LeavingKeepsSlots(s: State, t: TaskId, o: Outcome, s': State)
    requires LeadersHoldSlots(s) && SlotsHaveLeaders(s) && t in s.tasks && Leading(s.tasks[t].at)
    requires s' == Leave(s, t, s.tasks[t].slug, o)
    ensures LeadersHoldSlots(s') && SlotsHaveLeaders(s')
  {
  }

  lemma LeavingKeepsFutures(s: State, t: TaskId, o: Outcome, s': State)
    requires FuturesFollowLeaders(s) && WaitersFollowFutures(s) && t in s.tasks && Leading(s.tasks[t].at)
    requires s' == Leave(s, t, s.tasks[t].slug, o)
    ensures FuturesFollowLeaders(s') && WaitersFollowFutures(s')
  {
  }

  ghost predicate TakesFreeSlot(s: State, t: TaskId, slug: Slug, s': State) {
    && t in s.tasks && s.tasks[t] == Task(slug, ReadServed(Absent))
    && slug !in s.inflight && s' == Lead(s, t, slug)
  }

  lemma LeadingKeepsSlots(s: State, t: TaskId, slug: Slug, s': State)
    requires LeadersHoldSlots(s) && SlotsHaveLeaders(s) && TakesFreeSlot(s, t, slug, s')
    ensures LeadersHoldSlots(s') && SlotsHaveLeaders(s')
  {
  }

  lemma LeadingKeepsFutures(s: State, t: TaskId, slug: Slug, s': State)
    requires FuturesFollowLeaders(s) && WaitersFollowFutures(s) && TakesFreeSlot(s, t, slug, s')
    ensures FuturesFollowLeaders(s') && WaitersFollowFutures(s')
  {
    assert t !in s.futures;
  }

  ghost predicate Leads(s: State, t: TaskId, m: Move)
    requires Enabled(s, Step(t, m))
  {
    m.Resume? && s.tasks[t].at.reply.Absent? && s.tasks[t].slug !in s.inflight
  }

  /** Every other move changes Redis and the task's own position only. */
  lemma OtherMovesOnlyMove(s: State, t: TaskId, m: Move, s': State)
    requires Enabled(s, Step(t, m)) && s' == Apply(s, Step(t, m))
    requires !m.Finish? && !m.LeaderRaises? && !Leads(s, t, m)
    requires t in s.futures ==> Leading(s.tasks[t].at) || s.tasks[t].at.Done?
    ensures OnlyMoved(s, t, s')
  {
    var at := s.tasks[t].at;
    var slug := s.tasks[t].slug;
    assert s' == ApplyMove(s, t, slug, at, m);
    match m
    case Resume => assert at.reply.Absent? ==> slug in s.inflight;
    case ServeWrite =>
    case FailWrite(_, _) =>
    case _ =>
  }

  /** A task that parks or wakes does so on a future of its slug, and wakes with what it holds. */
  lemma MovesWaitForFutures(s: State, t: TaskId, m: Move, s': State)
    requires Enabled(s, Step(t, m)) && s' == Apply(s, Step(t, m)) && WaiterOk(s, s.tasks[t])
    requires s.tasks[t].slug in s.inflight ==> LedFor(s, s.inflight[s.tasks[t].slug], s.tasks[t].slug)
    ensures WaiterOk(s, s'.tasks[t])
  {
  }

  lemma MoveKeepsInv(s: State, t: TaskId, m: Move, s': State)
    requires Inv(s) && Enabled(s, Step(t, m)) && s' == Apply(s, Step(t, m))
    ensures Inv(s')
  {
    if m.Finish? || m.LeaderRaises? {
      LeavingKeepsSlots(s, t, s'.tasks[t].at.o, s');
      LeavingKeepsFutures(s, t, s'.tasks[t].at.o, s');
    } else if Leads(s, t, m) {
      LeadingKeepsSlots(s, t, s.tasks[t].slug, s');
      LeadingKeepsFutures(s, t, s.tasks[t].slug, s');
    } else {
      OtherMovesOnlyMove(s, t, m, s');
      MovesWaitForFutures(s, t, m, s');
      MovingKeepsSlots(s, t, s');
      MovingKeepsFutures(s, t, s');
    }
  }

  lemma StepKeepsInv(s: State, a: Action)
    requires Inv(s) && Enabled(s, a)
    ensures Inv(Apply(s, a))
  {
    var s' := Apply(s, a);
    if a.Start? {
      MovingKeepsSlots(s, a.t, s');
      MovingKeepsFutures(s, a.t, s');
    } else if a.Step? {
      MoveKeepsInv(s, a.t, a.m, s');
    }
  }

  lemma RunKeepsInv(r: seq<State>, acts: seq<Action>, k: nat)
    requires IsRun(Next, r, acts) && Init(r[0]) && k < |r|
    ensures Inv(r[k])
  {
    if !Inv(r[k]) {
      var i := Crossing((s: State) => !Inv(s), r, 0, k);
      StepKeepsInv(r[i], acts[i]);
    }
  }

  // --- What every interleaving promises ----------------------------------------

  ghost predicate LeadsSlot(s: State, t: TaskId, slug: Slug) {
    t in s.tasks && Leading(s.tasks[t].at) && s.tasks[t].slug == slug
  }

  /**
   * In every interleaving at most one task leads a slug; the slug is in `inflight` exactly
   * while one live leader holds its pending future; and nobody is parked on a future that
   * is neither resolved nor held by that live leader.
   */
  lemma {:induction false} OneLeaderPerSlug(r: seq<State>, acts: seq<Action>, k: nat)
    requires IsRun(Next, r, acts) && Init(r[0]) && k < |r|
    ensures forall t, u, slug | LeadsSlot(r[k], t, slug) && LeadsSlot(r[k], u, slug) :: t == u
    ensures forall slug :: slug in r[k].inflight <==> exists t :: LeadsSlot(r[k], t, slug)
    ensures forall t, slug | LeadsSlot(r[k], t, slug) ::
              r[k].inflight[slug] == t && t in r[k].futures && r[k].futures[t] == Pending
    ensures forall t | t in r[k].tasks && r[k].tasks[t].at.Parked? ::
              var Task(slug, Parked(l)) := r[k].tasks[t];
              l in r[k].futures && (r[k].futures[l].Resolved? || LeadsSlot(r[k], l, slug))
  {
    RunKeepsInv(r, acts, k);
    forall slug | slug in r[k].inflight
      ensures exists t :: LeadsSlot(r[k], t, slug)
    {
      assert LeadsSlot(r[k], r[k].inflight[slug], slug);
    }
  }

  /** A waiter that finishes without being cancelled ends with exactly its leader's value or exception. */
  lemma WaitersGetTheLeadersOutcome(r: seq<State>, acts: seq<Action>, k: nat, t: TaskId)
    requires IsRun(Next, r, acts) && Init(r[0]) && k < |r|
    requires t in r[k].tasks && r[k].tasks[t].at.Done? && r[k].tasks[t].at.role.Waited?
    ensures var Task(slug, Done(Waited(l), o)) := r[k].tasks[t];
            l in r[k].tasks && r[k].tasks[l] == Task(slug, Done(Led, o))
  {
    RunKeepsInv(r, acts, k);
  }

  /**
   * However the leader leaves (answer, failed rebuild, failed write, cancellation), in that
   * same step its future goes from pending to its own outcome and its slot becomes free, and
   * nothing is cached by leaving.
   */
  lemma LeavingResolvesTheFuture(s: State, a: Action, t: TaskId, slug: Slug)
    requires Inv(s) && Enabled(s, a) && LeadsSlot(s, t, slug) && !LeadsSlot(Apply(s, a), t, slug)
    ensures var s' := Apply(s, a);
            && a.Step? && a.t == t
            && s.futures[t] == Pending
            && s'.tasks[t].at.Done? && s'.tasks[t].at.role.Led?
            && s'.futures == s.futures[t := Resolved(s'.tasks[t].at.o)]
            && slug !in s'.inflight && s'.inflight == s.inflight - {slug}
            && s'.redis == s.redis
  {
    assert a.Step? && a.t == t;
    assert a.m.Finish? || a.m.LeaderRaises?;
  }

  /** Every parked task can be woken: its leader has at most three awaits left to finish. */
  lemma ParkedTasksCanFinish(s: State, t: TaskId)
    requires Inv(s) && t in s.tasks && s.tasks[t].at.Parked?
    ensures exists r: seq<State>, acts: seq<Action> :: IsRun(Next, r, acts) && r[0] == s && |acts| <= 4
              && t in r[|acts|].tasks && r[|acts|].tasks[t].at.Done? && r[|acts|].tasks[t].at.role.Waited?
  {
    var l := s.tasks[t].at.leader;
    if s.futures[l].Resolved? {
      var s' := Apply(s, Step(t, Wake));
      assert IsRun(Next, [s, s'], [Step(t, Wake)]);
    } else {
      var r, acts := LeaderCanFinish(s, l);
      var last := r[|acts|];
      assert last.tasks[t] == s.tasks[t];
      var s' := Apply(last, Step(t, Wake));
      var r', acts' := r + [s'], acts + [Step(t, Wake)];
      assert IsRun(Next, r', acts');
      assert r'[|acts'|] == s';
    }
  }

  lemma LeaderCanFinish(s: State, l: TaskId) returns (r: seq<State>, acts: seq<Action>)
    requires l in s.tasks && Leading(s.tasks[l].at) && l in s.futures
    ensures IsRun(Next, r, acts) && r[0] == s && |acts| <= 3
    ensures l in r[|acts|].futures && r[|acts|].futures[l].Resolved?
    ensures forall t | t in s.tasks && t != l :: t in r[|acts|].tasks && r[|acts|].tasks[t] == s.tasks[t]
  {
    match s.tasks[l].at
    case WriteServed(_, _) =>
      r, acts := [s, Apply(s, Step(l, Finish))], [Step(l, Finish)];
    case Writing(_) =>
      var s1 := Apply(s, Step(l, ServeWrite));
      r, acts := [s, s1, Apply(s1, Step(l, Finish))], [Step(l, ServeWrite), Step(l, Finish)];
    case Rebuilding =>
      var s1 := Apply(s, Step(l, RebuildReturns(Missing)));
      var s2 := Apply(s1, Step(l, ServeWrite));
      r := [s, s1, s2, Apply(s2, Step(l, Finish))];
      acts := [Step(l, RebuildReturns(Missing)), Step(l, ServeWrite), Step(l, Finish)];
  }

  // --- A failed rebuild is not cached ------------------------------------------

  /** How far a call has come. */
  function Phase(at: Stage): nat {
    match at
    case Reading => 0
    case ReadServed(_) => 1
    case Parked(_) => 2
    case Rebuilding => 2
    case Writing(_) => 3
    case WriteServed(_, _) => 4
    case Done(_, _) => 5
  }

  lemma MovesGrowPhase(s: State, u: TaskId, slug: Slug, at: Stage, m: Move)
    requires CanMove(s, at, m)
    ensures var s' := ApplyMove(s, u, slug, at, m); u in s'.tasks && Phase(at) < Phase(s'.tasks[u].at)
  {
  }

  /** A step leaves a call where it is, or takes it strictly further: a call makes at most five moves. */
  lemma CallsAdvance(s: State, a: Action, t: TaskId)
    requires Enabled(s, a) && t in s.tasks
    ensures t in Apply(s, a).tasks && Apply(s, a).tasks[t].slug == s.tasks[t].slug
    ensures Apply(s, a).tasks[t] == s.tasks[t] || Phase(s.tasks[t].at) < Phase(Apply(s, a).tasks[t].at) <= 5
  {
    if a.Step? {
      MovesSetOnlyTheirTask(s, a.t, s.tasks[a.t].slug, s.tasks[a.t].at, a.m);
      MovesGrowPhase(s, a.t, s.tasks[a.t].slug, s.tasks[a.t].at, a.m);
    }
  }

  lemma PhasesGrow(r: seq<State>, acts: seq<Action>, i: nat, j: nat, t: TaskId)
    requires IsRun(Next, r, acts) && i <= j < |r| && t in r[i].tasks
    ensures t in r[j].tasks && Phase(r[i].tasks[t].at) <= Phase(r[j].tasks[t].at)
  {
    var n := Phase(r[i].tasks[t].at);
    var behind := (s: State) => t !in s.tasks || Phase(s.tasks[t].at) < n;
    if behind(r[j]) {
      var k := Crossing(behind, r, i, j);
      CallsAdvance(r[k], acts[k], t);
    }
  }

  /** At any moment of a run, a leader whose rebuild raises has had no write served and will have none. */
  lemma FailedRebuildsAreNotCached(r: seq<State>, acts: seq<Action>, j: nat, l: TaskId, e: Error, i: nat)
    requires IsRun(Next, r, acts) && i < |acts| && j < |acts|
    requires acts[j] == Step(l, LeaderRaises(e)) && l in r[j].tasks && r[j].tasks[l].at.Rebuilding?
    ensures acts[i].Step? && acts[i].t == l ==> !acts[i].m.ServeWrite? && !acts[i].m.FailWrite?
  {
    assert Next(r[i], acts[i], r[i + 1]) && Next(r[j], acts[j], r[j + 1]);
    if acts[i].Step? && acts[i].t == l {
      if i < j {
        PhasesGrow(r, acts, i, j, l);
      } else if i > j {
        PhasesGrow(r, acts, j + 1, i, l);
      }
    }
  }

  // --- What a call answers -----------------------------------------------------

  /** A call that has come no further has not moved. */
  lemma CallsWait(r: seq<State>, acts: seq<Action>, i: nat, j: nat, t: TaskId)
    requires IsRun(Next, r, acts) && i <= j < |r| && t in r[i].tasks
    requires t in r[j].tasks && Phase(r[j].tasks[t].at) == Phase(r[i].tasks[t].at)
    ensures r[j].tasks[t] == r[i].tasks[t]
  {
    var task := r[i].tasks[t];
    var moved := (s: State) => !(t in s.tasks && s.tasks[t] == task);
    if moved(r[j]) {
      var k := Crossing(moved, r, i, j);
      CallsAdvance(r[k], acts[k], t);
      PhasesGrow(r, acts, k + 1, j, t);
    }
  }

  /** The read of `t` is answered at step `i` and acted on at step `j`. */
  ghost predicate ReadAndResume(r: seq<State>, acts: seq<Action>, i: nat, j: nat, t: TaskId, slug: Slug, read: Move) {
    && IsRun(Next, r, acts) && i < j < |acts|
    && acts[i] == Step(t, read) && acts[j] == Step(t, Resume)
    && t in r[i].tasks && r[i].tasks[t].slug == slug
  }

  /** A call acts on the reply it was given, whatever happened meanwhile. */
  lemma RepliesAreKept(r: seq<State>, acts: seq<Action>, i: nat, j: nat, t: TaskId, slug: Slug, read: Move,
                       reply: Reply)
    requires ReadAndResume(r, acts, i, j, t, slug, read)
    requires t in r[i + 1].tasks && r[i + 1].tasks[t] == Task(slug, ReadServed(reply))
    ensures t in r[j].tasks && r[j].tasks[t] == Task(slug, ReadServed(reply))
  {
    assert Next(r[j], acts[j], r[j + 1]);
    CallsWait(r, acts, i + 1, j, t);
  }

  /** Only the call itself has changed. */
  ghost predicate NothingElse(s: State, s': State) {
    s'.inflight == s.inflight && s'.futures == s.futures && s'.redis == s.redis
  }

  /** A cache hit returns the value Redis held when it served the read, and touches nothing. */
  lemma HitsAreReturned(r: seq<State>, acts: seq<Action>, i: nat, j: nat, t: TaskId, slug: Slug, v: Cached)
    requires ReadAndResume(r, acts, i, j, t, slug, ServeRead)
    requires slug in r[i].redis && r[i].redis[slug] == Entry(v)
    ensures t in r[j + 1].tasks && r[j + 1].tasks[t] == Task(slug, Done(Direct, Value(v)))
    ensures NothingElse(r[j], r[j + 1])
  {
    assert Next(r[i], acts[i], r[i + 1]) && Next(r[j], acts[j], r[j + 1]);
    RepliesAreKept(r, acts, i, j, t, slug, ServeRead, Hit(v));
  }

  /** A read that fails ends the call with its own exception, and touches nothing. */
  lemma FailedReadsRaise(r: seq<State>, acts: seq<Action>, i: nat, j: nat, t: TaskId, slug: Slug, e: Error)
    requires ReadAndResume(r, acts, i, j, t, slug, FailRead(e))
    ensures t in r[j + 1].tasks && r[j + 1].tasks[t] == Task(slug, Done(Direct, Raised(e)))
    ensures NothingElse(r[j], r[j + 1])
  {
    assert Next(r[i], acts[i], r[i + 1]) && Next(r[j], acts[j], r[j + 1]);
    RepliesAreKept(r, acts, i, j, t, slug, FailRead(e), ReadFailed(e));
  }

  /** A payload that cannot be decoded raises: it is neither a hit nor a miss. */
  lemma BadPayloadsRaise(r: seq<State>, acts: seq<Action>, i: nat, j: nat, t: TaskId, slug: Slug)
    requires ReadAndResume(r, acts, i, j, t, slug, ServeRead)
    requires slug in r[i].redis && r[i].redis[slug] == Garbage
    ensures t in r[j + 1].tasks && r[j + 1].tasks[t].at.Done? && r[j + 1].tasks[t].at.role.Direct?
    ensures r[j + 1].tasks[t].at.o.Raised? && NothingElse(r[j], r[j + 1])
  {
    assert Next(r[i], acts[i], r[i + 1]) && Next(r[j], acts[j], r[j + 1]);
    RepliesAreKept(r, acts, i, j, t, slug, ServeRead, r[i + 1].tasks[t].at.reply);
  }

  /** A miss parks on the slot's future if there is one, and else takes the slot with a pending future. */
  lemma MissesParkOrLead(r: seq<State>, acts: seq<Action>, i: nat, j: nat, t: TaskId, slug: Slug)
    requires ReadAndResume(r, acts, i, j, t, slug, ServeRead) && slug !in r[i].redis
    ensures t in r[j + 1].tasks && r[j + 1].redis == r[j].redis
    ensures slug in r[j].inflight ==>
              r[j + 1].tasks[t] == Task(slug, Parked(r[j].inflight[slug])) && NothingElse(r[j], r[j + 1])
    ensures slug !in r[j].inflight ==>
              && r[j + 1].tasks[t] == Task(slug, Rebuilding)
              && r[j + 1].inflight == r[j].inflight[slug := t] && r[j + 1].futures == r[j].futures[t := Pending]
  {
    assert Next(r[i], acts[i], r[i + 1]) && Next(r[j], acts[j], r[j + 1]);
    RepliesAreKept(r, acts, i, j, t, slug, ServeRead, Absent);
  }

  /** The leader and its future end with the outcome. */
  ghost predicate LedTo(s: State, l: TaskId, o: Outcome) {
    l in s.tasks && s.tasks[l].at == Done(Led, o) && l in s.futures && s.futures[l] == Resolved(o)
  }

  /** A leader whose rebuild raises, or which is cancelled, ends with that exception, and so does its future. */
  lemma RaisingLeadersRaise(r: seq<State>, acts: seq<Action>, j: nat, l: TaskId, e: Error)
    requires IsRun(Next, r, acts) && j < |acts| && acts[j] == Step(l, LeaderRaises(e))
    ensures LedTo(r[j + 1], l, Raised(e))
  {
    assert Next(r[j], acts[j], r[j + 1]);
  }

  /** A leader whose write fails ends with the write's exception, and so does its future. */
  lemma FailedWritesRaise(r: seq<State>, acts: seq<Action>, i: nat, j: nat, l: TaskId, e: Error, applied: bool)
    requires IsRun(Next, r, acts) && i < j < |acts|
    requires acts[i] == Step(l, FailWrite(e, applied)) && acts[j] == Step(l, Finish)
    ensures LedTo(r[j + 1], l, Raised(e))
  {
    assert Next(r[i], acts[i], r[i + 1]) && Next(r[j], acts[j], r[j + 1]);
    CallsWait(r, acts, i + 1, j, l);
  }

  /** A leader whose rebuild returned `v` writes `v`, and once that is acknowledged ends with `v`. */
  lemma LeadersSucceed(r: seq<State>, acts: seq<Action>, h: nat, i: nat, j: nat, l: TaskId, v: Cached)
    requires IsRun(Next, r, acts) && h < i < j < |acts|
    requires acts[h] == Step(l, RebuildReturns(v)) && acts[i] == Step(l, ServeWrite) && acts[j] == Step(l, Finish)
    ensures l in r[i].tasks
    ensures r[i + 1].redis == r[i].redis[r[i].tasks[l].slug := Entry(v)]
    ensures LedTo(r[j + 1], l, Value(v))
  {
    assert Next(r[h], acts[h], r[h + 1]) && Next(r[i], acts[i], r[i + 1]) && Next(r[j], acts[j], r[j + 1]);
    CallsWait(r, acts, h + 1, i, l);
    CallsWait(r, acts, i + 1, j, l);
  }

  /** A waiter that wakes ends with what its leader ended with; one that is cancelled ends cancelled. */
  lemma WaitersEnd(r: seq<State>, acts: seq<Action>, j: nat, t: TaskId, l: TaskId)
    requires IsRun(Next, r, acts) && Init(r[0]) && j < |acts| && acts[j].Step? && acts[j].t == t
    requires t in r[j].tasks && r[j].tasks[t].at == Parked(l)
    ensures t in r[j + 1].tasks && r[j + 1].tasks[t].at.Done? && NothingElse(r[j], r[j + 1])
    ensures acts[j].m.Wake? ==> LedTo(r[j], l, r[j + 1].tasks[t].at.o)
    ensures !acts[j].m.Wake? ==> r[j + 1].tasks[t].at.o == Raised(Cancelled)
  {
    RunKeepsInv(r, acts, j);
    assert Next(r[j], acts[j], r[j + 1]);
  }

  // --- Where answers come from -------------------------------------------------

  /** The task holds, or has returned, the hit `v`. */
  ghost predicate HasHit(s: State, t: TaskId, slug: Slug, v: Cached) {
    t in s.tasks && (s.tasks[t] == Task(slug, ReadServed(Hit(v))) || s.tasks[t] == Task(slug, Done(Direct, Value(v))))
  }

  lemma HitIsServed(s: State, a: Action, t: TaskId, slug: Slug, v: Cached)
    requires Enabled(s, a) && HasHit(Apply(s, a), t, slug, v) && !HasHit(s, t, slug, v)
    ensures a == Step(t, ServeRead) && slug in s.redis && s.redis[slug] == Entry(v)
  {
  }

  /** A call that returns without parking or leading returns what Redis held when it served the read, and never led. */
  lemma HitsComeFromRedis(r: seq<State>, acts: seq<Action>, k: nat, t: TaskId, slug: Slug, v: Cached)
    requires IsRun(Next, r, acts) && Init(r[0]) && k < |r|
    requires t in r[k].tasks && r[k].tasks[t] == Task(slug, Done(Direct, Value(v)))
    ensures t !in r[k].futures
    ensures exists i ::
              0 <= i < k && acts[i] == Step(t, ServeRead) && slug in r[i].redis && r[i].redis[slug] == Entry(v)
  {
    RunKeepsInv(r, acts, k);
    var i := Crossing((s: State) => HasHit(s, t, slug, v), r, 0, k);
    HitIsServed(r[i], acts[i], t, slug, v);
  }

  /** The leader carries the answer `v` of its rebuild. */
  ghost predicate HasRebuilt(s: State, t: TaskId, slug: Slug, v: Cached) {
    && t in s.tasks && s.tasks[t].slug == slug
    && var at := s.tasks[t].at;
       at == Writing(v) || (at.WriteServed? && at.w == v) || at == Done(Led, Value(v))
  }

  lemma AnswerIsRebuilt(s: State, a: Action, t: TaskId, slug: Slug, v: Cached)
    requires Enabled(s, a) && HasRebuilt(Apply(s, a), t, slug, v) && !HasRebuilt(s, t, slug, v)
    ensures a == Step(t, RebuildReturns(v))
  {
  }

  /** A leader that succeeds returns what its own rebuild returned. */
  lemma LeadersReturnTheirRebuild(r: seq<State>, acts: seq<Action>, k: nat, l: TaskId, slug: Slug, v: Cached)
    requires IsRun(Next, r, acts) && Init(r[0]) && k < |r|
    requires l in r[k].tasks && r[k].tasks[l] == Task(slug, Done(Led, Value(v)))
    ensures exists i :: 0 <= i < k && acts[i] == Step(l, RebuildReturns(v))
  {
    var i := Crossing((s: State) => HasRebuilt(s, l, slug, v), r, 0, k);
    AnswerIsRebuilt(r[i], acts[i], l, slug, v);
  }

  // --- The write comes before the wake-up --------------------------------------

  /** The stages at which Redis has acknowledged the leader's write of `v`. */
  ghost predicate WriteAcknowledged(s: State, t: TaskId, slug: Slug, v: Cached) {
    && t in s.tasks && s.tasks[t].slug == slug
    && (s.tasks[t].at == WriteServed(v, None) || s.tasks[t].at == Done(Led, Value(v)))
  }

  lemma AcknowledgedByWriting(s: State, a: Action, l: TaskId, slug: Slug, v: Cached)
    requires Enabled(s, a) && WriteAcknowledged(Apply(s, a), l, slug, v) && !WriteAcknowledged(s, l, slug, v)
    ensures a == Step(l, ServeWrite) && l in s.tasks && s.tasks[l] == Task(slug, Writing(v))
    ensures slug in Apply(s, a).redis && Apply(s, a).redis[slug] == Entry(v)
  {
  }

  /** Before a leader's success there was a moment at which Redis took exactly that value. */
  lemma SuccessWasWritten(r: seq<State>, acts: seq<Action>, j: nat, l: TaskId, slug: Slug, v: Cached)
    requires IsRun(Next, r, acts) && Init(r[0]) && j < |r|
    requires WriteAcknowledged(r[j], l, slug, v)
    ensures exists i :: 0 <= i < j && acts[i] == Step(l, ServeWrite)
              && l in r[i].tasks && r[i].tasks[l] == Task(slug, Writing(v))
              && slug in r[i + 1].redis && r[i + 1].redis[slug] == Entry(v)
  {
    var i := Crossing((s: State) => WriteAcknowledged(s, l, slug, v), r, 0, j);
    AcknowledgedByWriting(r[i], acts[i], l, slug, v);
  }

  /** On success the Redis write is complete before any waiter resumes. */
  lemma {:induction false} WriteComesBeforeWake(r: seq<State>, acts: seq<Action>, j: nat, t: TaskId)
    requires IsRun(Next, r, acts) && Init(r[0]) && j < |acts|
    requires acts[j] == Step(t, Wake) && r[j + 1].tasks[t].at.o.Value?
    ensures var Task(slug, Done(Waited(l), Value(v))) := r[j + 1].tasks[t];
            exists i :: 0 <= i < j && acts[i] == Step(l, ServeWrite)
              && slug in r[i + 1].redis && r[i + 1].redis[slug] == Entry(v)
  {
    RunKeepsInv(r, acts, j);
    var Task(slug, Done(Waited(l), Value(v))) := r[j + 1].tasks[t];
    SuccessWasWritten(r, acts, j, l, slug, v);
  }

  // --- Once per herd, exactly --------------------------------------------------

  /** The action elects a leader, which runs `rebuild` for the slug. */
  ghost predicate StartsRebuild(s: State, a: Action, slug: Slug) {
    && a.Step? && a.m.Resume?
    && a.t in s.tasks && s.tasks[a.t] == Task(slug, ReadServed(Absent))
    && slug !in s.inflight
  }

  /** A task that Redis has already told "absent" but which has not resumed. */
  ghost predicate HoldsStaleMiss(s: State, t: TaskId, slug: Slug) {
    t in s.tasks && s.tasks[t] == Task(slug, ReadServed(Absent))
  }

  ghost predicate StaysCached(r: seq<State>, slug: Slug, i: nat, j: nat) {
    forall k :: i <= k <= j && k < |r| ==> slug in r[k].redis
  }

  lemma NoFreshMissWhileCached(s: State, a: Action, t: TaskId, slug: Slug)
    requires Enabled(s, a) && slug in s.redis && HoldsStaleMiss(Apply(s, a), t, slug)
    ensures HoldsStaleMiss(s, t, slug)
  {
  }

  /**
   * Once an entry is in Redis and is not removed, only a task whose read was served
   * before can lead another rebuild of the slug.
   */
  lemma OnlyStaleReadersLead(r: seq<State>, acts: seq<Action>, i: nat, j: nat, t: TaskId, slug: Slug)
    requires IsRun(Next, r, acts) && i <= j < |r| && StaysCached(r, slug, i, j)
    requires HoldsStaleMiss(r[j], t, slug)
    ensures HoldsStaleMiss(r[i], t, slug)
  {
    if !HoldsStaleMiss(r[i], t, slug) {
      var k := Crossing((s: State) => HoldsStaleMiss(s, t, slug), r, i, j);
      NoFreshMissWhileCached(r[k], acts[k], t, slug);
    }
  }

  /** Some continuation that keeps the entry cached runs `rebuild` again. */
  ghost predicate CanRebuildAgain(s: State, slug: Slug) {
    exists r: seq<State>, acts: seq<Action>, j: nat :: IsRun(Next, r, acts) && r[0] == s && j < |acts|
      && StaysCached(r, slug, 0, j) && StartsRebuild(r[j], acts[j], slug)
  }

  /**
   * "Once per herd" holds exactly when nobody holds a stale miss: with the entry cached and
   * the leader gone, a further rebuild can happen if and only if some task was told "absent"
   * and has not resumed.
   */
  lemma {:induction false} OncePerHerdExactly(s: State, slug: Slug)
    requires slug in s.redis && slug !in s.inflight
    ensures CanRebuildAgain(s, slug) <==> exists t :: HoldsStaleMiss(s, t, slug)
  {
    if CanRebuildAgain(s, slug) {
      var r: seq<State>, acts: seq<Action>, j: nat :| IsRun(Next, r, acts) && r[0] == s && j < |acts|
        && StaysCached(r, slug, 0, j) && StartsRebuild(r[j], acts[j], slug);
      OnlyStaleReadersLead(r, acts, 0, j, acts[j].t, slug);
    }
    if t :| HoldsStaleMiss(s, t, slug) {
      var a := Step(t, Resume);
      var r, acts := [s, Apply(s, a)], [a];
      assert IsRun(Next, r, acts) && StaysCached(r, slug, 0, 0) && StartsRebuild(r[0], acts[0], slug);
    }
  }

  /** The unconditional claim is false: two readers, one entry never removed, two rebuilds. */
  lemma HerdCanRebuildTwice(slug: Slug, v: Cached)
    ensures exists r: seq<State>, acts: seq<Action> :: IsRun(Next, r, acts) && Init(r[0]) && |acts| == 8
              && StartsRebuild(r[4], acts[4], slug)
              && r[8].futures == map[0 := Resolved(Value(v))] && slug in r[8].redis
              && CanRebuildAgain(r[8], slug)
  {
    var r, acts := TwoStaleReaders(slug);
    var q, more := LeadToTheEnd(r[4], 0, slug, v);
    Join(Next, r, acts, q, more);
    assert HoldsStaleMiss(q[4], 1, slug);
    OncePerHerdExactly(q[4], slug);
    assert (r + q[1..])[4] == r[4] && (acts + more)[4] == more[0];
  }

  /** Two tasks read an empty cache before either resumes. */
  lemma TwoStaleReaders(slug: Slug) returns (r: seq<State>, acts: seq<Action>)
    ensures IsRun(Next, r, acts) && |acts| == 4 && Init(r[0])
    ensures r[4] == State(map[0 := Task(slug, ReadServed(Absent)), 1 := Task(slug, ReadServed(Absent))],
                          map[], map[], map[])
  {
    var s0 := State(map[], map[], map[], map[]);
    var s1 := Apply(s0, Start(0, slug));
    var s2 := Apply(s1, Start(1, slug));
    var s3 := Apply(s2, Step(0, ServeRead));
    var s4 := Apply(s3, Step(1, ServeRead));
    r := [s0, s1, s2, s3, s4];
    acts := [Start(0, slug), Start(1, slug), Step(0, ServeRead), Step(1, ServeRead)];
  }

  /** A stale reader with a free slot leads, rebuilds, writes and leaves. */
  lemma LeadToTheEnd(s: State, t: TaskId, slug: Slug, v: Cached) returns (r: seq<State>, acts: seq<Action>)
    requires HoldsStaleMiss(s, t, slug) && slug !in s.inflight
    ensures IsRun(Next, r, acts) && |acts| == 4 && r[0] == s && StartsRebuild(s, acts[0], slug)
    ensures r[4] == State(s.tasks[t := Task(slug, Done(Led, Value(v)))], s.inflight,
                          s.futures[t := Resolved(Value(v))], s.redis[slug := Entry(v)])
  {
    var s1 := Apply(s, Step(t, Resume));
    var s2 := Apply(s1, Step(t, RebuildReturns(v)));
    var s3 := Apply(s2, Step(t, ServeWrite));
    var s4 := Apply(s3, Step(t, Finish));
    r := [s, s1, s2, s3, s4];
    acts := [Step(t, Resume), Step(t, RebuildReturns(v)), Step(t, ServeWrite), Step(t, Finish)];
  }

  // --- Cancelling a waiter -----------------------------------------------------

  ghost predicate NotBy(a: Action, t: TaskId) {
    (a.Start? || a.Step?) ==> a.t != t
  }

  /** The run in which task `t` stands at `task` throughout, everything else being the same. */
  function Replace(r: seq<State>, t: TaskId, task: Task): seq<State> {
    seq(|r|, i requires 0 <= i < |r| => Goto(r[i], t, task))
  }

  /** A move sets the task's own position and no other. */
  lemma MovesSetOnlyTheirTask(s: State, u: TaskId, slug: Slug, at: Stage, m: Move)
    requires CanMove(s, at, m)
    ensures var s' := ApplyMove(s, u, slug, at, m); u in s'.tasks && s'.tasks == s.tasks[u := s'.tasks[u]]
  {
  }

  lemma ReadersReadOnlyTheirTask(s: State, u: TaskId, slug: Slug, reply: Reply, q: State, s': State, q': State)
    requires q == s.(tasks := q.tasks) && s' == AfterRead(s, u, slug, reply) && q' == AfterRead(q, u, slug, reply)
    ensures u in s'.tasks && q' == s'.(tasks := q.tasks[u := s'.tasks[u]])
  {
  }

  lemma LeaversReadOnlyTheirTask(s: State, u: TaskId, slug: Slug, o: Outcome, q: State, s': State, q': State)
    requires q == s.(tasks := q.tasks) && s' == Leave(s, u, slug, o) && q' == Leave(q, u, slug, o)
    ensures u in s'.tasks && q' == s'.(tasks := q.tasks[u := s'.tasks[u]])
  {
  }

  /** A move of `u` reads no other task's position. */
  lemma MovesReadOnlyTheirTask(s: State, u: TaskId, slug: Slug, at: Stage, m: Move, q: State, s': State, q': State)
    requires CanMove(s, at, m) && q == s.(tasks := q.tasks)
    requires s' == ApplyMove(s, u, slug, at, m) && q' == ApplyMove(q, u, slug, at, m)
    ensures u in s'.tasks && q' == s'.(tasks := q.tasks[u := s'.tasks[u]])
  {
    match m
    case Resume => ReadersReadOnlyTheirTask(s, u, slug, at.reply, q, s', q');
    case Finish =>
      LeaversReadOnlyTheirTask(s, u, slug, if at.err.None? then Value(at.w) else Raised(at.err.value), q, s', q');
    case LeaderRaises(e) => LeaversReadOnlyTheirTask(s, u, slug, Raised(e), q, s', q');
    case FailWrite(_, _) =>
    case _ =>
  }

  /** Nobody else's step reads the position of `t`. */
  lemma OthersCannotSee(s: State, t: TaskId, task: Task, a: Action)
    requires t in s.tasks && NotBy(a, t)
    ensures Enabled(s, a) <==> Enabled(Goto(s, t, task), a)
    ensures Enabled(s, a) ==>
              t in Apply(s, a).tasks && Apply(Goto(s, t, task), a) == Goto(Apply(s, a), t, task)
  {
    if a.Step? && Enabled(s, a) {
      MovesSetOnlyTheirTask(s, a.t, s.tasks[a.t].slug, s.tasks[a.t].at, a.m);
      var q := Goto(s, t, task);
      MovesReadOnlyTheirTask(s, a.t, s.tasks[a.t].slug, s.tasks[a.t].at, a.m, q, Apply(s, a), Apply(q, a));
    }
    if Enabled(s, a) && (a.Step? || a.Start?) {
      var u := a.t;
      var x := Apply(s, a).tasks[u];
      assert s.tasks[t := task][u := x] == s.tasks[u := x][t := task];
    }
  }

  lemma {:induction false} TasksStay(r: seq<State>, acts: seq<Action>, t: TaskId, k: nat)
    requires IsRun(Next, r, acts) && t in r[0].tasks && k < |r|
    requires forall i | 0 <= i < |acts| :: NotBy(acts[i], t)
    ensures t in r[k].tasks
  {
    if k > 0 {
      TasksStay(r, acts, t, k - 1);
      OthersCannotSee(r[k - 1], t, r[k - 1].tasks[t], acts[k - 1]);
    }
  }

  lemma ReplacedRun(r: seq<State>, acts: seq<Action>, t: TaskId, task: Task)
    requires IsRun(Next, r, acts) && t in r[0].tasks
    requires forall i | 0 <= i < |acts| :: NotBy(acts[i], t)
    ensures IsRun(Next, Replace(r, t, task), acts)
  {
    forall i | 0 <= i < |acts|
      ensures Next(Goto(r[i], t, task), acts[i], Goto(r[i + 1], t, task))
    {
      TasksStay(r, acts, t, i);
      OthersCannotSee(r[i], t, task, acts[i]);
    }
  }

  /**
   * Cancelling a waiter changes nothing for anyone else: the runs of the others after `t`
   * hangs up are the runs they had while `t` was parked, state for state, in both directions.
   */
  lemma CancelledWaiterIsUnobservable(s: State, t: TaskId, acts: seq<Action>, r: seq<State>, q: seq<State>)
    requires t in s.tasks && s.tasks[t].at.Parked?
    requires forall i | 0 <= i < |acts| :: NotBy(acts[i], t)
    ensures var hung := Apply(s, Step(t, HangUp));
            && (IsRun(Next, r, acts) && r[0] == s ==>
                  IsRun(Next, Replace(r, t, hung.tasks[t]), acts) && Replace(r, t, hung.tasks[t])[0] == hung)
            && (IsRun(Next, q, acts) && q[0] == hung ==>
                  IsRun(Next, Replace(q, t, s.tasks[t]), acts) && Replace(q, t, s.tasks[t])[0] == s)
  {
    var hung := Apply(s, Step(t, HangUp));
    if IsRun(Next, r, acts) && r[0] == s {
      ReplacedRun(r, acts, t, hung.tasks[t]);
    }
    if IsRun(Next, q, acts) && q[0] == hung {
      ReplacedRun(q, acts, t, s.tasks[t]);
      assert Goto(hung, t, s.tasks[t]).tasks == s.tasks;
    }
  }

  // --- What the shield buys ----------------------------------------------------

  /** Hanging up without the shield: cancelling the waiter cancels the future it awaits. */
  function HangUpUnshielded(s: State, t: TaskId, l: TaskId): State
    requires t in s.tasks
  {
    Goto(s, t, Task(s.tasks[t].slug, Done(HungUp(l), Raised(Cancelled)))).(
      futures := s.futures[l := Resolved(Raised(Cancelled))])
  }

  /**
   * With two waiters on a live leader: without the shield, one hanging up makes the other end
   * cancelled while the leader still works; with it, the other stays parked until the leader leaves.
   */
  lemma UnshieldedHangUpHarms(s: State, t: TaskId, u: TaskId, l: TaskId)
    requires Inv(s) && t != u && t in s.tasks && u in s.tasks && l in s.futures && s.futures[l] == Pending
    requires s.tasks[t].at == Parked(l) && s.tasks[u].at == Parked(l)
    ensures var bare := HangUpUnshielded(s, t, l);
            && !Inv(bare) && Enabled(bare, Step(u, Wake))
            && l in bare.tasks && Leading(bare.tasks[l].at)
            && Apply(bare, Step(u, Wake)).tasks[u].at == Done(Waited(l), Raised(Cancelled))
    ensures Enabled(s, Step(t, HangUp)) && !Enabled(Apply(s, Step(t, HangUp)), Step(u, Wake))
  {
    var bare := HangUpUnshielded(s, t, l);
    assert bare.tasks[l] == s.tasks[l];
    assert l in bare.futures && bare.futures[l].Resolved?;
  }

  /** A task that misses while the slot is held parks. */
  lemma ParkOne(s: State, t: TaskId, slug: Slug) returns (r: seq<State>, acts: seq<Action>)
    requires t !in s.tasks && slug !in s.redis && slug in s.inflight
    ensures IsRun(Next, r, acts) && |acts| == 3 && r[0] == s
    ensures r[3] == Goto(s, t, Task(slug, Parked(s.inflight[slug])))
  {
    var s1 := Goto(s, t, Task(slug, Reading));
    var s2 := Goto(s, t, Task(slug, ReadServed(Absent)));
    var s3 := Goto(s, t, Task(slug, Parked(s.inflight[slug])));
    r, acts := [s, s1, s2, s3], [Start(t, slug), Step(t, ServeRead), Step(t, Resume)];
  }

  lemma LeadOne(slug: Slug) returns (r: seq<State>, acts: seq<Action>)
    ensures IsRun(Next, r, acts) && |acts| == 3 && Init(r[0])
    ensures r[3] == State(map[0 := Task(slug, Rebuilding)], map[slug := 0], map[0 := Pending], map[])
  {
    var s0 := State(map[], map[], map[], map[]);
    var s1 := State(map[0 := Task(slug, Reading)], map[], map[], map[]);
    var s2 := State(map[0 := Task(slug, ReadServed(Absent))], map[], map[], map[]);
    var s3 := State(map[0 := Task(slug, Rebuilding)], map[slug := 0], map[0 := Pending], map[]);
    r, acts := [s0, s1, s2, s3], [Start(0, slug), Step(0, ServeRead), Step(0, Resume)];
  }

  /** Such a state is reached: one leader, two waiters. */
  lemma TwoWaitersOnOneLeader(slug: Slug) returns (r: seq<State>, acts: seq<Action>)
    ensures IsRun(Next, r, acts) && |acts| == 9 && Init(r[0])
    ensures var s := r[9]; && 0 in s.futures && s.futures[0] == Pending && 1 in s.tasks && 2 in s.tasks
                           && s.tasks[1] == Task(slug, Parked(0)) && s.tasks[2] == Task(slug, Parked(0))
  {
    r, acts := LeadOne(slug);
    var q1, more1 := ParkOne(r[3], 1, slug);
    Join(Next, r, acts, q1, more1);
    r, acts := r + q1[1..], acts + more1;
    assert r[6] == r[3 + 3] == q1[3];
    var q2, more2 := ParkOne(r[6], 2, slug);
    Join(Next, r, acts, q2, more2);
    r, acts := r + q2[1..], acts + more2;
    assert r[9] == r[6 + 3] == q2[3];
  }

  /** So the shield is needed: a reachable state in which hanging up without it harms another waiter. */
  lemma ShieldIsNeeded(slug: Slug)
    ensures exists r: seq<State>, acts: seq<Action> ::
              && IsRun(Next, r, acts) && Init(r[0]) && |acts| == 9
              && 1 in r[9].tasks && Enabled(HangUpUnshielded(r[9], 1, 0), Step(2, Wake))
              && Apply(HangUpUnshielded(r[9], 1, 0), Step(2, Wake)).tasks[2].at == Done(Waited(0), Raised(Cancelled))
  {
    var r, acts := TwoWaitersOnOneLeader(slug);
    RunKeepsInv(r, acts, 9);
    UnshieldedHangUpHarms(r[9], 1, 2, 0);
  }

  // --- The code between the awaits ---------------------------------------------

  /**
   * The object itself: the dictionary of slots and the futures in it.  Each method is one
   * stretch of `get_or_rebuild` that no other task can interrupt, and is proved to take
   * exactly the step of the transition system.
   */
  class Cache {
    var inflight: map<Slug, TaskId>
    var futures: map<TaskId, Future>

    ghost predicate Holds(s: State)
      reads this
    {
      inflight == s.inflight && futures == s.futures
    }

    constructor ()
      ensures inflight == map[] && futures == map[]
    {
      inflight, futures := map[], map[];
    }

    /** From the answer of `self.get` to the next await: return, park, or become the leader. */
    method AfterGet(ghost s: State, t: TaskId, slug: Slug, reply: Reply) returns (at: Stage)
      requires Holds(s)
      requires t in s.tasks && s.tasks[t] == Task(slug, ReadServed(reply))
      modifies this
      ensures var s' := Apply(s, Step(t, Resume));
              Holds(s') && s'.tasks == s.tasks[t := Task(slug, at)] && s'.redis == s.redis
      ensures reply.Hit? ==> at == Done(Direct, Value(reply.v)) && unchanged(this)
      ensures reply.ReadFailed? ==> at == Done(Direct, Raised(reply.e)) && unchanged(this)
      ensures reply.Absent? && slug in old(inflight) ==> at == Parked(old(inflight)[slug]) && unchanged(this)
      ensures reply.Absent? && slug !in old(inflight) ==>
                at == Rebuilding && inflight == old(inflight)[slug := t] && futures == old(futures)[t := Pending]
    {
      match reply
      case ReadFailed(e) =>
        at := Done(Direct, Raised(e));
      case Hit(v) =>
        at := Done(Direct, Value(v));
      case Absent =>
        if slug in inflight {
          at := Parked(inflight[slug]);
          return;
        }
        futures := futures[t := Pending];
        inflight := inflight[slug := t];
        at := Rebuilding;
    }

    /** The `else` and `finally` arms: the write has been acknowledged. */
    method Succeed(ghost s: State, t: TaskId, slug: Slug, v: Cached) returns (at: Stage)
      requires Holds(s) && Inv(s)
      requires t in s.tasks && s.tasks[t] == Task(slug, WriteServed(v, None))
      modifies this
      ensures var s' := Apply(s, Step(t, Finish));
              Holds(s') && s'.tasks == s.tasks[t := Task(slug, at)] && s'.redis == s.redis
    {
      assert futures[t] == Pending;  // `set_result` raises on a future that is already done
      futures := futures[t := Resolved(Value(v))];
      at := Done(Led, Value(v));
      inflight := inflight - {slug};
    }

    /** The `except` and `finally` arms: the rebuild or the write raised, or the leader was cancelled. */
    method Fail(ghost s: State, t: TaskId, slug: Slug, e: Error) returns (at: Stage)
      requires Holds(s) && Inv(s) && LeadsSlot(s, t, slug)
      modifies this
      ensures var s' := Apply(s, Step(t, LeaderRaises(e)));
              Holds(s') && s'.tasks == s.tasks[t := Task(slug, at)] && s'.redis == s.redis
    {
      if futures[t].Pending? {
        futures := futures[t := Resolved(Raised(e))];
      }
      at := Done(Led, Raised(e));
      inflight := inflight - {slug};
    }
  }
}
