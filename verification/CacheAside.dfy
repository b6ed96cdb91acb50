/**
 * Cache-aside resolution (`resolve_slug`) racing with link creation (`create_link`).
 *
 * Any number of resolvers and creators share one Redis and one append-only table of links.
 * A Redis read, a select and an insert are served at one moment and handed to the task later.
 * A Redis write goes on the wire when it is issued, and Redis may serve it at any later time or
 * never: a task that gives up on a write, or is cancelled, leaves the command on the wire.
 * A task issues at most one Redis write, so a command is named by the task that sent it.
 */
module CacheAside {
  import opened Options
  import opened CacheEntries
  import opened Runs

  type TaskId = nat

  datatype Row = Row(id: int, url: string)

  datatype Command = SetFound(slug: Slug, row: Row) | SetMissing(slug: Slug) | Delete(slug: Slug)

  /** What `Cache.get` gives the resolver; every error degrades alike. */
  datatype Reply = Hit(row: Row) | Negative | Absent | Unavailable

  datatype CacheOutcome = HIT | NEGATIVE | MISS | DEGRADED

  datatype Answer = Resolved(outcome: CacheOutcome, link: Option<Row>) | Created(row: Row) | Refused | Failed

  datatype Stage =
    | Getting
    | Got(reply: Reply)
    | Selecting(degraded: bool)
    | Selected(degraded: bool, found: Option<Row>)
    | BackFilling(link: Option<Row>)
    | Inserting(row: Row)
    | Inserted(row: Row, ok: bool)
    | Deleting(row: Row)
    | Answered(answer: Answer)

  datatype Task = Task(slug: Slug, at: Stage)

  datatype State = State(
    tasks: map<TaskId, Task>,
    db: map<Slug, Row>,
    cache: map<Slug, Stored>,
    wire: map<TaskId, Command>)

  /** What one task does next; `Abort` is a Postgres failure or a cancellation. */
  datatype Move =
    | ServeGet
    | FailGet
    | AfterGet
    | ServeSelect
    | AfterSelect
    | AfterBackFill
    | ServeInsert
    | FailInsert(applied: bool)
    | AfterInsert
    | AfterDelete
    | Abort

  datatype Action =
    | StartResolve(t: TaskId, slug: Slug)
    | StartCreate(t: TaskId, slug: Slug, row: Row)
    | Step(t: TaskId, m: Move)
    | Serve(t: TaskId)
    | Drop(t: TaskId)
    | OtherInsert(slug: Slug, row: Row)
    | Expire(slug: Slug)
    | Corrupt(slug: Slug)

  // --- The transition system ---------------------------------------------------

  function Lookup(db: map<Slug, Row>, slug: Slug): Option<Row> {
    if slug in db then Some(db[slug]) else None
  }

  function ReplyOf(cache: map<Slug, Stored>, slug: Slug): Reply {
    if slug !in cache then Absent
    else match cache[slug]
      case Entry(Found(id, url)) => Hit(Row(id, url))
      case Entry(Missing) => Negative
      case Garbage => Unavailable
  }

  function Execute(cache: map<Slug, Stored>, c: Command): map<Slug, Stored> {
    match c
    case SetFound(slug, row) => cache[slug := Entry(Found(row.id, row.url))]
    case SetMissing(slug) => cache[slug := Entry(Missing)]
    case Delete(slug) => cache - {slug}
  }

  /** The resolver, from the answer of `cache.get` to its next await. */
  function NextAfterGet(reply: Reply): Stage {
    match reply
    case Hit(row) => Answered(Resolved(HIT, Some(row)))
    case Negative => Answered(Resolved(NEGATIVE, None))
    case Absent => Selecting(false)
    case Unavailable => Selecting(true)
  }

  /** The resolver, from the selected row to its next await: a degraded one never writes back. */
  function NextAfterSelect(degraded: bool, found: Option<Row>): Stage {
    if degraded then Answered(Resolved(DEGRADED, found)) else BackFilling(found)
  }

  /** The write-back a resolver issues for what it selected. */
  function BackFill(slug: Slug, found: Option<Row>): Command {
    match found
    case Some(row) => SetFound(slug, row)
    case None => SetMissing(slug)
  }

  predicate CanMove(s: State, task: Task, m: Move) {
    match m
    case ServeGet => task.at.Getting?
    case FailGet => task.at.Getting?
    case AfterGet => task.at.Got?
    case ServeSelect => task.at.Selecting?
    case AfterSelect => task.at.Selected?
    case AfterBackFill => task.at.BackFilling?
    case ServeInsert => task.at.Inserting?
    case FailInsert(applied) => task.at.Inserting? && (applied ==> task.slug !in s.db)
    case AfterInsert => task.at.Inserted?
    case AfterDelete => task.at.Deleting?
    case Abort => !task.at.Answered?
  }

  predicate Enabled(s: State, a: Action) {
    match a
    case StartResolve(t, _) => t !in s.tasks
    case StartCreate(t, _, _) => t !in s.tasks
    case Step(t, m) => t in s.tasks && CanMove(s, s.tasks[t], m)
    case Serve(t) => t in s.wire
    case Drop(t) => t in s.wire
    case OtherInsert(slug, _) => slug !in s.db
    case Expire(_) => true
    case Corrupt(_) => true
  }

  /** Where the task stands after the move. */
  function StageAfter(s: State, task: Task, m: Move): Stage
    requires CanMove(s, task, m)
  {
    match m
    case ServeGet => Got(ReplyOf(s.cache, task.slug))
    case FailGet => Got(Unavailable)
    case AfterGet => NextAfterGet(task.at.reply)
    case ServeSelect => Selected(task.at.degraded, Lookup(s.db, task.slug))
    case AfterSelect => NextAfterSelect(task.at.degraded, task.at.found)
    case AfterBackFill => Answered(Resolved(MISS, task.at.link))
    case ServeInsert => Inserted(task.at.row, task.slug !in s.db)
    case FailInsert(_) => Inserted(task.at.row, false)
    case AfterInsert => if task.at.ok then Deleting(task.at.row) else Answered(Refused)
    case AfterDelete => Answered(Created(task.at.row))
    case Abort => Answered(Failed)
  }

  function DbAfter(s: State, task: Task, m: Move): map<Slug, Row>
    requires CanMove(s, task, m)
  {
    match m
    case ServeInsert => if task.slug in s.db then s.db else s.db[task.slug := task.at.row]
    case FailInsert(applied) => if applied then s.db[task.slug := task.at.row] else s.db
    case _ => s.db
  }

  function WireAfter(s: State, t: TaskId, task: Task, m: Move): map<TaskId, Command>
    requires CanMove(s, task, m)
  {
    match m
    case AfterSelect => if task.at.degraded then s.wire else s.wire[t := BackFill(task.slug, task.at.found)]
    case AfterInsert => if task.at.ok then s.wire[t := Delete(task.slug)] else s.wire
    case _ => s.wire
  }

  function Apply(s: State, a: Action): State
    requires Enabled(s, a)
  {
    match a
    case StartResolve(t, slug) => s.(tasks := s.tasks[t := Task(slug, Getting)])
    case StartCreate(t, slug, row) => s.(tasks := s.tasks[t := Task(slug, Inserting(row))])
    case Step(t, m) =>
      var task := s.tasks[t];
      State(s.tasks[t := Task(task.slug, StageAfter(s, task, m))], DbAfter(s, task, m), s.cache,
            WireAfter(s, t, task, m))
    case Serve(t) => s.(cache := Execute(s.cache, s.wire[t]), wire := s.wire - {t})
    case Drop(t) => s.(wire := s.wire - {t})
    case OtherInsert(slug, row) => s.(db := s.db[slug := row])
    case Expire(slug) => s.(cache := s.cache - {slug})
    case Corrupt(slug) => s.(cache := s.cache[slug := Garbage])
  }

  ghost predicate Next(s: State, a: Action, s': State) {
    Enabled(s, a) && s' == Apply(s, a)
  }

  // --- Positive answers are the row --------------------------------------------

  /** The row a task holds, in whatever stage. */
  function InHand(at: Stage): Option<Row> {
    match at
    case Got(Hit(row)) => Some(row)
    case Selected(_, found) => found
    case BackFilling(link) => link
    case Inserted(row, true) => Some(row)
    case Deleting(row) => Some(row)
    case Answered(Resolved(_, link)) => link
    case Answered(Created(row)) => Some(row)
    case _ => None
  }

  ghost predicate IsRow(s: State, slug: Slug, row: Row) {
    slug in s.db && s.db[slug] == row
  }

  ghost predicate TasksHoldRows(s: State) {
    forall t | t in s.tasks :: InHand(s.tasks[t].at).Some? ==> IsRow(s, s.tasks[t].slug, InHand(s.tasks[t].at).value)
  }

  ghost predicate CacheHoldsRows(s: State) {
    forall slug | slug in s.cache && s.cache[slug].Entry? && s.cache[slug].v.Found? ::
      IsRow(s, slug, Row(s.cache[slug].v.linkId, s.cache[slug].v.longUrl))
  }

  /** A write-back of a row carries the row; a delete is only sent once the row is there. */
  ghost predicate WireHoldsRows(s: State) {
    forall t | t in s.wire ::
      && (s.wire[t].SetFound? ==> IsRow(s, s.wire[t].slug, s.wire[t].row))
      && (s.wire[t].Delete? ==> s.wire[t].slug in s.db)
  }

  ghost predicate Inv(s: State) {
    TasksHoldRows(s) && CacheHoldsRows(s) && WireHoldsRows(s)
  }

  /** No task yet.  Redis may be warm: its positive entries are rows, the rest is arbitrary. */
  ghost predicate Init(s: State) {
    s.tasks == map[] && s.wire == map[] && CacheHoldsRows(s)
  }

  /** Rows are inserted and never changed. */
  lemma RowsStay(s: State, a: Action)
    requires Enabled(s, a)
    ensures forall slug, row | IsRow(s, slug, row) :: IsRow(Apply(s, a), slug, row)
  {
  }

  lemma StepKeepsTasks(s: State, a: Action)
    requires Inv(s) && Enabled(s, a)
    ensures TasksHoldRows(Apply(s, a))
  {
    RowsStay(s, a);
  }

  lemma StepKeepsCache(s: State, a: Action)
    requires Inv(s) && Enabled(s, a)
    ensures CacheHoldsRows(Apply(s, a)) && WireHoldsRows(Apply(s, a))
  {
    RowsStay(s, a);
  }

  lemma RunKeepsInv(r: seq<State>, acts: seq<Action>, k: nat)
    requires IsRun(Next, r, acts) && Init(r[0]) && k < |r|
    ensures Inv(r[k])
  {
    if !Inv(r[k]) {
      var i := Crossing((s: State) => !Inv(s), r, 0, k);
      StepKeepsTasks(r[i], acts[i]);
      StepKeepsCache(r[i], acts[i]);
    }
  }

  /** In every interleaving, every positive answer, cached entry and pending write-back is the row. */
  lemma PositiveAnswersAreRows(r: seq<State>, acts: seq<Action>, k: nat)
    requires IsRun(Next, r, acts) && Init(r[0]) && k < |r|
    ensures forall t, o, row | t in r[k].tasks && r[k].tasks[t].at == Answered(Resolved(o, Some(row))) ::
              IsRow(r[k], r[k].tasks[t].slug, row)
    ensures forall slug, id, url | slug in r[k].cache && r[k].cache[slug] == Entry(Found(id, url)) ::
              IsRow(r[k], slug, Row(id, url))
    ensures forall t, slug, row | t in r[k].wire && r[k].wire[t] == SetFound(slug, row) :: IsRow(r[k], slug, row)
  {
    RunKeepsInv(r, acts, k);
  }

  // --- Negative answers saw no row ---------------------------------------------

  /** The task has learnt that the slug has no row. */
  predicate NoRowInHand(at: Stage) {
    match at
    case Got(Negative) => true
    case Selected(_, found) => found.None?
    case BackFilling(link) => link.None?
    case Answered(Resolved(_, link)) => link.None?
    case _ => false
  }

  ghost predicate CachedAbsent(s: State, slug: Slug) {
    slug in s.cache && s.cache[slug] == Entry(Missing)
  }

  ghost predicate RememberedAbsent(s: State, slug: Slug) {
    || CachedAbsent(s, slug)
    || (exists t :: t in s.wire && s.wire[t] == SetMissing(slug))
    || (exists t :: t in s.tasks && s.tasks[t].slug == slug && NoRowInHand(s.tasks[t].at))
  }

  ghost predicate SelectSawNoRow(s: State, a: Action, slug: Slug) {
    a.Step? && a.m.ServeSelect? && a.t in s.tasks && s.tasks[a.t].slug == slug && slug !in s.db
  }

  lemma AbsenceComesFromASelect(s: State, a: Action, slug: Slug)
    requires Enabled(s, a) && !RememberedAbsent(s, slug) && RememberedAbsent(Apply(s, a), slug)
    ensures SelectSawNoRow(s, a, slug)
  {
    var s' := Apply(s, a);
    if a.Step? {
      assert forall t :: t in s'.tasks && s'.tasks[t].slug == slug && NoRowInHand(s'.tasks[t].at) ==> t == a.t;
    }
  }

  /** A negative answer means that some earlier select, of some task, saw no row, or Redis began with the absence. */
  lemma NegativeAnswersSawNoRow(r: seq<State>, acts: seq<Action>, k: nat, t: TaskId, o: CacheOutcome)
    requires IsRun(Next, r, acts) && Init(r[0]) && k < |r|
    requires t in r[k].tasks && r[k].tasks[t].at == Answered(Resolved(o, None))
    ensures var slug := r[k].tasks[t].slug;
            !CachedAbsent(r[0], slug) ==> exists i :: 0 <= i < k && SelectSawNoRow(r[i], acts[i], slug)
  {
    var slug := r[k].tasks[t].slug;
    if !CachedAbsent(r[0], slug) {
      var i := Crossing((s: State) => RememberedAbsent(s, slug), r, 0, k);
      AbsenceComesFromASelect(r[i], acts[i], slug);
    }
  }

  // --- What the labels mean ----------------------------------------------------

  /** The stages of a resolver that has issued no write: those up to the select, and every answer but a plain miss. */
  predicate Silent(at: Stage) {
    match at
    case Getting => true
    case Got(_) => true
    case Selecting(_) => true
    case Selected(_, _) => true
    case Answered(Resolved(o, _)) => !o.MISS?
    case _ => false
  }

  /** Commands have senders, silent resolvers have sent none, and cache answers are labelled for what they are. */
  ghost predicate LabelsFit(s: State) {
    && (forall t | t in s.wire :: t in s.tasks && !Silent(s.tasks[t].at))
    && (forall t, link | t in s.tasks && s.tasks[t].at == Answered(Resolved(HIT, link)) :: link.Some?)
    && (forall t, link | t in s.tasks && s.tasks[t].at == Answered(Resolved(NEGATIVE, link)) :: link.None?)
  }

  lemma StepKeepsLabels(s: State, a: Action)
    requires LabelsFit(s) && Enabled(s, a)
    ensures LabelsFit(Apply(s, a))
  {
  }

  /** A task that has left the silent stages does not come back to them. */
  lemma SilenceIsNotRegained(s: State, a: Action, t: TaskId)
    requires Enabled(s, a) && t in s.tasks && !Silent(s.tasks[t].at)
    ensures t in Apply(s, a).tasks && !Silent(Apply(s, a).tasks[t].at)
  {
  }

  lemma RunKeepsLabels(r: seq<State>, acts: seq<Action>, k: nat)
    requires IsRun(Next, r, acts) && Init(r[0]) && k < |r|
    ensures LabelsFit(r[k])
  {
    if !LabelsFit(r[k]) {
      var i := Crossing((s: State) => !LabelsFit(s), r, 0, k);
      StepKeepsLabels(r[i], acts[i]);
    }
  }

  /**
   * A hit carries a row and a negative answer none, and a resolve that ends as a hit, as a negative
   * answer or degraded never had a write on the wire.
   */
  lemma DegradedResolvesNeverWrite(r: seq<State>, acts: seq<Action>, j: nat, k: nat, t: TaskId,
                                   o: CacheOutcome, link: Option<Row>)
    requires IsRun(Next, r, acts) && Init(r[0]) && j <= k < |r|
    requires t in r[k].tasks && r[k].tasks[t].at == Answered(Resolved(o, link)) && !o.MISS?
    ensures t !in r[j].wire
    ensures o.HIT? ==> link.Some?
    ensures o.NEGATIVE? ==> link.None?
  {
    RunKeepsLabels(r, acts, j);
    RunKeepsLabels(r, acts, k);
    if t in r[j].wire {
      var i := Crossing((s: State) => !(t in s.tasks && !Silent(s.tasks[t].at)), r, j, k);
      SilenceIsNotRegained(r[i], acts[i], t);
    }
  }

  // --- What a resolve answers --------------------------------------------------

  /** How far a task has come. */
  function Rank(at: Stage): nat {
    match at
    case Getting => 0
    case Got(_) => 1
    case Selecting(_) => 2
    case Selected(_, _) => 3
    case BackFilling(_) => 4
    case Inserting(_) => 0
    case Inserted(_, _) => 1
    case Deleting(_) => 2
    case Answered(_) => 5
  }

  /** A step leaves a task where it is, or is a move of its own that takes it strictly further. */
  lemma TasksAdvance(s: State, a: Action, t: TaskId)
    requires Enabled(s, a) && t in s.tasks
    ensures t in Apply(s, a).tasks && Apply(s, a).tasks[t].slug == s.tasks[t].slug
    ensures Apply(s, a).tasks[t] == s.tasks[t] || (a.Step? && a.t == t)
    ensures a.Step? && a.t == t ==> Rank(s.tasks[t].at) < Rank(Apply(s, a).tasks[t].at)
  {
  }

  /** Until it has answered, a task has a move other than giving up. */
  lemma TasksCanMove(s: State, t: TaskId)
    requires t in s.tasks && !s.tasks[t].at.Answered?
    ensures exists m: Move :: !m.Abort? && Enabled(s, Step(t, m))
  {
    var m := match s.tasks[t].at {
      case Getting => ServeGet
      case Got(_) => AfterGet
      case Selecting(_) => ServeSelect
      case Selected(_, _) => AfterSelect
      case BackFilling(_) => AfterBackFill
      case Inserting(_) => ServeInsert
      case Inserted(_, _) => AfterInsert
      case _ => AfterDelete
    };
    assert Enabled(s, Step(t, m));
  }

  lemma RanksGrow(r: seq<State>, acts: seq<Action>, i: nat, j: nat, t: TaskId)
    requires IsRun(Next, r, acts) && i <= j < |r| && t in r[i].tasks
    ensures t in r[j].tasks && r[j].tasks[t].slug == r[i].tasks[t].slug
    ensures Rank(r[i].tasks[t].at) <= Rank(r[j].tasks[t].at)
  {
    var task := r[i].tasks[t];
    var behind := (s: State) => !(t in s.tasks && s.tasks[t].slug == task.slug && Rank(task.at) <= Rank(s.tasks[t].at));
    if behind(r[j]) {
      var k := Crossing(behind, r, i, j);
      TasksAdvance(r[k], acts[k], t);
    }
  }

  /** A task that has come no further has not moved. */
  lemma TasksWait(r: seq<State>, acts: seq<Action>, i: nat, j: nat, t: TaskId)
    requires IsRun(Next, r, acts) && i <= j < |r| && t in r[i].tasks
    requires t in r[j].tasks && Rank(r[j].tasks[t].at) == Rank(r[i].tasks[t].at)
    ensures r[j].tasks[t] == r[i].tasks[t]
  {
    var task := r[i].tasks[t];
    var moved := (s: State) => !(t in s.tasks && s.tasks[t] == task);
    if moved(r[j]) {
      var k := Crossing(moved, r, i, j);
      TasksAdvance(r[k], acts[k], t);
      RanksGrow(r, acts, k + 1, j, t);
    }
  }

  /** The read of `t` is answered at step `j` and acted on at step `k`. */
  ghost predicate ReadAndResume(r: seq<State>, acts: seq<Action>, j: nat, k: nat, t: TaskId, slug: Slug, read: Move) {
    && IsRun(Next, r, acts) && j < k < |acts|
    && acts[j] == Step(t, read) && acts[k] == Step(t, AfterGet)
    && t in r[j].tasks && r[j].tasks[t].slug == slug
  }

  /** A read that finds a decodable entry answers at once: with the link and `HIT`, or with none and `NEGATIVE`. */
  lemma CachedEntriesAnswer(r: seq<State>, acts: seq<Action>, j: nat, k: nat, t: TaskId, slug: Slug, v: Cached)
    requires ReadAndResume(r, acts, j, k, t, slug, ServeGet)
    requires slug in r[j].cache && r[j].cache[slug] == Entry(v)
    ensures t in r[k + 1].tasks
    ensures v.Found? ==> r[k + 1].tasks[t].at == Answered(Resolved(HIT, Some(Row(v.linkId, v.longUrl))))
    ensures v.Missing? ==> r[k + 1].tasks[t].at == Answered(Resolved(NEGATIVE, None))
  {
    assert Next(r[j], acts[j], r[j + 1]) && Next(r[k], acts[k], r[k + 1]);
    TasksWait(r, acts, j + 1, k, t);
  }

  /** A read that finds nothing, or fails, or cannot decode what it found goes on to the table. */
  lemma OtherReadsSelect(r: seq<State>, acts: seq<Action>, j: nat, k: nat, t: TaskId, slug: Slug, read: Move)
    requires ReadAndResume(r, acts, j, k, t, slug, read) && (read.ServeGet? || read.FailGet?)
    requires read.FailGet? || slug !in r[j].cache || r[j].cache[slug] == Garbage
    ensures t in r[k + 1].tasks
    ensures r[k + 1].tasks[t].at == Selecting(read.FailGet? || slug in r[j].cache)
  {
    assert Next(r[j], acts[j], r[j + 1]) && Next(r[k], acts[k], r[k + 1]);
    TasksWait(r, acts, j + 1, k, t);
  }

  /** The step removes or replaces the entry of the slug. */
  ghost predicate Touches(s: State, a: Action, slug: Slug) {
    a == Expire(slug) || a == Corrupt(slug) || (a.Serve? && a.t in s.wire && s.wire[a.t].slug == slug)
  }

  lemma EntriesStay(s: State, a: Action, slug: Slug)
    requires Enabled(s, a) && slug in s.cache && !Touches(s, a, slug)
    ensures slug in Apply(s, a).cache && Apply(s, a).cache[slug] == s.cache[slug]
  {
  }

  /** The value a write-back leaves in Redis. */
  ghost predicate Writes(c: Command, slug: Slug, v: Cached) {
    || (v.Found? && c == SetFound(slug, Row(v.linkId, v.longUrl)))
    || (v.Missing? && c == SetMissing(slug))
  }

  /**
   * Once a write-back is served, and until the entry expires, is corrupted or is overwritten, every
   * read that Redis serves ends in a hit on the row, or in a negative answer for an absence.
   */
  lemma ServedWritesAreRead(r: seq<State>, acts: seq<Action>, i: nat, j: nat, k: nat, u: TaskId, t: TaskId,
                            slug: Slug, v: Cached)
    requires ReadAndResume(r, acts, j, k, t, slug, ServeGet) && i < j
    requires acts[i] == Serve(u) && u in r[i].wire && Writes(r[i].wire[u], slug, v)
    requires forall m | i < m < j :: !Touches(r[m], acts[m], slug)
    ensures t in r[k + 1].tasks
    ensures v.Found? ==> r[k + 1].tasks[t].at == Answered(Resolved(HIT, Some(Row(v.linkId, v.longUrl))))
    ensures v.Missing? ==> r[k + 1].tasks[t].at == Answered(Resolved(NEGATIVE, None))
  {
    assert Next(r[i], acts[i], r[i + 1]);
    var gone := (s: State) => !(slug in s.cache && s.cache[slug] == Entry(v));
    if gone(r[j]) {
      var m := Crossing(gone, r, i + 1, j);
      EntriesStay(r[m], acts[m], slug);
    }
    CachedEntriesAnswer(r, acts, j, k, t, slug, v);
  }

  /** The task has selected `link` undegraded and sent its write-back, or answered with it. */
  ghost predicate WroteBack(s: State, t: TaskId, slug: Slug, link: Option<Row>) {
    && t in s.tasks && s.tasks[t].slug == slug
    && (s.tasks[t].at == BackFilling(link) || s.tasks[t].at == Answered(Resolved(MISS, link)))
  }

  lemma WritingBackSends(s: State, a: Action, t: TaskId, slug: Slug, link: Option<Row>)
    requires Enabled(s, a) && !WroteBack(s, t, slug, link) && WroteBack(Apply(s, a), t, slug, link)
    ensures t in Apply(s, a).wire
    ensures link.Some? ==> Apply(s, a).wire[t] == SetFound(slug, link.value)
    ensures link.None? ==> Apply(s, a).wire[t] == SetMissing(slug)
  {
  }

  /** A plain miss sent Redis the row it answers with, or the absence. */
  lemma MissesWriteBack(r: seq<State>, acts: seq<Action>, k: nat, t: TaskId, slug: Slug, link: Option<Row>)
    requires IsRun(Next, r, acts) && Init(r[0]) && k < |r|
    requires t in r[k].tasks && r[k].tasks[t] == Task(slug, Answered(Resolved(MISS, link)))
    ensures link.Some? ==> exists i :: 0 <= i <= k && t in r[i].wire && r[i].wire[t] == SetFound(slug, link.value)
    ensures link.None? ==> exists i :: 0 <= i <= k && t in r[i].wire && r[i].wire[t] == SetMissing(slug)
  {
    var i := Crossing((s: State) => WroteBack(s, t, slug, link), r, 0, k);
    WritingBackSends(r[i], acts[i], t, slug, link);
    assert t in r[i + 1].wire;
  }

  /** The task has selected `link`, or answered with it. */
  ghost predicate HasSelected(s: State, t: TaskId, slug: Slug, link: Option<Row>) {
    && t in s.tasks && s.tasks[t].slug == slug
    && match s.tasks[t].at
       case Selected(_, found) => found == link
       case BackFilling(found) => found == link
       case Answered(Resolved(o, found)) => (o.MISS? || o.DEGRADED?) && found == link
       case _ => false
  }

  lemma SelectingReadsTheTable(s: State, a: Action, t: TaskId, slug: Slug, link: Option<Row>)
    requires Enabled(s, a) && !HasSelected(s, t, slug, link) && HasSelected(Apply(s, a), t, slug, link)
    ensures a == Step(t, ServeSelect)
    ensures slug in s.db ==> link == Some(s.db[slug])
    ensures slug !in s.db ==> link == None
  {
  }

  /** A miss or a degraded answer is what the table held when the task's own select was served. */
  lemma SelectedAnswersAreTheTable(r: seq<State>, acts: seq<Action>, k: nat, t: TaskId, slug: Slug,
                                   o: CacheOutcome, link: Option<Row>)
    requires IsRun(Next, r, acts) && Init(r[0]) && k < |r| && (o.MISS? || o.DEGRADED?)
    requires t in r[k].tasks && r[k].tasks[t] == Task(slug, Answered(Resolved(o, link)))
    ensures exists i :: 0 <= i < k && acts[i] == Step(t, ServeSelect)
                        && (slug in r[i].db ==> link == Some(r[i].db[slug])) && (slug !in r[i].db ==> link == None)
  {
    var i := Crossing((s: State) => HasSelected(s, t, slug, link), r, 0, k);
    SelectingReadsTheTable(r[i], acts[i], t, slug, link);
  }

  /** The stages of a resolve whose read failed, and of one whose read found nothing. */
  ghost predicate OnItsWay(s: State, t: TaskId, degraded: bool) {
    && t in s.tasks
    && match s.tasks[t].at
       case Got(reply) => reply == if degraded then Unavailable else Absent
       case Selecting(d) => d == degraded
       case Selected(d, _) => d == degraded
       case BackFilling(_) => !degraded
       case Answered(Resolved(o, _)) => o == if degraded then DEGRADED else MISS
       case Answered(Failed) => true
       case _ => false
  }

  lemma WaysStay(s: State, a: Action, t: TaskId, degraded: bool)
    requires Enabled(s, a) && OnItsWay(s, t, degraded)
    ensures OnItsWay(Apply(s, a), t, degraded)
  {
  }

  /** A resolve whose read failed or could not be decoded answers `DEGRADED`; one that found nothing, `MISS`. */
  lemma ReadsDecideTheLabel(r: seq<State>, acts: seq<Action>, j: nat, k: nat, t: TaskId, slug: Slug,
                            o: CacheOutcome, link: Option<Row>)
    requires IsRun(Next, r, acts) && j < k < |r| && t in r[j].tasks && r[j].tasks[t].slug == slug
    requires acts[j] == Step(t, FailGet) || acts[j] == Step(t, ServeGet)
    requires t in r[k].tasks && r[k].tasks[t].at == Answered(Resolved(o, link))
    ensures acts[j].m.FailGet? || (slug in r[j].cache && r[j].cache[slug] == Garbage) ==> o == DEGRADED
    ensures acts[j].m.ServeGet? && slug !in r[j].cache ==> o == MISS
  {
    assert Next(r[j], acts[j], r[j + 1]);
    var degraded := !(acts[j].m.ServeGet? && slug !in r[j].cache);
    if OnItsWay(r[j + 1], t, degraded) && !OnItsWay(r[k], t, degraded) {
      var i := Crossing((s: State) => !OnItsWay(s, t, degraded), r, j + 1, k);
      WaysStay(r[i], acts[i], t, degraded);
    }
  }

  lemma FailingIsAborting(s: State, a: Action, t: TaskId)
    requires Enabled(s, a) && t in Apply(s, a).tasks && Apply(s, a).tasks[t].at == Answered(Failed)
    ensures a == Step(t, Abort) || (t in s.tasks && s.tasks[t].at == Answered(Failed))
  {
  }

  /** A resolve or a create fails only if the table failed it or it was cancelled: nothing the cache does fails it. */
  lemma OnlyAbortsFail(r: seq<State>, acts: seq<Action>, k: nat, t: TaskId)
    requires IsRun(Next, r, acts) && Init(r[0]) && k < |r| && t in r[k].tasks && r[k].tasks[t].at == Answered(Failed)
    ensures exists i :: 0 <= i < k && acts[i] == Step(t, Abort)
  {
    var i := Crossing((s: State) => t in s.tasks && s.tasks[t].at == Answered(Failed), r, 0, k);
    FailingIsAborting(r[i], acts[i], t);
  }

  /** The stages of a create whose insert took, or did not. */
  ghost predicate Creating(s: State, t: TaskId, slug: Slug, row: Row, ok: bool) {
    && t in s.tasks && s.tasks[t].slug == slug
    && (|| s.tasks[t].at == Inserted(row, ok) || s.tasks[t].at == Answered(Failed)
        || (ok && (s.tasks[t].at == Deleting(row) || s.tasks[t].at == Answered(Created(row))))
        || (!ok && s.tasks[t].at == Answered(Refused)))
  }

  lemma CreatingStays(s: State, a: Action, t: TaskId, slug: Slug, row: Row, ok: bool)
    requires Enabled(s, a) && Creating(s, t, slug, row, ok)
    ensures Creating(Apply(s, a), t, slug, row, ok)
  {
  }

  /** The create has sent its delete. */
  ghost predicate SentDelete(s: State, t: TaskId) {
    t in s.tasks && (s.tasks[t].at.Deleting? || (s.tasks[t].at.Answered? && s.tasks[t].at.answer.Created?))
  }

  lemma DeletingSends(s: State, a: Action, t: TaskId)
    requires Enabled(s, a) && !SentDelete(s, t) && SentDelete(Apply(s, a), t)
    ensures t in Apply(s, a).wire && Apply(s, a).wire[t] == Delete(Apply(s, a).tasks[t].slug)
  {
  }

  /**
   * A create of a free slug inserts its row and, if it answers, has sent its delete and answers with
   * the row; a create of a taken slug changes nothing and is refused.
   */
  lemma InsertsDecideTheCreate(r: seq<State>, acts: seq<Action>, j: nat, k: nat, t: TaskId, slug: Slug, row: Row)
    requires IsRun(Next, r, acts) && j < k < |r| && acts[j] == Step(t, ServeInsert)
    requires t in r[j].tasks && r[j].tasks[t] == Task(slug, Inserting(row))
    requires t in r[k].tasks && r[k].tasks[t].at.Answered? && !r[k].tasks[t].at.answer.Failed?
    ensures slug in r[j].db ==> r[j + 1].db == r[j].db && r[k].tasks[t].at == Answered(Refused)
    ensures slug !in r[j].db ==>
              && r[j + 1].db == r[j].db[slug := row] && r[k].tasks[t].at == Answered(Created(row))
              && exists i :: 0 <= i <= k && t in r[i].wire && r[i].wire[t] == Delete(slug)
  {
    assert Next(r[j], acts[j], r[j + 1]);
    var ok := slug !in r[j].db;
    if !Creating(r[k], t, slug, row, ok) {
      var i := Crossing((s: State) => !Creating(s, t, slug, row, ok), r, j + 1, k);
      CreatingStays(r[i], acts[i], t, slug, row, ok);
    }
    if ok {
      var i := Crossing((s: State) => SentDelete(s, t), r, j + 1, k);
      DeletingSends(r[i], acts[i], t);
      RanksGrow(r, acts, j, i + 1, t);
      assert t in r[i + 1].wire;
    }
  }

  // --- When a new link is visible ----------------------------------------------

  /** Somebody still holds, or has still to write, a negative answer that Redis could serve. */
  ghost predicate AbsenceCanReturn(s: State, slug: Slug) {
    || CachedAbsent(s, slug)
    || (exists t :: t in s.wire && s.wire[t] == SetMissing(slug))
    || (exists t :: t in s.tasks && s.tasks[t] == Task(slug, Selected(false, None)))
  }

  ghost predicate Misled(s: State, t: TaskId, slug: Slug) {
    t in s.tasks && s.tasks[t].slug == slug && NoRowInHand(s.tasks[t].at)
  }

  /** With the row in the table and no absence left to return, no step brings one back or misleads a task. */
  lemma AbsenceNeverReturns(s: State, a: Action, t: TaskId, slug: Slug)
    requires Enabled(s, a) && slug in s.db && !AbsenceCanReturn(s, slug) && !Misled(s, t, slug)
    ensures slug in Apply(s, a).db && !AbsenceCanReturn(Apply(s, a), slug) && !Misled(Apply(s, a), t, slug)
  {
  }

  /** In the run, `t` starts resolving `slug` after the first state and has the answer `link` at `k`. */
  ghost predicate LaterAnswer(r: seq<State>, acts: seq<Action>, k: nat, t: TaskId, slug: Slug, link: Option<Row>) {
    && IsRun(Next, r, acts) && k < |r|
    && t !in r[0].tasks && t in r[k].tasks && r[k].tasks[t].slug == slug
    && r[k].tasks[t].at.Answered? && r[k].tasks[t].at.answer.Resolved? && r[k].tasks[t].at.answer.link == link
  }

  /** Every resolve started from now on, in every continuation, answers with the row. */
  ghost predicate LinkVisible(s: State, slug: Slug) {
    forall r: seq<State>, acts: seq<Action>, k: nat, t: TaskId, link: Option<Row> ::
      LaterAnswer(r, acts, k, t, slug, link) && r[0] == s ==> link == Lookup(s.db, slug)
  }

  lemma CleanSlugIsVisible(r: seq<State>, acts: seq<Action>, k: nat, t: TaskId, slug: Slug, link: Option<Row>)
    requires LaterAnswer(r, acts, k, t, slug, link)
    requires Inv(r[0]) && slug in r[0].db && !AbsenceCanReturn(r[0], slug)
    ensures link == Some(r[0].db[slug])
  {
    var bad := (s: State) => slug !in s.db || AbsenceCanReturn(s, slug) || Misled(s, t, slug);
    if bad(r[k]) {
      var i := Crossing(bad, r, 0, k);
      AbsenceNeverReturns(r[i], acts[i], t, slug);
    }
    var row := r[0].db[slug];
    if !IsRow(r[k], slug, row) {
      var i := Crossing((s: State) => !IsRow(s, slug, row), r, 0, k);
      RowsStay(r[i], acts[i]);
    }
    if !Inv(r[k]) {
      var i := Crossing((s: State) => !Inv(s), r, 0, k);
      StepKeepsTasks(r[i], acts[i]);
      StepKeepsCache(r[i], acts[i]);
    }
  }

  /** A negative entry in Redis is served to the next resolver. */
  lemma CachedAbsenceMisleads(s: State, slug: Slug) returns (r: seq<State>, acts: seq<Action>, t: TaskId)
    requires CachedAbsent(s, slug)
    ensures r != [] && r[0] == s && LaterAnswer(r, acts, |acts|, t, slug, None)
  {
    t := FreshTask(s.tasks.Keys);
    var s1 := Apply(s, StartResolve(t, slug));
    var s2 := Apply(s1, Step(t, ServeGet));
    var s3 := Apply(s2, Step(t, AfterGet));
    r, acts := [s, s1, s2, s3], [StartResolve(t, slug), Step(t, ServeGet), Step(t, AfterGet)];
  }

  lemma {:induction false} FreshTask(ids: set<TaskId>) returns (t: TaskId)
    ensures t !in ids && forall u | u in ids :: u < t
  {
    if ids == {} {
      t := 0;
    } else {
      var u :| u in ids;
      var below := FreshTask(ids - {u});
      t := if u < below then below else u + 1;
      assert ids == (ids - {u}) + {u};
    }
  }

  lemma PrependStep(s: State, a: Action, r: seq<State>, acts: seq<Action>, t: TaskId, slug: Slug, link: Option<Row>)
    requires Enabled(s, a) && t !in s.tasks
    requires r != [] && r[0] == Apply(s, a) && LaterAnswer(r, acts, |acts|, t, slug, link)
    ensures LaterAnswer([s] + r, [a] + acts, |acts| + 1, t, slug, link)
  {
    Join(Next, [s, r[0]], [a], r, acts);
    assert [s, r[0]] + r[1..] == [s] + r;
  }

  lemma WireAbsenceMisleads(s: State, u: TaskId, slug: Slug) returns (r: seq<State>, acts: seq<Action>, t: TaskId)
    requires u in s.wire && s.wire[u] == SetMissing(slug)
    ensures r != [] && r[0] == s && LaterAnswer(r, acts, |acts|, t, slug, None)
  {
    r, acts, t := CachedAbsenceMisleads(Apply(s, Serve(u)), slug);
    PrependStep(s, Serve(u), r, acts, t, slug, None);
    r, acts := [s] + r, [Serve(u)] + acts;
  }

  lemma SelectedAbsenceMisleads(s: State, u: TaskId, slug: Slug) returns (r: seq<State>, acts: seq<Action>, t: TaskId)
    requires u in s.tasks && s.tasks[u] == Task(slug, Selected(false, None))
    ensures r != [] && r[0] == s && LaterAnswer(r, acts, |acts|, t, slug, None)
  {
    var a := Step(u, AfterSelect);
    r, acts, t := WireAbsenceMisleads(Apply(s, a), u, slug);
    PrependStep(s, a, r, acts, t, slug, None);
    r, acts := [s] + r, [a] + acts;
  }

  /**
   * A link in the table is visible to every later resolve, in every continuation, if and only if
   * Redis holds no negative entry for it and nobody has one still to write back.
   */
  lemma LinkVisibleExactly(s: State, slug: Slug)
    requires Inv(s) && slug in s.db
    ensures LinkVisible(s, slug) <==> !AbsenceCanReturn(s, slug)
  {
    if AbsenceCanReturn(s, slug) {
      var r, acts, t;
      if CachedAbsent(s, slug) {
        r, acts, t := CachedAbsenceMisleads(s, slug);
      } else if u :| u in s.wire && s.wire[u] == SetMissing(slug) {
        r, acts, t := WireAbsenceMisleads(s, u, slug);
      } else {
        var u :| u in s.tasks && s.tasks[u] == Task(slug, Selected(false, None));
        r, acts, t := SelectedAbsenceMisleads(s, u, slug);
      }
      assert !LinkVisible(s, slug);
    } else {
      forall r: seq<State>, acts: seq<Action>, k: nat, t: TaskId, link: Option<Row> |
        LaterAnswer(r, acts, k, t, slug, link) && r[0] == s
        ensures link == Lookup(s.db, slug)
      {
        CleanSlugIsVisible(r, acts, k, t, slug, link);
      }
    }
  }

  /**
   * The create path's guarantee.  Once Redis serves the delete, the new link is visible to every
   * later resolve exactly when no task holds a negative answer that it has not written back.
   */
  lemma ServedDeleteShowsTheLink(r: seq<State>, acts: seq<Action>, k: nat, t: TaskId, slug: Slug)
    requires IsRun(Next, r, acts) && Init(r[0]) && k < |acts|
    requires acts[k] == Serve(t) && t in r[k].wire && r[k].wire[t] == Delete(slug)
    ensures slug in r[k + 1].db
    ensures LinkVisible(r[k + 1], slug) <==>
              && (forall u | u in r[k].wire :: r[k].wire[u] != SetMissing(slug))
              && (forall u | u in r[k].tasks :: r[k].tasks[u] != Task(slug, Selected(false, None)))
  {
    RunKeepsInv(r, acts, k);
    RunKeepsInv(r, acts, k + 1);
    LinkVisibleExactly(r[k + 1], slug);
    assert r[k + 1] == r[k].(cache := r[k].cache - {slug}, wire := r[k].wire - {t});
    assert forall u | u in r[k].wire && r[k].wire[u] == SetMissing(slug) :: u in r[k + 1].wire;
  }

  const EMPTY: State := State(map[], map[], map[], map[])

  /** A resolver that was told "absent" and selected no row, and has not resumed. */
  function StaleSelect(slug: Slug): State {
    EMPTY.(tasks := map[0 := Task(slug, Selected(false, None))])
  }

  lemma ReachStaleSelect(slug: Slug) returns (r: seq<State>, acts: seq<Action>)
    ensures IsRun(Next, r, acts) && |acts| == 4 && r[0] == EMPTY && r[4] == StaleSelect(slug)
  {
    var s1 := EMPTY.(tasks := map[0 := Task(slug, Getting)]);
    var s2 := EMPTY.(tasks := map[0 := Task(slug, Got(Absent))]);
    var s3 := EMPTY.(tasks := map[0 := Task(slug, Selecting(false))]);
    r := [EMPTY, s1, s2, s3, StaleSelect(slug)];
    acts := [StartResolve(0, slug), Step(0, ServeGet), Step(0, AfterGet), Step(0, ServeSelect)];
  }

  /** Then a creator inserts the row, and its delete is served. */
  lemma CreateBehindIt(slug: Slug, row: Row) returns (r: seq<State>, acts: seq<Action>)
    ensures IsRun(Next, r, acts) && |acts| == 4 && r[0] == StaleSelect(slug)
    ensures acts[3] == Serve(1) && 1 in r[3].wire && r[3].wire[1] == Delete(slug) && IsRow(r[4], slug, row)
    ensures 0 in r[3].tasks && r[3].tasks[0] == Task(slug, Selected(false, None))
  {
    var s0 := StaleSelect(slug);
    var s1 := Apply(s0, StartCreate(1, slug, row));
    var s2 := Apply(s1, Step(1, ServeInsert));
    var s3 := Apply(s2, Step(1, AfterInsert));
    r := [s0, s1, s2, s3, Apply(s3, Serve(1))];
    acts := [StartCreate(1, slug, row), Step(1, ServeInsert), Step(1, AfterInsert), Serve(1)];
  }

  /**
   * "Works immediately" is false without the condition: from an empty table and an empty Redis, a
   * create's delete is served and the link is still invisible to some later resolve.
   */
  lemma ServedDeleteCanMissTheLink(slug: Slug, row: Row)
    ensures exists r: seq<State>, acts: seq<Action>, k: nat ::
              && IsRun(Next, r, acts) && r[0] == EMPTY && k < |acts|
              && acts[k] == Serve(1) && 1 in r[k].wire && r[k].wire[1] == Delete(slug)
              && IsRow(r[k + 1], slug, row) && !LinkVisible(r[k + 1], slug)
  {
    var r, acts := ReachStaleSelect(slug);
    var q, more := CreateBehindIt(slug, row);
    Join(Next, r, acts, q, more);
    var run, all := r + q[1..], acts + more;
    assert run[7] == run[4 + 3] == q[3] && run[8] == run[4 + 4] == q[4] && all[7] == more[3];
    ServedDeleteShowsTheLink(run, all, 7, 1, slug);
  }

  // --- The code between the awaits ---------------------------------------------

  /** One call of `resolve_slug`, with its local `degraded` flag. */
  class Resolution {
    var degraded: bool

    constructor ()
      ensures !degraded
    {
      degraded := false;
    }

    /** The `try`/`except`/`else` around the cache read, up to the next await. */
    method OnReply(reply: Reply) returns (at: Stage)
      requires !degraded
      modifies this
      ensures at == NextAfterGet(reply)
      ensures degraded <==> at == Selecting(true)
    {
      if reply.Unavailable? {
        degraded := true;
      } else {
        if reply.Hit? {
          return Answered(Resolved(HIT, Some(reply.row)));
        }
        if reply.Negative? {
          return Answered(Resolved(NEGATIVE, None));
        }
      }
      at := Selecting(degraded);
    }

    /** From the selected row to the back-fill or the answer; `sent` is the command issued, if any. */
    method OnRow(slug: Slug, found: Option<Row>) returns (at: Stage, sent: Option<Command>)
      ensures at == NextAfterSelect(degraded, found)
      ensures sent == if degraded then None else Some(BackFill(slug, found))
      ensures !degraded && found.Some? ==> sent == Some(SetFound(slug, found.value))
      ensures !degraded && found.None? ==> sent == Some(SetMissing(slug))
    {
      sent := None;
      if found.None? {
        if !degraded {
          sent := Some(SetMissing(slug));
          return BackFilling(None), sent;
        }
        return Answered(Resolved(if degraded then DEGRADED else MISS, None)), sent;
      }
      if !degraded {
        sent := Some(SetFound(slug, found.value));
        return BackFilling(found), sent;
      }
      at := Answered(Resolved(if degraded then DEGRADED else MISS, found));
    }
  }
}
