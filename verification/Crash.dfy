/**
 * Crash consistency (src/lib/sync-manager.ts:395-488, 581-756, 779-878, 1164-1329 and
 * src/lib/db-collections.ts:40-79): a tab that bootstraps, pages deltas and can die at any await,
 * and the IndexedDB image it leaves behind. Code between two awaits is one step; a Dexie
 * transaction commits or never happened.
 */
module Crash {
  import opened Common
  import opened Positions
  import opened Rows
  import opened Replica
  import opened Flush
  import opened DeltaLoop
  import opened Stream

  // ----- the completeness stamp ---------------------------------------------------------------

  const CACHED_COLLECTIONS: seq<string> := [
    "customFieldDefinitions", "customFieldValues", "customViews", "cycles", "documents",
    "initiativeProjects", "initiatives", "issueLabels", "issueRelations", "issueTemplates",
    "issues", "notifications", "organizationMembers", "organizations", "projectMilestones",
    "projectUpdates", "projects", "teams", "users", "workflowStates"]

  /** The stored stamp is unknown data: anything, or an array whose entries may not be strings. */
  datatype Stamp = NotAnArray | Names(names: seq<Option<string>>)

  /** `stampCoversRequiredCollections`. */
  predicate Covers(stamp: Stamp) {
    stamp.Names? && forall c | c in CACHED_COLLECTIONS :: Some(c) in stamp.names
  }

  function OwnStamp(): (s: Stamp)
    ensures Covers(s)
  {
    var names := seq(|CACHED_COLLECTIONS|, i requires 0 <= i < |CACHED_COLLECTIONS| => Some(CACHED_COLLECTIONS[i]));
    assert forall c | c in CACHED_COLLECTIONS :: Some(c) in names by {
      forall c | c in CACHED_COLLECTIONS ensures Some(c) in names {
        var i :| 0 <= i < |CACHED_COLLECTIONS| && CACHED_COLLECTIONS[i] == c;
        assert names[i] == Some(c);
      }
    }
    Names(names)
  }

  // ----- the world ----------------------------------------------------------------------------

  type OrderedBuckets = b: Buckets | Ordered(b) witness NO_WRITES

  /** What survives a crash. `hasOrganization` stands for a non-empty organizations table. */
  datatype Image = Image(rows: Disk, hasOrganization: bool, cursor: Option<Position>, stamp: Stamp)

  /** `resume` is the cursor of a page loop that was running while the bootstrap was fetched. */
  datatype Work =
    | Resting
    | Paging(cursor: Position)                                       // awaiting a delta page
    | Flushing(batch: seq<SyncAction>, buckets: OrderedBuckets, next: Position, more: bool)
    | Filling(rows: Memory, at: Position, resume: Option<Position>)  // bootstrap committed, pools not yet refilled

  /** `based` tells a tab that loaded a cache or a bootstrap from one that has neither. */
  datatype Tab = Closed | Open(memory: Memory, lastSyncId: Position, based: bool, work: Work)

  datatype Snapshot = Snapshot(rows: Memory, at: Position)

  /** What lies beyond `from`, up to `upto`. */
  datatype Stretch = Stretch(from: Position, upto: Position)

  /**
   * History: the stretches of the stream put on top of the last bootstrap. `current` grows with the
   * page loop; `earlier` is what a loop left that had stopped before it reached the bootstrap.
   */
  datatype Course = Course(earlier: Stretch, current: Stretch)

  /**
   * `log` holds the settled rows and `frontier` bounds them: by the server's fence, rows that
   * settle later lie beyond it. `boot` remembers the last bootstrap that committed.
   */
  datatype World = World(
    log: seq<Entry>, frontier: Position, image: Image, boot: Option<Snapshot>, course: Course, tab: Tab)

  /**
   * `alongside`: the bootstrap leaves a running page loop alone, as one scheduled after a change of
   * membership does. `settled`: how much of the log the server had when it cut the page.
   */
  datatype Step =
    | Settle(entries: seq<Entry>, frontier: Position)
    | Wipe                                                           // `invalidateCacheIfOrgChanged`
    | Load
    | CommitBootstrap(rows: Memory, disk: Disk, at: Position, alongside: bool)
    | FillMemory
    | StartDelta
    | ReceivePage(settled: nat)
    | CommitFlush
    | EndLoop(raise: bool)                                           // page limit, or a failed request
    | Die

  predicate Accepts(image: Image) {
    && image.cursor.Some?
    && Covers(image.stamp)
    && (image.hasOrganization || exists k | k in image.rows.pools :: k.model == "Team")
  }

  /** The value pool filled from the table, each row under its issue and field. */
  ghost function LoadValues(table: map<Id, Value>): map<ValueKey, Value> {
    var keys := set w | w in table :: KeyOf(table[w]);
    map k | k in keys :: var w :| w in table && KeyOf(table[w]) == k; table[w]
  }

  ghost function LoadMemory(disk: Disk): Memory {
    Memory(disk.issues, disk.relations, disk.definitions, LoadValues(disk.values), disk.pools)
  }
  // ----- steps --------------------------------------------------------------------------------

  /**
   * While a bootstrap holds the lock nothing is applied: a page that arrives then is received once
   * the pools are filled, and a loop that starts or ends then might as well have done so before.
   */
  ghost predicate Enabled(me: Option<Id>, own: Id -> ValueKey, w: World, step: Step) {
    match step
    case Settle(entries, frontier) =>
      && AtMost(w.frontier, frontier)
      && (forall e | e in entries :: Before(w.frontier, At(e)) && AtMost(At(e), frontier))
      && GoodLog(me, own, w.log + entries)
    case Wipe => w.tab.Closed?
    case Load => w.tab.Closed?
    case CommitBootstrap(rows, disk, at, _) =>
      && w.tab.Open? && (w.tab.work.Resting? || w.tab.work.Paging?)
      && Agree(own, rows, disk) && AtMost(at, w.frontier)
    case FillMemory => w.tab.Open? && w.tab.work.Filling?
    case StartDelta => w.tab.Open? && w.tab.work.Resting?
    case ReceivePage(settled) => w.tab.Open? && w.tab.work.Paging? && settled <= |w.log|
    case CommitFlush => w.tab.Open? && w.tab.work.Flushing?
    case EndLoop(_) => w.tab.Open? && w.tab.work.Paging?
    case Die => true
  }

  /** Out of the page loop: the shared cursor is raised to the local one. */
  function Finish(tab: Tab, cursor: Position): Tab
    requires tab.Open?
  {
    tab.(lastSyncId := Later(tab.lastSyncId, cursor), work := Resting)
  }

  lemma {:induction false} PendingIsOrdered(me: Option<Id>, s: Memory, b: Buckets, batch: seq<SyncAction>)
    requires Ordered(b)
    ensures Ordered(CollectAll(me, s, b, batch))
    decreases batch
  {
    hide Ordered, Collect;
    if batch != [] {
      CollectStaysOrdered(me, s, b, batch[0].change);
      PendingIsOrdered(me, ApplyChange(me, s, batch[0].change), Collect(me, s, b, batch[0].change), batch[1..]);
    }
  }

  function BucketsOf(me: Option<Id>, s: Memory, batch: seq<SyncAction>): OrderedBuckets {
    PendingIsOrdered(me, s, NO_WRITES, batch);
    Pending(me, s, batch)
  }

  /** One turn of the loop up to its await: the memory half of the page, if anything is visible. */
  function Received(me: Option<Id>, tab: Tab, res: Response): Tab
    requires tab.Open? && tab.work.Paging? && res.Page?
  {
    var next := NextCursor(tab.work.cursor, res);
    if res.actions == [] then
      if res.nextCursor.None? || !res.hasMore then Finish(tab, next) else tab.(work := Paging(next))
    else
      Open(ApplyAll(me, tab.memory, res.actions), LaterOf(tab.lastSyncId, PositionsOf(res.actions)), tab.based,
           Flushing(res.actions, BucketsOf(me, tab.memory, res.actions), next, res.hasMore))
  }
  /** The loop whose cursor outlives the bootstrap, if there is one. */
  function Survivor(tab: Tab, alongside: bool): Option<Position>
    requires tab.Open?
  {
    if alongside && tab.work.Paging? then Some(tab.work.cursor) else None
  }

  function Fresh(at: Position, start: Position): Course {
    Course(Stretch(at, at), Stretch(start, start))
  }

  /** A new loop pages from `last`. */
  function Restart(c: Course, at: Position, last: Position): Course {
    if Before(c.current.upto, at) then Course(c.current, Stretch(last, last))
    else if Before(last, c.current.from) then Course(c.earlier, Stretch(last, last))
    else Reach(c, last)
  }

  function Reach(c: Course, next: Position): Course { c.(current := Stretch(c.current.from, next)) }

  function Flushed(w: World): Image
    requires w.tab.Open? && w.tab.work.Flushing?
  {
    w.image.(rows := FlushTo(w.image.rows, w.tab.work.buckets), cursor := Some(w.tab.lastSyncId))
  }

  ghost function Do(me: Option<Id>, own: Id -> ValueKey, w: World, step: Step): World
    requires Enabled(me, own, w, step)
  {
    match step
    case Settle(entries, frontier) => w.(log := w.log + entries, frontier := frontier)
    case Wipe => w.(image := Image(BLANK, false, None, NotAnArray))
    case Load =>
      if Accepts(w.image) then w.(tab := Open(LoadMemory(w.image.rows), w.image.cursor.value, true, Resting))
      else w.(tab := Open(EMPTY, ZERO, false, Resting))
    case CommitBootstrap(rows, disk, at, alongside) =>
      var resume := Survivor(w.tab, alongside);
      w.(image := Image(disk, true, Some(at), OwnStamp()), boot := Some(Snapshot(rows, at)),
         course := Fresh(at, resume.GetOr(at)),
         tab := w.tab.(work := Filling(rows, at, resume)))
    case FillMemory =>
      var work := w.tab.work;
      w.(tab := Open(work.rows, work.at, true, if work.resume.Some? then Paging(work.resume.value) else Resting))
    case StartDelta =>
      var last := w.tab.lastSyncId;
      w.(course := if w.tab.based && w.boot.Some? then Restart(w.course, w.boot.value.at, last) else w.course,
         tab := w.tab.(work := Paging(w.tab.lastSyncId)))
    case ReceivePage(settled) =>
      var res := Serve(w.log[..settled], w.tab.work.cursor);
      w.(course := if res.actions == [] then Reach(w.course, NextCursor(w.tab.work.cursor, res)) else w.course,
         tab := Received(me, w.tab, res))
    case CommitFlush =>
      var work := w.tab.work;
      w.(image := Flushed(w),
         course := Reach(w.course, work.next),
         tab := if work.more then w.tab.(work := Paging(work.next)) else Finish(w.tab, work.next))
    case EndLoop(raise) =>
      w.(tab := if raise then Finish(w.tab, w.tab.work.cursor) else w.tab.(work := Resting))
    case Die => w.(tab := Closed)
  }

  // ----- the invariant ------------------------------------------------------------------------

  /** The actions the image holds on top of the bootstrap. */
  function Kept(log: seq<Entry>, c: Course): seq<SyncAction> {
    Seen(log, c.earlier.from, c.earlier.upto) + Seen(log, c.current.from, c.current.upto)
  }

  function Expected(me: Option<Id>, boot: Snapshot, log: seq<Entry>, c: Course): Memory {
    ApplyAll(me, boot.rows, Kept(log, c))
  }

  /**
   * A cursor fits a stretch: nothing lies between it and the end of the stretch, or the stretch
   * stops short of the bootstrap and the cursor is the bootstrap's.
   */
  predicate Fits(log: seq<Entry>, at: Position, cursor: Position, from: Position, upto: Position) {
    && AtMost(at, cursor)
    && if Before(upto, at) then cursor == at else AtMost(cursor, upto) && Seen(log, Later(cursor, from), upto) == []
  }

  predicate CourseOk(at: Position, frontier: Position, c: Course) {
    && AtMost(c.earlier.upto, frontier) && AtMost(c.current.upto, frontier)
    && AtMost(c.earlier.from, c.earlier.upto) && AtMost(c.current.from, c.current.upto)
    && (c.earlier == Stretch(at, at) || (Before(c.earlier.upto, at) && c.current.from == at))
  }

  /** A stamped image is a committed bootstrap plus the stretches of its course. */
  ghost predicate ImageOk(me: Option<Id>, own: Id -> ValueKey, w: World) {
    Covers(w.image.stamp) ==>
      && w.boot.Some? && w.image.hasOrganization && w.image.cursor.Some?
      && AtMost(w.boot.value.at, w.frontier) && AtMost(w.image.cursor.value, w.frontier)
      && CourseOk(w.boot.value.at, w.frontier, w.course)
      && Fits(w.log, w.boot.value.at, w.image.cursor.value, w.course.current.from, w.course.current.upto)
      && OwnedValues(own, w.boot.value.rows.values)
      && Agree(own, Expected(me, w.boot.value, w.log, w.course), w.image.rows)
  }

  /** Between page and flush memory is ahead of the image by exactly the batch in flight. */
  ghost predicate WorkOk(me: Option<Id>, boot: Snapshot, log: seq<Entry>, c: Course, tab: Tab)
    requires tab.Open?
  {
    var expected := Expected(me, boot, log, c);
    match tab.work
    case Resting => tab.memory == expected && Fits(log, boot.at, tab.lastSyncId, c.current.from, c.current.upto)
    case Paging(cursor) =>
      && cursor == c.current.upto
      && tab.memory == expected && Fits(log, boot.at, tab.lastSyncId, c.current.from, cursor)
    case Flushing(batch, buckets, next, _) =>
      && AtMost(c.current.upto, next)
      && batch == Seen(log, c.current.upto, next) && buckets == Pending(me, expected, batch)
      && tab.memory == ApplyAll(me, expected, batch) && Fits(log, boot.at, tab.lastSyncId, c.current.from, next)
    case Filling(rows, at, resume) => boot == Snapshot(rows, at) && c == Fresh(at, resume.GetOr(at))
  }

  ghost predicate BasedOk(me: Option<Id>, w: World)
    requires w.tab.Open?
  {
    && Covers(w.image.stamp) && w.boot.Some? && w.image.cursor.Some?
    && (if w.tab.work.Filling? then w.image.cursor.value == w.tab.work.at
        else AtMost(w.image.cursor.value, w.tab.lastSyncId))
    && WorkOk(me, w.boot.value, w.log, w.course, w.tab)
  }

  ghost predicate TabOk(me: Option<Id>, w: World) {
    w.tab.Open? ==> if w.tab.based || w.tab.work.Filling? then BasedOk(me, w) else !Covers(w.image.stamp)
  }

  function LocalCursor(tab: Tab): Position
    requires tab.Open?
  {
    match tab.work
    case Resting => tab.lastSyncId
    case Paging(cursor) => cursor
    case Flushing(_, _, next, _) => next
    case Filling(_, at, resume) => resume.GetOr(at)
  }

  ghost predicate LogOk(me: Option<Id>, own: Id -> ValueKey, w: World) {
    GoodLog(me, own, w.log) && forall e | e in w.log :: AtMost(At(e), w.frontier)
  }

  /** No cursor is beyond what the server has settled. */
  predicate Bounded(w: World) {
    && AtMost(ZERO, w.frontier)
    && (w.tab.Open? ==> AtMost(w.tab.lastSyncId, w.frontier) && AtMost(LocalCursor(w.tab), w.frontier))
  }

  ghost predicate Inv(me: Option<Id>, own: Id -> ValueKey, w: World) {
    LogOk(me, own, w) && ImageOk(me, own, w) && TabOk(me, w) && Bounded(w)
  }

  /** No tab, and any cache whatever that does not carry a covering stamp. */
  ghost predicate Init(me: Option<Id>, own: Id -> ValueKey, w: World) {
    LogOk(me, own, w) && !Covers(w.image.stamp) && w.tab.Closed? && AtMost(ZERO, w.frontier)
  }

  // ----- cursors and courses ------------------------------------------------------------------

  /** Moving the end of the stretch over nothing. */
  lemma FitsOnward(log: seq<Entry>, at: Position, last: Position, from: Position, upto: Position, next: Position)
    requires Sorted(log) && AtMost(from, upto) && AtMost(upto, next)
    requires Fits(log, at, last, from, upto) && Seen(log, upto, next) == []
    ensures Fits(log, at, last, from, next)
  {
    if Before(upto, at) {
      if !Before(next, at) { SeenNarrow(log, upto, next, Later(last, from), next); }
    } else {
      SeenSplit(log, Later(last, from), upto, next);
    }
  }

  /** Moving it over actions of which `final` is the last. */
  lemma FitsThrough(
      log: seq<Entry>, at: Position, last: Position, from: Position, upto: Position, final: Position, next: Position)
    requires Sorted(log) && AtMost(from, upto) && Before(upto, final) && AtMost(final, next)
    requires Fits(log, at, last, from, upto) && Seen(log, final, next) == []
    ensures Fits(log, at, Later(last, final), from, next)
  {
    hide Seen, Sorted;
    if !Before(next, at) {
      SeenNarrow(log, final, next, Later(Later(last, final), from), next);
    }
  }

  /** Leaving the loop: the cursor is raised to the end of the stretch. */
  lemma FitsRaised(log: seq<Entry>, at: Position, last: Position, from: Position, upto: Position)
    requires AtMost(from, upto) && Fits(log, at, last, from, upto)
    ensures Fits(log, at, Later(last, upto), from, upto)
  {
    SeenNothing(log, upto);
  }

  /** A new loop keeps the rows, and both cursors fit its course. */
  lemma RestartKeeps(log: seq<Entry>, at: Position, frontier: Position, c: Course, cursor: Position, last: Position)
    requires Sorted(log) && CourseOk(at, frontier, c) && AtMost(cursor, last) && AtMost(last, frontier)
    requires AtMost(at, frontier)
    requires Fits(log, at, cursor, c.current.from, c.current.upto)
             && Fits(log, at, last, c.current.from, c.current.upto)
    ensures var r := Restart(c, at, last);
            && CourseOk(at, frontier, r) && r.current.upto == last && Kept(log, r) == Kept(log, c)
            && Fits(log, at, cursor, r.current.from, last) && Fits(log, at, last, r.current.from, last)
  {
    var (from, upto) := (c.current.from, c.current.upto);
    SeenNothing(log, last);
    SeenNothing(log, at);
    hide Seen;
    if Before(upto, at) {
    } else if Before(last, from) {
      SeenNarrow(log, Later(last, from), upto, from, upto);
    } else {
      SeenNarrow(log, Later(last, from), upto, last, upto);
      SeenSplit(log, from, last, upto);
      SeenNarrow(log, Later(cursor, from), upto, Later(cursor, from), last);
    }
  }

  /** The end of the stretch moves on by what is seen there. */
  lemma KeptReached(log: seq<Entry>, c: Course, next: Position)
    requires Sorted(log) && AtMost(c.current.from, c.current.upto) && AtMost(c.current.upto, next)
    ensures Kept(log, Reach(c, next)) == Kept(log, c) + Seen(log, c.current.upto, next)
  {
    SeenSplit(log, c.current.from, c.current.upto, next);
    hide Seen;
  }

  lemma ExpectedReached(me: Option<Id>, boot: Snapshot, log: seq<Entry>, c: Course, next: Position)
    requires Sorted(log) && AtMost(c.current.from, c.current.upto) && AtMost(c.current.upto, next)
    ensures var batch := Seen(log, c.current.upto, next);
            && Expected(me, boot, log, Reach(c, next)) == ApplyAll(me, Expected(me, boot, log, c), batch)
            && (batch == [] ==> Expected(me, boot, log, Reach(c, next)) == Expected(me, boot, log, c))
  {
    KeptReached(log, c, next);
    hide Kept, Seen;
    ApplyAllConcat(me, boot.rows, Kept(log, c), Seen(log, c.current.upto, next));
  }

  /** A fresh bootstrap has nothing on top of it yet. */
  lemma FreshKeeps(me: Option<Id>, boot: Snapshot, log: seq<Entry>, start: Position)
    ensures Kept(log, Fresh(boot.at, start)) == []
    ensures Expected(me, boot, log, Fresh(boot.at, start)) == boot.rows
    ensures Fits(log, boot.at, boot.at, start, start)
  {
    SeenNothing(log, boot.at);
    SeenNothing(log, start);
  }

  // ----- the invariant holds ------------------------------------------------------------------

  /** New rows lie beyond the frontier, so nobody's position sees more than before. */
  lemma SettleKeepsSeen(log: seq<Entry>, more: seq<Entry>, frontier: Position, p: Position, q: Position)
    requires AtMost(q, frontier) && forall e | e in more :: Before(frontier, At(e))
    ensures Seen(log + more, p, q) == Seen(log, p, q)
  {
    SeenConcat(log, more, p, q);
    SeenNone(more, p, q);
  }

  lemma SettleKeepsCourse(me: Option<Id>, w: World, more: seq<Entry>, boot: Snapshot)
    requires CourseOk(boot.at, w.frontier, w.course) && forall e | e in more :: Before(w.frontier, At(e))
    ensures Expected(me, boot, w.log + more, w.course) == Expected(me, boot, w.log, w.course)
    ensures forall cursor :: Fits(w.log, boot.at, cursor, w.course.current.from, w.course.current.upto)
              ==> Fits(w.log + more, boot.at, cursor, w.course.current.from, w.course.current.upto)
  {
    var c := w.course;
    SettleKeepsSeen(w.log, more, w.frontier, c.earlier.from, c.earlier.upto);
    SettleKeepsSeen(w.log, more, w.frontier, c.current.from, c.current.upto);
    hide Seen, ApplyAll;
    forall p ensures Seen(w.log + more, p, c.current.upto) == Seen(w.log, p, c.current.upto) {
      SettleKeepsSeen(w.log, more, w.frontier, p, c.current.upto);
    }
  }

  lemma SettleKeepsWork(me: Option<Id>, w: World, more: seq<Entry>)
    requires w.tab.Open? && w.boot.Some? && WorkOk(me, w.boot.value, w.log, w.course, w.tab)
    requires CourseOk(w.boot.value.at, w.frontier, w.course) && AtMost(LocalCursor(w.tab), w.frontier)
    requires forall e | e in more :: Before(w.frontier, At(e))
    ensures WorkOk(me, w.boot.value, w.log + more, w.course, w.tab)
  {
    SettleKeepsCourse(me, w, more, w.boot.value);
    if w.tab.work.Flushing? {
      var next := w.tab.work.next;
      SettleKeepsSeen(w.log, more, w.frontier, w.course.current.upto, next);
      SettleKeepsSeen(w.log, more, w.frontier, Later(w.tab.lastSyncId, w.course.current.from), next);
    }
    hide Seen, ApplyAll, Pending, Expected;
  }

  lemma SettleKeepsInv(me: Option<Id>, own: Id -> ValueKey, w: World, step: Step)
    requires Inv(me, own, w) && step.Settle? && Enabled(me, own, w, step)
    ensures Inv(me, own, Do(me, own, w, step))
  {
    hide GoodLog, Agree, OwnedValues, Expected, Fits, WorkOk, Covers;
    if Covers(w.image.stamp) {
      SettleKeepsCourse(me, w, step.entries, w.boot.value);
      if w.tab.Open? { SettleKeepsWork(me, w, step.entries); }
    }
  }

  lemma BootstrapKeepsInv(me: Option<Id>, own: Id -> ValueKey, w: World, step: Step)
    requires Inv(me, own, w) && (step.CommitBootstrap? || step.FillMemory?) && Enabled(me, own, w, step)
    ensures Inv(me, own, Do(me, own, w, step))
  {
    if step.CommitBootstrap? {
      FreshKeeps(me, Snapshot(step.rows, step.at), w.log, Survivor(w.tab, step.alongside).GetOr(step.at));
    } else {
      FreshKeeps(me, w.boot.value, w.log, w.course.current.from);
    }
    hide GoodLog, ApplyAll, Seen, Pending, Expected, Covers, Fits;
  }

  lemma LoadedValues(own: Id -> ValueKey, kept: map<ValueKey, Value>, table: map<Id, Value>)
    requires SameValues(own, kept, table)
    ensures SameValues(own, LoadValues(table), table)
  {
    var values := LoadValues(table);
    forall k | k in values ensures KeyOf(values[k]) == k && Cell(table, values[k].id) == Some(values[k]) {
      var w :| w in table && KeyOf(table[w]) == k && values[k] == table[w];
    }
    forall w ensures Cell(table, w) == ById(own, values, w) {
      if w in table {
        var k := KeyOf(table[w]);
        assert k in values;
        assert Cell(table, w) == ById(own, kept, w) && Cell(table, values[k].id) == ById(own, kept, values[k].id);
      }
    }
  }
  lemma LoadKeepsInv(me: Option<Id>, own: Id -> ValueKey, w: World)
    requires Inv(me, own, w) && w.tab.Closed?
    ensures Inv(me, own, Do(me, own, w, Load))
  {
    if Accepts(w.image) {
      var rows := Expected(me, w.boot.value, w.log, w.course);
      LoadedValues(own, rows.values, w.image.rows.values);
      AgreementIsUnique(own, LoadMemory(w.image.rows), rows, w.image.rows);
    }
    hide GoodLog, Agree, Expected, LoadMemory, Covers, Fits, CourseOk;
  }

  /** Steps that only put another tab, or another end of the stretch, in place. */
  lemma TurnKeepsInv(me: Option<Id>, own: Id -> ValueKey, w: World, c: Course, tab: Tab)
    requires Inv(me, own, w) && w.tab.Open? && w.tab.based && tab.Open? && tab.based && !tab.work.Filling?
    requires w.boot.Some? && w.image.cursor.Some?
    requires CourseOk(w.boot.value.at, w.frontier, c)
    requires Fits(w.log, w.boot.value.at, w.image.cursor.value, c.current.from, c.current.upto)
    requires Expected(me, w.boot.value, w.log, c) == Expected(me, w.boot.value, w.log, w.course)
    requires WorkOk(me, w.boot.value, w.log, c, tab)
    requires AtMost(w.image.cursor.value, tab.lastSyncId)
    requires AtMost(tab.lastSyncId, w.frontier) && AtMost(LocalCursor(tab), w.frontier)
    ensures Inv(me, own, w.(course := c, tab := tab))
  {
    hide GoodLog, Agree, Expected, Covers, Fits, CourseOk, WorkOk;
  }

  /** What the steps of a page loop may use of the invariant. */
  lemma LoopFacts(me: Option<Id>, own: Id -> ValueKey, w: World)
    requires Inv(me, own, w) && w.tab.Open? && w.tab.based && !w.tab.work.Filling?
    ensures w.boot.Some? && w.image.cursor.Some?
    ensures var (at, c) := (w.boot.value.at, w.course);
            && Covers(w.image.stamp) && Sorted(w.log)
            && AtMost(at, w.frontier) && CourseOk(at, w.frontier, c)
            && Fits(w.log, at, w.image.cursor.value, c.current.from, c.current.upto)
            && AtMost(w.image.cursor.value, w.tab.lastSyncId) && AtMost(w.tab.lastSyncId, w.frontier)
            && WorkOk(me, w.boot.value, w.log, c, w.tab)
  {
    hide GoodBatch, NoReuse, Agree, Covers, Fits, WorkOk, Sorted, Expected;
  }

  /** The loop ends, or goes on at the end of the stretch. */
  lemma TurnOk(me: Option<Id>, own: Id -> ValueKey, w: World, c: Course, cursor: Position)
    requires Inv(me, own, w) && w.tab.Open? && w.tab.based && w.tab.work.Paging?
    requires w.boot.Some? && w.image.cursor.Some?
    requires var at := w.boot.value.at;
             && CourseOk(at, w.frontier, c) && c.current.upto == cursor
             && Fits(w.log, at, w.image.cursor.value, c.current.from, cursor)
             && Fits(w.log, at, w.tab.lastSyncId, c.current.from, cursor)
             && Expected(me, w.boot.value, w.log, c) == Expected(me, w.boot.value, w.log, w.course)
    ensures Inv(me, own, w.(course := c, tab := Finish(w.tab, cursor)))
    ensures Inv(me, own, w.(course := c, tab := w.tab.(work := Paging(cursor))))
    ensures Inv(me, own, w.(course := c, tab := w.tab.(work := Resting)))
  {
    LoopFacts(me, own, w);
    FitsRaised(w.log, w.boot.value.at, w.tab.lastSyncId, c.current.from, cursor);
    hide Inv, Covers, Fits, Expected, Sorted;
    TurnKeepsInv(me, own, w, c, Finish(w.tab, cursor));
    TurnKeepsInv(me, own, w, c, w.tab.(work := Paging(cursor)));
    TurnKeepsInv(me, own, w, c, w.tab.(work := Resting));
  }

  lemma EndLoopKeepsInv(me: Option<Id>, own: Id -> ValueKey, w: World, step: Step)
    requires Inv(me, own, w) && Enabled(me, own, w, step) && step.EndLoop?
    ensures Inv(me, own, Do(me, own, w, step))
  {
    if w.tab.based {
      LoopFacts(me, own, w);
      hide Inv, Covers, Fits, Expected, Sorted, CourseOk;
      TurnOk(me, own, w, w.course, w.tab.work.cursor);
    } else {
      hide GoodLog, ImageOk, Covers;
    }
  }

  lemma StartKeepsInv(me: Option<Id>, own: Id -> ValueKey, w: World)
    requires Inv(me, own, w) && Enabled(me, own, w, StartDelta)
    ensures Inv(me, own, Do(me, own, w, StartDelta))
  {
    if w.tab.based {
      LoopFacts(me, own, w);
      var (at, c, last) := (w.boot.value.at, w.course, w.tab.lastSyncId);
      RestartKeeps(w.log, at, w.frontier, c, w.image.cursor.value, last);
      hide Inv, Covers, Fits, Sorted, CourseOk, Restart, Kept;
      TurnKeepsInv(me, own, w, Restart(c, at, last), w.tab.(work := Paging(last)));
    } else {
      hide GoodLog, Covers, Restart;
    }
  }

  lemma LaterOfGreatest(last: Position, ps: seq<Position>, final: Position)
    requires final in ps && forall q | q in ps :: AtMost(q, final)
    ensures LaterOf(last, ps) == Later(last, final)
  {
    LaterOfIsMaximum(last, ps);
    hide LaterOf;
    assert AtMost(final, LaterOf(last, ps));
  }

  /** Where the last action of a page lies, and that an apply ends on the later of it and the cursor before. */
  lemma PageCursor(log: seq<Entry>, settled: nat, cursor: Position, last: Position)
    requires Sorted(log) && settled <= |log|
    requires Serve(log[..settled], cursor).actions != []
    ensures var res := Serve(log[..settled], cursor);
            var next := NextCursor(cursor, res);
            var final := PositionOf(res.actions[|res.actions| - 1]);
            && Before(cursor, final) && AtMost(final, next) && Seen(log, final, next) == []
            && LaterOf(last, PositionsOf(res.actions)) == Later(last, final)
  {
    EarlierPageIsSeen(log, settled, cursor);
    var res := Serve(log[..settled], cursor);
    hide Serve, NextCursor;
    SeenCursor(log, cursor, NextCursor(cursor, res), last);
  }

  lemma SeenCursor(log: seq<Entry>, cursor: Position, next: Position, last: Position)
    requires Sorted(log) && Seen(log, cursor, next) != []
    ensures var actions := Seen(log, cursor, next);
            var final := PositionOf(actions[|actions| - 1]);
            && Before(cursor, final) && AtMost(final, next) && Seen(log, final, next) == []
            && LaterOf(last, PositionsOf(actions)) == Later(last, final)
  {
    var actions := Seen(log, cursor, next);
    LastSeen(log, cursor, next);
    hide Seen, LaterOf, Sorted;
    var end := actions[|actions| - 1];
    SeenBounds(log, cursor, next, end);
    var ps := PositionsOf(actions);
    assert ps[|ps| - 1] == PositionOf(end);
    forall q | q in ps ensures AtMost(q, PositionOf(end)) {
      var i :| 0 <= i < |ps| && ps[i] == q;
      assert actions[i] in actions;
      NotBeyond(log, PositionOf(end), next, cursor, actions[i]);
    }
    LaterOfGreatest(last, ps, PositionOf(end));
  }

  lemma {:induction false} NotBeyond(log: seq<Entry>, final: Position, next: Position, cursor: Position, a: SyncAction)
    requires Seen(log, final, next) == [] && a in Seen(log, cursor, next)
    ensures AtMost(PositionOf(a), final)
  {
    if a in Seen(log[1..], cursor, next) { NotBeyond(log[1..], final, next, cursor, a); }
  }

  /** The page step on its own. */
  lemma PageStep(me: Option<Id>, own: Id -> ValueKey, w: World, settled: nat)
    requires Enabled(me, own, w, ReceivePage(settled))
    ensures w.tab.Open? && w.tab.work.Paging? && settled <= |w.log|
    ensures var res := Serve(w.log[..settled], w.tab.work.cursor);
            var c := if res.actions == [] then Reach(w.course, NextCursor(w.tab.work.cursor, res)) else w.course;
            Do(me, own, w, ReceivePage(settled)) == w.(course := c, tab := Received(me, w.tab, res))
  {
    hide Serve, NextCursor, Received;
  }

  /** A page with something to apply: memory moves on, the image waits for the flush. */
  lemma AppliedPageOk(me: Option<Id>, own: Id -> ValueKey, w: World, settled: nat)
    requires Inv(me, own, w) && Enabled(me, own, w, ReceivePage(settled)) && w.tab.based
    requires w.tab.work.Paging? && settled <= |w.log| && Serve(w.log[..settled], w.tab.work.cursor).actions != []
    ensures Inv(me, own, Do(me, own, w, ReceivePage(settled)))
  {
    hide Inv, Enabled, Do, Covers, Serve, NextCursor, Seen, Expected, LaterOf, ApplyAll, Pending, Fits, Received,
        Sorted;
    PageStep(me, own, w, settled);
    LoopFacts(me, own, w);
    var (at, last, c, cursor) := (w.boot.value.at, w.tab.lastSyncId, w.course, w.tab.work.cursor);
    EarlierPageIsSeen(w.log, settled, cursor);
    PageCursor(w.log, settled, cursor, last);
    var res := Serve(w.log[..settled], cursor);
    var next := NextCursor(cursor, res);
    NextIsBounded(me, own, w, next);
    FitsThrough(w.log, at, last, c.current.from, cursor, PositionOf(res.actions[|res.actions| - 1]), next);
    ReceivedWorkOk(me, w, res, next);
    hide WorkOk, CourseOk;
    TurnKeepsInv(me, own, w, c, Received(me, w.tab, res));
  }

  lemma ReceivedWorkOk(me: Option<Id>, w: World, res: Response, next: Position)
    requires w.tab.Open? && w.tab.work.Paging? && w.boot.Some? && WorkOk(me, w.boot.value, w.log, w.course, w.tab)
    requires res.Page? && res.actions != [] && next == NextCursor(w.tab.work.cursor, res)
    requires res.actions == Seen(w.log, w.tab.work.cursor, next) && AtMost(w.tab.work.cursor, next)
    requires Fits(w.log, w.boot.value.at, LaterOf(w.tab.lastSyncId, PositionsOf(res.actions)), w.course.current.from,
             next)
    ensures var tab := Received(me, w.tab, res);
            && tab.Open? && tab.based == w.tab.based && tab.work.Flushing? && tab.work.next == next
            && tab.lastSyncId == LaterOf(w.tab.lastSyncId, PositionsOf(res.actions))
            && WorkOk(me, w.boot.value, w.log, w.course, tab)
  {
    hide Expected, Fits, NextCursor, Seen, LaterOf, Pending, ApplyAll;
  }

  lemma NextIsBounded(me: Option<Id>, own: Id -> ValueKey, w: World, next: Position)
    requires Inv(me, own, w) && w.tab.Open? && w.tab.work.Paging?
    requires next == w.tab.work.cursor || exists e | e in w.log :: At(e) == next
    ensures AtMost(next, w.frontier)
  {
    hide GoodLog, ImageOk, TabOk;
  }

  lemma EmptyPageReceived(me: Option<Id>, tab: Tab, res: Response)
    requires tab.Open? && tab.work.Paging? && res.Page? && res.actions == []
    ensures var next := NextCursor(tab.work.cursor, res);
            Received(me, tab, res) == Finish(tab, next) || Received(me, tab, res) == tab.(work := Paging(next))
  {
    hide NextCursor;
  }

  /** A page with nothing visible: only the local cursor moves, or the loop ends. */
  lemma EmptyPageOk(me: Option<Id>, own: Id -> ValueKey, w: World, settled: nat)
    requires Inv(me, own, w) && Enabled(me, own, w, ReceivePage(settled)) && w.tab.based
    requires w.tab.work.Paging? && settled <= |w.log| && Serve(w.log[..settled], w.tab.work.cursor).actions == []
    ensures Inv(me, own, Do(me, own, w, ReceivePage(settled)))
  {
    hide Inv, Enabled, Do, Covers, Serve, NextCursor, Seen, Expected, ApplyAll, Fits, Received, Sorted;
    PageStep(me, own, w, settled);
    LoopFacts(me, own, w);
    var (at, c, cursor) := (w.boot.value.at, w.course, w.tab.work.cursor);
    EarlierPageIsSeen(w.log, settled, cursor);
    var res := Serve(w.log[..settled], cursor);
    var next := NextCursor(cursor, res);
    NextIsBounded(me, own, w, next);
    ExpectedReached(me, w.boot.value, w.log, c, next);
    FitsOnward(w.log, at, w.tab.lastSyncId, c.current.from, cursor, next);
    FitsOnward(w.log, at, w.image.cursor.value, c.current.from, cursor, next);
    TurnOk(me, own, w, Reach(c, next), next);
    EmptyPageReceived(me, w.tab, res);
  }

  /** A tab that rests on nothing writes to an image that claims nothing. */
  lemma UnbasedPageKeepsInv(me: Option<Id>, own: Id -> ValueKey, w: World, settled: nat)
    requires Inv(me, own, w) && Enabled(me, own, w, ReceivePage(settled)) && !w.tab.based
    ensures Inv(me, own, Do(me, own, w, ReceivePage(settled)))
  {
    hide Inv, Enabled, Do, Covers, Serve, NextCursor, Seen, LaterOf, Received;
    PageStep(me, own, w, settled);
    InvLog(me, own, w);
    hide Sorted, GoodLog;
    var (cursor, last) := (w.tab.work.cursor, w.tab.lastSyncId);
    EarlierPageIsSeen(w.log, settled, cursor);
    var res := Serve(w.log[..settled], cursor);
    var next := NextCursor(cursor, res);
    NextIsBounded(me, own, w, next);
    if res.actions != [] { PageCursor(w.log, settled, cursor, last); }
    ReceivedCursors(me, w.tab, res);
    UnbasedKeepsInv(me, own, w, Do(me, own, w, ReceivePage(settled)));
  }

  lemma ReceivedCursors(me: Option<Id>, tab: Tab, res: Response)
    requires tab.Open? && tab.work.Paging? && res.Page?
    ensures var r := Received(me, tab, res);
            var next := NextCursor(tab.work.cursor, res);
            && r.Open? && r.based == tab.based && !r.work.Filling?
            && (r.lastSyncId in {tab.lastSyncId, next}
               || r.lastSyncId == LaterOf(tab.lastSyncId, PositionsOf(res.actions)))
            && LocalCursor(r) in {next, r.lastSyncId}
            && (r.lastSyncId == LaterOf(tab.lastSyncId, PositionsOf(res.actions)) && res.actions == [] ==>
                  r.lastSyncId == tab.lastSyncId)
  {
    hide NextCursor, ApplyAll, Pending;
  }

  /** As long as the image claims nothing, only the cursors matter. */
  lemma UnbasedKeepsInv(me: Option<Id>, own: Id -> ValueKey, w: World, w': World)
    requires Inv(me, own, w) && w.tab.Open? && !w.tab.based && !w.tab.work.Filling?
    requires w'.log == w.log && w'.frontier == w.frontier && w'.image.stamp == w.image.stamp
    requires w'.tab.Open? && !w'.tab.based && !w'.tab.work.Filling?
    requires AtMost(w'.tab.lastSyncId, w.frontier) && AtMost(LocalCursor(w'.tab), w.frontier)
    ensures Inv(me, own, w')
  {
    hide GoodLog, Covers;
  }

  /** The flush brings the image to where memory is. */
  lemma FlushKeepsAgreement(
      me: Option<Id>, own: Id -> ValueKey, log: seq<Entry>, s: Memory, p: Position, q: Position, disk: Disk)
    requires GoodLog(me, own, log) && AtMost(p, q) && Agree(own, s, disk)
    ensures var batch := Seen(log, p, q);
            var b := Pending(me, s, batch);
            Ordered(b) && Agree(own, ApplyAll(me, s, batch), FlushTo(disk, b))
  {
    var batch := Seen(log, p, q);
    SeenIsSlice(log, p, q);
    var i, j :| 0 <= i <= j <= |Visible(log)| && batch == Visible(log)[i..j];
    hide Agree, ApplyAll, Seen, Pending, NoReuse, Resurrects, FlushTo, Ordered;
    NoReuseIsSafe(me, Visible(log), i, j);
    CopiesAgreeExactly(me, own, s, disk, batch);
  }

  lemma InvLog(me: Option<Id>, own: Id -> ValueKey, w: World)
    requires Inv(me, own, w)
    ensures GoodLog(me, own, w.log) && Bounded(w)
  {
  }

  lemma InvAgree(me: Option<Id>, own: Id -> ValueKey, w: World)
    requires Inv(me, own, w) && Covers(w.image.stamp)
    ensures w.boot.Some? && OwnedValues(own, w.boot.value.rows.values)
    ensures Agree(own, Expected(me, w.boot.value, w.log, w.course), w.image.rows)
  {
  }

  /** The image a flush leaves, with the end of the stretch moved on. */
  lemma FlushedImageOk(me: Option<Id>, own: Id -> ValueKey, w: World)
    requires Inv(me, own, w) && Enabled(me, own, w, CommitFlush) && w.tab.based
    ensures var (c, image) := (Reach(w.course, w.tab.work.next), Flushed(w));
            && ImageOk(me, own, w.(image := image, course := c))
            && w.tab.memory == Expected(me, w.boot.value, w.log, c)
  {
    LoopFacts(me, own, w);
    InvLog(me, own, w);
    InvAgree(me, own, w);
    var (c, next) := (w.course, w.tab.work.next);
    FlushKeepsAgreement(me, own, w.log, Expected(me, w.boot.value, w.log, c), c.current.upto, next, w.image.rows);
    ExpectedReached(me, w.boot.value, w.log, c, next);
    hide GoodLog, Agree, ApplyAll, Seen, Pending, Covers, FlushTo, Ordered, Expected, Fits, Sorted;
  }

  lemma FlushStep(me: Option<Id>, own: Id -> ValueKey, w: World)
    requires Enabled(me, own, w, CommitFlush)
    ensures w.tab.Open? && w.tab.work.Flushing?
    ensures var work := w.tab.work;
            var tab := if work.more then w.tab.(work := Paging(work.next)) else Finish(w.tab, work.next);
            Do(me, own, w, CommitFlush) == w.(image := Flushed(w), course := Reach(w.course, work.next), tab := tab)
  {
    hide FlushTo;
  }

  lemma FlushKeepsInv(me: Option<Id>, own: Id -> ValueKey, w: World)
    requires Inv(me, own, w) && Enabled(me, own, w, CommitFlush)
    ensures Inv(me, own, Do(me, own, w, CommitFlush))
  {
    FlushStep(me, own, w);
    if w.tab.based {
      FlushedImageOk(me, own, w);
      FlushedTabOk(me, own, w);
      hide Enabled, Do, ImageOk, TabOk, GoodLog, Finish;
      assert LogOk(me, own, w);
    } else {
      hide Enabled, Do, GoodLog, Covers, FlushTo;
    }
  }

  lemma FlushedTabOk(me: Option<Id>, own: Id -> ValueKey, w: World)
    requires Inv(me, own, w) && Enabled(me, own, w, CommitFlush) && w.tab.based
    requires w.boot.Some? && w.tab.memory == Expected(me, w.boot.value, w.log, Reach(w.course, w.tab.work.next))
    ensures TabOk(me, Do(me, own, w, CommitFlush)) && Bounded(Do(me, own, w, CommitFlush))
  {
    LoopFacts(me, own, w);
    FlushStep(me, own, w);
    var (c, next) := (w.course, w.tab.work.next);
    FitsRaised(w.log, w.boot.value.at, w.tab.lastSyncId, c.current.from, next);
    assert Bounded(w);
    hide Inv, Enabled, Do, FlushTo, Covers, Expected, Fits, Sorted, Seen, Pending, ApplyAll;
  }

  lemma IdleStepKeepsInv(me: Option<Id>, own: Id -> ValueKey, w: World, step: Step)
    requires Inv(me, own, w) && Enabled(me, own, w, step) && (step.Wipe? || step.Die?)
    ensures Inv(me, own, Do(me, own, w, step))
  {
    hide GoodLog, Agree, Expected, Fits, CourseOk, WorkOk;
  }

  lemma StepKeepsInv(me: Option<Id>, own: Id -> ValueKey, w: World, step: Step)
    requires Inv(me, own, w) && Enabled(me, own, w, step)
    ensures Inv(me, own, Do(me, own, w, step))
  {
    hide Inv, Do;
    match step
    case Settle(_, _) => SettleKeepsInv(me, own, w, step);
    case Load => LoadKeepsInv(me, own, w);
    case CommitBootstrap(_, _, _, _) => BootstrapKeepsInv(me, own, w, step);
    case FillMemory => BootstrapKeepsInv(me, own, w, step);
    case StartDelta => StartKeepsInv(me, own, w);
    case CommitFlush => FlushKeepsInv(me, own, w);
    case EndLoop(_) => EndLoopKeepsInv(me, own, w, step);
    case ReceivePage(settled) =>
      PageStep(me, own, w, settled);
      if !w.tab.based {
        UnbasedPageKeepsInv(me, own, w, settled);
      } else if Serve(w.log[..settled], w.tab.work.cursor).actions == [] {
        EmptyPageOk(me, own, w, settled);
      } else {
        AppliedPageOk(me, own, w, settled);
      }
    case _ => IdleStepKeepsInv(me, own, w, step);
  }

  // ----- whole runs ---------------------------------------------------------------------------

  ghost predicate Reaches(me: Option<Id>, own: Id -> ValueKey, w: World, steps: seq<Step>, w': World)
    decreases steps
  {
    if steps == [] then w == w'
    else Enabled(me, own, w, steps[0]) && Reaches(me, own, Do(me, own, w, steps[0]), steps[1..], w')
  }

  lemma InitInv(me: Option<Id>, own: Id -> ValueKey, w: World)
    requires Init(me, own, w)
    ensures Inv(me, own, w) && Straight(w)
  {
  }

  lemma {:induction false} RunKeepsInv(me: Option<Id>, own: Id -> ValueKey, w: World, steps: seq<Step>, w': World)
    requires Inv(me, own, w) && Reaches(me, own, w, steps, w')
    ensures Inv(me, own, w')
    decreases steps
  {
    hide Inv, Enabled, Do;
    if steps != [] {
      StepKeepsInv(me, own, w, steps[0]);
      RunKeepsInv(me, own, Do(me, own, w, steps[0]), steps[1..], w');
    }
  }

  /** The commit puts a bootstrap under a loop that pages from somewhere else. */
  predicate Overlaps(w: World, step: Step) {
    && step.CommitBootstrap? && w.tab.Open?
    && Survivor(w.tab, step.alongside).Some? && Survivor(w.tab, step.alongside) != Some(step.at)
  }

  /** The copies hold one stretch on top of the bootstrap, and it starts where the bootstrap ends. */
  predicate Straight(w: World) {
    Covers(w.image.stamp) && w.boot.Some? ==>
      var at := w.boot.value.at; w.course.earlier == Stretch(at, at) && w.course.current.from == at
  }

  lemma StepKeepsStraightExactly(me: Option<Id>, own: Id -> ValueKey, w: World, step: Step)
    requires Inv(me, own, w) && Enabled(me, own, w, step) && Straight(w)
    ensures Straight(Do(me, own, w, step)) <==> !Overlaps(w, step)
  {
    assert !Covers(NotAnArray);
    hide GoodLog, Expected, Agree, Seen, Pending, ApplyAll, Covers, Serve, NextCursor, FlushTo, Received;
    if step.StartDelta? && w.tab.based {
      LoopFacts(me, own, w);
      hide Inv;
    } else {
      hide Inv, Restart;
    }
  }

  /** Every bootstrap of the run commits with no loop under way, or with one that stands at its cursor. */
  ghost predicate Apart(me: Option<Id>, own: Id -> ValueKey, w: World, steps: seq<Step>)
    decreases steps
  {
    steps != [] ==>
      && Enabled(me, own, w, steps[0]) && !Overlaps(w, steps[0])
      && Apart(me, own, Do(me, own, w, steps[0]), steps[1..])
  }

  lemma {:induction false} RunStaysStraight(me: Option<Id>, own: Id -> ValueKey, w: World, steps: seq<Step>, w': World)
    requires Inv(me, own, w) && Straight(w) && Reaches(me, own, w, steps, w') && Apart(me, own, w, steps)
    ensures Straight(w')
    decreases steps
  {
    hide Inv, Enabled, Do, Straight, Overlaps;
    if steps != [] {
      StepKeepsInv(me, own, w, steps[0]);
      StepKeepsStraightExactly(me, own, w, steps[0]);
      RunStaysStraight(me, own, Do(me, own, w, steps[0]), steps[1..], w');
    }
  }

  /** On a straight course the image holds what is seen from the bootstrap to the persisted cursor. */
  lemma StraightKept(me: Option<Id>, own: Id -> ValueKey, w: World)
    requires Inv(me, own, w) && Straight(w) && Covers(w.image.stamp)
    ensures w.boot.Some? && w.image.cursor.Some?
    ensures Kept(w.log, w.course) == Seen(w.log, w.boot.value.at, w.image.cursor.value)
  {
    var (at, cursor, upto) := (w.boot.value.at, w.image.cursor.value, w.course.current.upto);
    SeenNothing(w.log, at);
    SeenSplit(w.log, at, cursor, upto);
    hide GoodLog, Seen, Expected, Agree;
  }

  /**
   * Wherever earlier tabs died, a cache that is accepted is exactly the last committed bootstrap
   * plus its course; if no bootstrap was put under a running loop, that is every visible row from
   * the bootstrap up to the persisted cursor.
   */
  lemma AcceptedCacheIsExact(me: Option<Id>, own: Id -> ValueKey, w: World, steps: seq<Step>, w': World)
    requires Init(me, own, w) && Reaches(me, own, w, steps, w')
    ensures Accepts(w'.image) ==>
              && w'.boot.Some?
              && Agree(own, Expected(me, w'.boot.value, w'.log, w'.course), w'.image.rows)
    ensures Accepts(w'.image) && Apart(me, own, w, steps) ==>
              && w'.boot.Some?
              && var boot := w'.boot.value;
                 Agree(own, ApplyAll(me, boot.rows, Seen(w'.log, boot.at, w'.image.cursor.value)), w'.image.rows)
  {
    InitInv(me, own, w);
    RunKeepsInv(me, own, w, steps, w');
    if Accepts(w'.image) {
      InvAgree(me, own, w');
      if Apart(me, own, w, steps) {
        RunStaysStraight(me, own, w, steps, w');
        StraightKept(me, own, w');
      }
    }
    hide Agree, ApplyAll, Kept, Inv, Covers, Seen, Apart, Reaches, Straight;
  }

  ghost predicate UpToDate(w: World) {
    && w.tab.Open? && w.tab.based && !w.tab.work.Filling?
    && After(w.log, LocalCursor(w.tab)) == []
  }

  /** The course as the next loop will find it. */
  function Standing(w: World): Course
    requires w.tab.Open? && w.boot.Some?
  {
    if w.tab.work.Resting? then Restart(w.course, w.boot.value.at, w.tab.lastSyncId)
    else Reach(w.course, LocalCursor(w.tab))
  }

  /** Memory is the bootstrap and the course up to the local cursor, in every state between two steps. */
  lemma MemoryIsExpected(me: Option<Id>, own: Id -> ValueKey, w: World)
    requires Inv(me, own, w) && w.tab.Open? && w.tab.based && !w.tab.work.Filling?
    ensures w.boot.Some?
    ensures var c := Standing(w);
            && w.tab.memory == Expected(me, w.boot.value, w.log, c) && c.current.upto == LocalCursor(w.tab)
            && CourseOk(w.boot.value.at, w.frontier, c)
  {
    LoopFacts(me, own, w);
    var (at, c) := (w.boot.value.at, w.course);
    if w.tab.work.Resting? {
      RestartKeeps(w.log, at, w.frontier, c, w.image.cursor.value, w.tab.lastSyncId);
    } else if w.tab.work.Flushing? {
      ExpectedReached(me, w.boot.value, w.log, c, w.tab.work.next);
      assert AtMost(LocalCursor(w.tab), w.frontier) by { InvLog(me, own, w); }
    }
    hide Inv, Covers, Fits, Restart, ApplyAll, Sorted, Seen, Pending, Kept;
  }

  /** A tab that has caught up holds the bootstrap, what a stopped loop left, and all from `from` on. */
  lemma CaughtUpRows(me: Option<Id>, own: Id -> ValueKey, w: World)
    requires Inv(me, own, w) && UpToDate(w)
    ensures w.boot.Some?
    ensures var c := Standing(w);
            && CourseOk(w.boot.value.at, w.frontier, c)
            && w.tab.memory == ApplyAll(me, w.boot.value.rows,
                 Seen(w.log, c.earlier.from, c.earlier.upto) + Visible(After(w.log, c.current.from)))
  {
    MemoryIsExpected(me, own, w);
    InvLog(me, own, w);
    SeenToTheEnd(w.log, Standing(w).current.from, LocalCursor(w.tab));
    hide Inv, Standing, CourseOk, ApplyAll, Seen, After, Visible, GoodBatch, NoReuse, Sorted;
  }

  /** On a straight course that is the bootstrap and every visible row after it, crashes or not. */
  lemma CaughtUpIsComplete(me: Option<Id>, own: Id -> ValueKey, w: World)
    requires Inv(me, own, w) && UpToDate(w) && Straight(w)
    ensures w.boot.Some?
    ensures w.tab.memory == ApplyAll(me, w.boot.value.rows, Visible(After(w.log, w.boot.value.at)))
  {
    CaughtUpRows(me, own, w);
    LoopFacts(me, own, w);
    SeenNothing(w.log, w.boot.value.at);
    hide Inv, Covers, Seen, After, Visible, ApplyAll, Sorted, Expected, Pending;
    var all := Visible(After(w.log, w.boot.value.at));
    assert Standing(w).earlier == w.course.earlier && Standing(w).current.from == w.boot.value.at;
    assert [] + all == all;
  }

  /**
   * Two histories that end caught up on the same log from the same bootstrap end with the same
   * rows in memory, and on disk once flushed, whatever crashed on the way.
   */
  lemma CrashesLeaveNoTrace(me: Option<Id>, own: Id -> ValueKey, w: World, v: World)
    requires Inv(me, own, w) && UpToDate(w) && Straight(w) && Inv(me, own, v) && UpToDate(v) && Straight(v)
    requires w.log == v.log && w.boot == v.boot
    ensures w.tab.memory == v.tab.memory
    ensures !v.tab.work.Flushing? ==> Agree(own, w.tab.memory, v.image.rows)
  {
    CaughtUpIsComplete(me, own, w);
    CaughtUpIsComplete(me, own, v);
    LoopFacts(me, own, v);
    InvAgree(me, own, v);
    hide Inv, UpToDate, Straight, Covers, After, Visible, ApplyAll, Seen, Agree, Sorted, Expected, Fits, Pending;
  }
}
