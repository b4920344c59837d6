/**
 * A bootstrap committed while a page loop is running (src/lib/sync-manager.ts:1300-1329 schedules
 * one, 779-788 keeps the loop on its own cursor): when the loop repairs what it does, exactly when
 * the rows end wrong if it does not, and runs that get there.
 */
module Rebootstrap {
  import opened Common
  import opened Positions
  import opened Rows
  import opened Replica
  import opened Flush
  import opened DeltaLoop
  import opened Stream
  import opened Crash
  import opened Conflicts

  /** The cursor falls between row `n` of the log and the row before it. */
  predicate Falls(log: seq<Entry>, p: Position, n: nat) {
    && n <= |log|
    && (forall i | 0 <= i < n :: AtMost(At(log[i]), p))
    && (n < |log| ==> Before(p, At(log[n])))
  }

  /** The rows of a snapshot that covers the first `n` rows of the log and may reflect later ones. */
  ghost predicate Snaps(me: Option<Id>, log: seq<Entry>, rows: Memory, origin: Memory, n: nat, early: seq<SyncAction>)
    requires n <= |log|
  {
    && rows == ApplyAll(me, ApplyAll(me, origin, Visible(log[..n])), early)
    && forall a | a in early :: a in Visible(log[n..])
  }

  lemma BetweenFalls(log: seq<Entry>, p: Position, q: Position, i: nat, j: nat)
    requires Sorted(log) && Falls(log, p, i) && Falls(log, q, j) && i <= j
    ensures forall e | e in log[..i] :: AtMost(At(e), p)
    ensures forall e | e in log[i..j] :: Before(p, At(e)) && AtMost(At(e), q)
    ensures forall e | e in log[j..] :: Before(q, At(e))
  {
    assert forall k | i < k < |log| :: Before(At(log[i]), At(log[k]));
    assert forall k | j < k < |log| :: Before(At(log[j]), At(log[k]));
  }

  lemma SeenBetween(log: seq<Entry>, p: Position, q: Position, i: nat, j: nat)
    requires Sorted(log) && Falls(log, p, i) && Falls(log, q, j) && i <= j
    ensures Seen(log, p, q) == Visible(log[i..j])
  {
    BetweenFalls(log, p, q, i, j);
    hide Sorted, Seen, Visible, Before, AtMost, Falls;
    var low, mid, high := log[..i], log[i..j], log[j..];
    assert log == low + (mid + high);
    SeenConcat(low, mid + high, p, q);
    SeenConcat(mid, high, p, q);
    SeenNone(low, p, q);
    SeenAll(mid, p, q);
    SeenNone(high, p, q);
  }

  lemma VisibleCut(log: seq<Entry>, i: nat, j: nat)
    requires i <= j <= |log|
    ensures Visible(log[..j]) == Visible(log[..i]) + Visible(log[i..j])
    ensures Visible(log[i..]) == Visible(log[i..j]) + Visible(log[j..])
  {
    assert log[..j] == log[..i] + log[i..j] && log[i..] == log[i..j] + log[j..];
    VisibleConcat(log[..i], log[i..j]);
    VisibleConcat(log[i..j], log[j..]);
  }

  lemma VisiblePart(own: Id -> ValueKey, log: seq<Entry>, i: nat, j: nat)
    requires i <= j <= |log| && GoodBatch(own, Visible(log))
    ensures GoodBatch(own, Visible(log[i..j])) && AllWellFormed(Visible(log[i..j]))
  {
    VisibleSlice(log, i, j);
    hide Visible;
  }

  /** Stretches applied twice: what was applied before, applied again with all that followed it. */
  lemma BandAbsorbed(me: Option<Id>, s: Memory, log: seq<Entry>, m: nat, n: nat)
    requires m <= n <= |log| && AllWellFormed(Visible(log))
    ensures ApplyAll(me, ApplyAll(me, s, Visible(log[..n])), Visible(log[m..])) == ApplyAll(me, s, Visible(log))
  {
    var low, band, rest := Visible(log[..m]), Visible(log[m..n]), Visible(log[m..]);
    VisibleCut(log, m, n);
    VisibleCut(log, m, |log|);
    assert log[m..|log|] == log[m..] && log[..|log|] == log;
    hide Visible, ApplyAll;
    ApplyAllConcat(me, s, low, band);
    ApplyAllConcat(me, s, low, rest);
    RedeliveryAbsorbed(me, ApplyAll(me, s, low), band, rest);
  }

  // ----- a loop that goes on from no further than the snapshot --------------------------------

  /**
   * If the loop pages from a point the snapshot covers, and catches up, every row is right: old
   * pages over the snapshot are absorbed by the ones that follow them. Without a running loop the
   * point is the bootstrap's own cursor.
   */
  lemma BootstrapHandsOver(
      me: Option<Id>, own: Id -> ValueKey, w: World, origin: Memory, n: nat, m: nat, early: seq<SyncAction>)
    requires Inv(me, own, w) && UpToDate(w) && w.boot.Some?
    requires Standing(w).earlier == Stretch(w.boot.value.at, w.boot.value.at)
    requires Falls(w.log, Standing(w).current.from, m) && m <= n <= |w.log|
    requires Snaps(me, w.log, w.boot.value.rows, origin, n, early)
    ensures w.tab.memory == ApplyAll(me, origin, Visible(w.log))
  {
    CaughtUpRows(me, own, w);
    InvLog(me, own, w);
    SeenNothing(w.log, w.boot.value.at);
    AfterIs(w.log, Standing(w).current.from, m);
    VisibleCut(w.log, m, n);
    hide Inv, UpToDate, Standing, Seen, ApplyAll, After, Visible, NoReuse, Sorted;
    var log := w.log;
    var rest := Visible(log[m..]);
    assert [] + rest == rest;
    PartsAreGood(own, log, m);
    RedeliveryAbsorbed(me, ApplyAll(me, origin, Visible(log[..n])), early, rest);
    BandAbsorbed(me, origin, log, m, n);
  }

  lemma PartsAreGood(own: Id -> ValueKey, log: seq<Entry>, m: nat)
    requires m <= |log| && GoodBatch(own, Visible(log))
    ensures GoodBatch(own, Visible(log[..m])) && GoodBatch(own, Visible(log[m..]))
    ensures AllWellFormed(Visible(log)) && AllWellFormed(Visible(log[m..]))
  {
    hide Visible, GoodBatch;
    assert log[0..m] == log[..m] && log[m..|log|] == log[m..] && log[0..|log|] == log;
    VisiblePart(own, log, 0, m);
    VisiblePart(own, log, m, |log|);
    VisiblePart(own, log, 0, |log|);
  }

  // ----- a loop that stopped short of the snapshot --------------------------------------------

  /** The rows a loop leaves that stopped short, in terms of the batches alone. */
  lemma StoppedShortRows(
      me: Option<Id>, s: Memory, older: seq<SyncAction>, newer: seq<SyncAction>, early: seq<SyncAction>,
      later: seq<SyncAction>)
    requires AllWellFormed(older) && AllWellFormed(newer) && AllWellFormed(later)
    requires forall a | a in early :: a in later
    ensures ApplyAll(me, ApplyAll(me, ApplyAll(me, s, older + newer), early), older + later)
            == ApplyAll(me, s, newer + older + later)
  {
    hide ApplyAll, EarlyDelivery;
    RedeliveryAbsorbed(me, ApplyAll(me, s, older + newer), early, older + later);
    Reassociated(older, newer, older, later);
    ApplyAllConcat(me, s, older + newer, older + later);
    ApplyAllConcat(me, s, older, newer + older + later);
    RedeliveryAbsorbed(me, s, older, newer + older + later);
  }

  /**
   * If the loop stopped short of the bootstrap, the rows of a tab that has caught up since are
   * right exactly if no row clashes: none on which the pages the loop put over the snapshot and the
   * actions it never got to disagree, unless something later settles it.
   */
  lemma StoppedShortExactly(
      me: Option<Id>, own: Id -> ValueKey, w: World, origin: Memory, i: nat, d: nat, n: nat, early: seq<SyncAction>)
    requires Inv(me, own, w) && UpToDate(w) && w.boot.Some? && OwnedValues(own, origin.values)
    requires Before(Standing(w).earlier.upto, w.boot.value.at)
    requires Falls(w.log, Standing(w).earlier.from, i) && Falls(w.log, Standing(w).earlier.upto, d)
    requires Falls(w.log, w.boot.value.at, n) && i <= d <= n
    requires Snaps(me, w.log, w.boot.value.rows, origin, n, early)
    ensures w.tab.memory == ApplyAll(me, origin, Visible(w.log))
            <==> !Clashes(me, Visible(w.log[i..d]), Visible(w.log[d..n]), Visible(w.log[n..]))
  {
    CaughtUpRows(me, own, w);
    InvLog(me, own, w);
    var (log, c) := (w.log, Standing(w));
    SeenBetween(log, c.earlier.from, c.earlier.upto, i, d);
    AfterIs(log, w.boot.value.at, n);
    hide Inv, UpToDate, Standing, Seen, ApplyAll, After, Visible, NoReuse, Sorted, Clashes, GoodBatch, AllWellFormed,
      OwnedValues, Falls;
    var (low, older, newer, later) := (Visible(log[..i]), Visible(log[i..d]), Visible(log[d..n]), Visible(log[n..]));
    VisiblePart(own, log, i, d);
    VisiblePart(own, log, d, n);
    PartsAreGood(own, log, n);
    PartsAreGood(own, log, i);
    var s := ApplyAll(me, origin, low);
    ValuesStayOwnedAll(me, own, origin, low);
    FourParts(me, origin, log, i, d, n);
    StoppedShortRows(me, s, older, newer, early, later);
    OrderMattersExactly(me, own, s, older, newer, later);
  }

  lemma FourParts(me: Option<Id>, origin: Memory, log: seq<Entry>, i: nat, d: nat, n: nat)
    requires i <= d <= n <= |log|
    ensures var s := ApplyAll(me, origin, Visible(log[..i]));
            var (older, newer) := (Visible(log[i..d]), Visible(log[d..n]));
            && ApplyAll(me, origin, Visible(log[..n])) == ApplyAll(me, s, older + newer)
            && ApplyAll(me, origin, Visible(log)) == ApplyAll(me, s, older + newer + Visible(log[n..]))
  {
    hide Visible, ApplyAll;
    VisibleCut(log, i, d);
    VisibleCut(log, d, n);
    VisibleCut(log, n, |log|);
    assert log[..|log|] == log && log[n..|log|] == log[n..];
    var (low, older, newer, later) := (Visible(log[..i]), Visible(log[i..d]), Visible(log[d..n]), Visible(log[n..]));
    Regrouped(low, older, newer, later);
    ApplyAllConcat(me, origin, low, older + newer);
    ApplyAllConcat(me, origin, low, older + newer + later);
  }

  lemma Reassociated<T>(a: seq<T>, b: seq<T>, c: seq<T>, d: seq<T>)
    ensures (a + b) + (c + d) == a + ((b + c) + d)
  {
  }

  lemma Regrouped<T>(a: seq<T>, b: seq<T>, c: seq<T>, d: seq<T>)
    ensures (a + b) + c == a + (b + c) && ((a + b) + c) + d == a + ((b + c) + d)
  {
  }

  // ----- a loop that was already beyond the snapshot ------------------------------------------

  /**
   * If the loop pages on from beyond the snapshot, what lies between them is never fetched again.
   * The rows of a tab that has caught up are right exactly if the gap changed no row of the
   * snapshot, or only rows that were put again later.
   */
  lemma LoopAheadExactly(
      me: Option<Id>, own: Id -> ValueKey, w: World, origin: Memory, n: nat, m: nat, early: seq<SyncAction>)
    requires Inv(me, own, w) && UpToDate(w) && w.boot.Some?
    requires Standing(w).earlier == Stretch(w.boot.value.at, w.boot.value.at)
    requires Falls(w.log, Standing(w).current.from, m) && n <= m
    requires Snaps(me, w.log, w.boot.value.rows, origin, n, early)
    ensures w.tab.memory == ApplyAll(me, origin, Visible(w.log))
            <==> !Loses(me, w.boot.value.rows, Visible(w.log[n..m]), Visible(w.log[m..]))
  {
    hide Inv, ApplyAll, Seen, Visible, GoodBatch, NoReuse, Sorted, Loses, OwnedValues, Snaps, Standing;
    CaughtUpRows(me, own, w);
    InvLog(me, own, w);
    SnapshotIsOwned(me, own, w);
    var (log, rows) := (w.log, w.boot.value.rows);
    SeenNothing(log, w.boot.value.at);
    AfterIs(log, Standing(w).current.from, m);
    hide *;
    var (gap, later) := (Visible(log[n..m]), Visible(log[m..]));
    assert [] + later == later;
    SnapshotGoesOn(me, own, log, rows, origin, n, early);
    VisibleCut(log, n, m);
    VisiblePart(own, log, n, m);
    PartsAreGood(own, log, m);
    GapMattersExactly(me, own, rows, gap, later);
  }

  lemma SnapshotIsOwned(me: Option<Id>, own: Id -> ValueKey, w: World)
    requires Inv(me, own, w) && UpToDate(w)
    ensures w.boot.Some? && OwnedValues(own, w.boot.value.rows.values)
  {
    LoopFacts(me, own, w);
    InvAgree(me, own, w);
    hide *;
  }

  /** Rows a snapshot reflects early are absorbed by the stream that goes on from it. */
  lemma SnapshotGoesOn(
      me: Option<Id>, own: Id -> ValueKey, log: seq<Entry>, rows: Memory, origin: Memory, n: nat,
      early: seq<SyncAction>)
    requires n <= |log| && GoodBatch(own, Visible(log)) && Snaps(me, log, rows, origin, n, early)
    ensures ApplyAll(me, rows, Visible(log[n..])) == ApplyAll(me, origin, Visible(log))
  {
    hide ApplyAll, Visible, GoodBatch;
    PartsAreGood(own, log, n);
    RedeliveryAbsorbed(me, ApplyAll(me, origin, Visible(log[..n])), early, Visible(log[n..]));
    BandAbsorbed(me, origin, log, n, n);
  }

  // ----- runs that get there ------------------------------------------------------------------

  ghost predicate Reachable(me: Option<Id>, own: Id -> ValueKey, w: World) {
    exists start, steps :: Init(me, own, start) && Reaches(me, own, start, steps, w)
  }

  lemma {:induction false} ReachesStep(
      me: Option<Id>, own: Id -> ValueKey, w: World, steps: seq<Step>, v: World, step: Step)
    requires Reaches(me, own, w, steps, v) && Enabled(me, own, v, step)
    ensures Reaches(me, own, w, steps + [step], Do(me, own, v, step))
    decreases steps
  {
    hide Enabled, Do;
    if steps == [] {
      assert steps + [step] == [step] && [step][1..] == [];
    } else {
      assert (steps + [step])[1..] == steps[1..] + [step];
      ReachesStep(me, own, Do(me, own, w, steps[0]), steps[1..], v, step);
    }
  }

  lemma ReachNext(me: Option<Id>, own: Id -> ValueKey, w: World, step: Step, v: World)
    requires Reachable(me, own, w) && Enabled(me, own, w, step) && Do(me, own, w, step) == v
    ensures Reachable(me, own, v)
  {
    hide Enabled, Do, Init, Reaches;
    var start, steps :| Init(me, own, start) && Reaches(me, own, start, steps, w);
    ReachesStep(me, own, start, steps, w, step);
  }

  function Pools(pools: map<PoolKey, Row>): Memory { EMPTY.(pools := pools) }

  function Cached(pools: map<PoolKey, Row>, at: Position): Image {
    Image(BLANK.(pools := pools), true, Some(at), OwnStamp())
  }

  /** A client that bootstrapped from an empty server and rests. */
  function Rested(): World {
    World([], ZERO, Cached(map[], ZERO), Some(Snapshot(EMPTY, ZERO)), Fresh(ZERO, ZERO),
        Open(EMPTY, ZERO, true, Resting))
  }

  lemma NothingAgrees(own: Id -> ValueKey, pools: map<PoolKey, Row>)
    ensures Agree(own, Pools(pools), BLANK.(pools := pools))
  {
  }

  lemma RestedIsReached(me: Option<Id>, own: Id -> ValueKey)
    ensures Reachable(me, own, Rested())
  {
    var w0 := World([], ZERO, Image(BLANK, false, None, NotAnArray), None, Fresh(ZERO, ZERO), Closed);
    assert !Covers(NotAnArray);
    assert Init(me, own, w0) && Reaches(me, own, w0, [], w0);
    assert Reachable(me, own, w0);
    hide Covers, Reaches, Init, Reachable;
    var w1 := w0.(tab := Open(EMPTY, ZERO, false, Resting));
    ReachNext(me, own, w0, Load, w1);
    hide Enabled, Do, OwnStamp;
    Commits(me, own, w1, map[], ZERO, false);
    var w2 := Rested().(tab := Open(EMPTY, ZERO, false, Filling(EMPTY, ZERO, None)));
    assert Reachable(me, own, w2);
    Fills(me, own, w2);
  }

  lemma Settles(me: Option<Id>, own: Id -> ValueKey, w: World, e: Entry, frontier: Position)
    requires Reachable(me, own, w) && GoodLog(me, own, w.log + [e])
    requires AtMost(w.frontier, frontier) && Before(w.frontier, At(e)) && AtMost(At(e), frontier)
    ensures Reachable(me, own, w.(log := w.log + [e], frontier := frontier))
  {
    hide Reachable, GoodLog;
    ReachNext(me, own, w, Settle([e], frontier), w.(log := w.log + [e], frontier := frontier));
  }

  lemma Starts(me: Option<Id>, own: Id -> ValueKey, w: World)
    requires Reachable(me, own, w) && w.tab.Open? && w.tab.work.Resting? && w.tab.based && w.boot.Some?
    ensures Reachable(me, own, w.(course := Restart(w.course, w.boot.value.at, w.tab.lastSyncId),
                                  tab := w.tab.(work := Paging(w.tab.lastSyncId))))
  {
    hide Reachable, Restart;
    ReachNext(me, own, w, StartDelta, w.(course := Restart(w.course, w.boot.value.at, w.tab.lastSyncId),
                                         tab := w.tab.(work := Paging(w.tab.lastSyncId))));
  }

  lemma Commits(me: Option<Id>, own: Id -> ValueKey, w: World, pools: map<PoolKey, Row>, at: Position, alongside: bool)
    requires Reachable(me, own, w) && w.tab.Open? && (w.tab.work.Resting? || w.tab.work.Paging?)
             && AtMost(at, w.frontier)
    ensures var resume := Survivor(w.tab, alongside);
            Reachable(me, own, w.(image := Cached(pools, at), boot := Some(Snapshot(Pools(pools), at)),
                                  course := Fresh(at, resume.GetOr(at)),
                                  tab := w.tab.(work := Filling(Pools(pools), at, resume))))
  {
    NothingAgrees(own, pools);
    hide Reachable, Agree, OwnStamp;
    var resume := Survivor(w.tab, alongside);
    ReachNext(me, own, w, CommitBootstrap(Pools(pools), BLANK.(pools := pools), at, alongside),
              w.(image := Cached(pools, at), boot := Some(Snapshot(Pools(pools), at)),
                  course := Fresh(at, resume.GetOr(at)),
                 tab := w.tab.(work := Filling(Pools(pools), at, resume))));
  }

  lemma Fills(me: Option<Id>, own: Id -> ValueKey, w: World)
    requires Reachable(me, own, w) && w.tab.Open? && w.tab.work.Filling?
    ensures var work := w.tab.work;
            Reachable(me, own, w.(tab := Open(work.rows, work.at, true,
                                              if work.resume.Some? then Paging(work.resume.value) else Resting)))
  {
    hide Reachable;
    ReachNext(me, own, w, FillMemory, Do(me, own, w, FillMemory));
  }

  /** Two writes in a row, with no deletion anywhere. */
  lemma WritesAreGood(me: Option<Id>, own: Id -> ValueKey, model: string, first: Row, second: Row)
    ensures var (x, y) := (Entry(PoolWrite(1, model, first), true), Entry(PoolWrite(2, model, second), true));
            GoodLog(me, own, [x]) && GoodLog(me, own, [x, y])
  {
    var (x, y) := (Entry(PoolWrite(1, model, first), true), Entry(PoolWrite(2, model, second), true));
    assert Visible([x, y][1..]) == [y.action];
  }

  /** What the server hands out of a log with one row beyond the cursor. */
  lemma LastRowServed(log: seq<Entry>, cursor: Position, n: nat)
    requires Sorted(log) && |log| == n + 1 && Falls(log, cursor, n) && log[n].visible
    ensures var (res, next) := (Serve(log, cursor), At(log[n]));
            && res == Page([log[n].action], false, Some(next)) && NextCursor(cursor, res) == next
            && After(log, next) == []
  {
    HonestNextCursor(log, cursor);
    AfterIs(log, cursor, n);
    AfterIs(log, At(log[n]), n + 1);
    hide After, NextCursor;
    var e := log[n];
    assert log[n..] == [e] && [e][1..] == [] && [e][..1] == [e];
    assert Visible([e]) == [e.action] + Visible([]);
  }

  lemma WriteApplied(me: Option<Id>, pools: map<PoolKey, Row>, n: nat, model: string, row: Row)
    requires model !in PERSONAL_MODELS
    ensures ApplyAll(me, Pools(pools), [PoolWrite(n, model, row)]) == Pools(pools[PoolKey(model, row.id) := row])
    ensures PositionsOf([PoolWrite(n, model, row)]) == [Position(n, n)]
  {
    var a := PoolWrite(n, model, row);
    assert [a][1..] == [];
    assert ApplyAll(me, Pools(pools), [a]) == ApplyChange(me, Pools(pools), a.change);
  }

  /** A loop receives the last row of the log, flushes it and ends. */
  lemma LastPage(
      me: Option<Id>, own: Id -> ValueKey, w: World, n: nat, model: string, row: Row, pools: map<PoolKey, Row>)
    requires Reachable(me, own, w) && Sorted(w.log) && |w.log| > n && w.tab.Open? && w.tab.work.Paging? && w.tab.based
    requires w.log[n] == Entry(PoolWrite(n + 1, model, row), true) && Falls(w.log[..n + 1], w.tab.work.cursor, n)
    requires model !in PERSONAL_MODELS && w.tab.memory == Pools(pools)
    ensures exists v ::
              && Reachable(me, own, v)
              && v.log == w.log && v.frontier == w.frontier && v.boot == w.boot
              && v.course == Reach(w.course, Position(n + 1, n + 1))
              && v.image.stamp == w.image.stamp && v.image.hasOrganization == w.image.hasOrganization
              && v.tab.Open? && v.image.cursor == Some(v.tab.lastSyncId)
              && v.tab == Open(Pools(pools[PoolKey(model, row.id) := row]),
                               Later(w.tab.lastSyncId, Position(n + 1, n + 1)), true, Resting)
  {
    var (settled, cursor, next) := (n + 1, w.tab.work.cursor, Position(n + 1, n + 1));
    var low := w.log[..settled];
    var a := w.log[n].action;
    LastRowServed(low, cursor, n);
    WriteApplied(me, pools, n + 1, model, row);
    hide Reachable, Serve, NextCursor, ApplyAll, Pending, Sorted, Falls, FlushTo;
    var res := Serve(low, cursor);
    PageFlushed(me, own, w, settled, res, next);
  }

  lemma PageFlushed(me: Option<Id>, own: Id -> ValueKey, w: World, settled: nat, res: Response, next: Position)
    requires Reachable(me, own, w) && w.tab.Open? && w.tab.work.Paging? && settled <= |w.log|
    requires res == Serve(w.log[..settled], w.tab.work.cursor) && res.Page?
             && NextCursor(w.tab.work.cursor, res) == next
    requires res.Page? && res.actions != [] && !res.hasMore && PositionsOf(res.actions) == [next]
    ensures exists v ::
              && Reachable(me, own, v)
              && v.log == w.log && v.frontier == w.frontier && v.boot == w.boot && v.course == Reach(w.course, next)
              && v.image.stamp == w.image.stamp && v.image.hasOrganization == w.image.hasOrganization
              && v.tab.Open? && v.image.cursor == Some(v.tab.lastSyncId)
              && v.tab == Open(ApplyAll(me, w.tab.memory, res.actions), Later(w.tab.lastSyncId, next), w.tab.based,
                 Resting)
  {
    hide Reachable, Serve, NextCursor, ApplyAll, Pending, FlushTo;
    var tab := Open(ApplyAll(me, w.tab.memory, res.actions), Later(w.tab.lastSyncId, next), w.tab.based,
                    Flushing(res.actions, BucketsOf(me, w.tab.memory, res.actions), next, false));
    assert LaterOf(w.tab.lastSyncId, [next]) == Later(w.tab.lastSyncId, next);
    var received := w.(tab := tab);
    assert Enabled(me, own, w, ReceivePage(settled)) && Do(me, own, w, ReceivePage(settled)) == received;
    ReachNext(me, own, w, ReceivePage(settled), received);
    var flushed := received.(image := Flushed(received), course := Reach(w.course, next), tab := tab.(work := Resting));
    assert Enabled(me, own, received, CommitFlush) && Do(me, own, received, CommitFlush) == flushed;
    ReachNext(me, own, received, CommitFlush, flushed);
  }


  /** Both writes of a log seen by a client that starts with nothing. */
  lemma BothApplied(me: Option<Id>, model: string, first: Row, second: Row)
    requires model !in PERSONAL_MODELS
    ensures var (x, y) := (PoolWrite(1, model, first), PoolWrite(2, model, second));
            && Visible([Entry(x, true), Entry(y, true)]) == [x, y]
            && ApplyAll(me, EMPTY, [x, y])
               == Pools(map[PoolKey(model, first.id) := first][PoolKey(model, second.id) := second])
  {
    var (x, y) := (PoolWrite(1, model, first), PoolWrite(2, model, second));
    var e := [Entry(x, true), Entry(y, true)];
    assert e[1..] == [Entry(y, true)] && Visible(e[1..]) == [y];
    assert [x, y] == [x] + [y] && EMPTY == Pools(map[]);
    ApplyAllConcat(me, EMPTY, [x], [y]);
    WriteApplied(me, map[], 1, model, first);
    WriteApplied(me, map[PoolKey(model, first.id) := first], 2, model, second);
  }

  /** A resting tab's cache holds what its memory holds. */
  lemma RestedCacheAgrees(me: Option<Id>, own: Id -> ValueKey, w: World)
    requires Reachable(me, own, w) && w.tab.Open? && w.tab.based && w.tab.work.Resting?
    ensures Agree(own, w.tab.memory, w.image.rows)
  {
    var start, steps :| Init(me, own, start) && Reaches(me, own, start, steps, w);
    InitInv(me, own, start);
    RunKeepsInv(me, own, start, steps, w);
    LoopFacts(me, own, w);
    InvAgree(me, own, w);
    hide Agree, Inv, Init, Reaches, Expected, Fits, Covers, Sorted;
  }

  /** Up to date, accepted by the next load, and yet a row is not what the server has. */
  ghost predicate WrongForGood(
      me: Option<Id>, own: Id -> ValueKey, w: World, k: PoolKey, has: Option<Row>, should: Row)
  {
    && Reachable(me, own, w) && Accepts(w.image) && UpToDate(w)
    && Agree(own, w.tab.memory, w.image.rows)
    && Cell(w.tab.memory.pools, k) == has && has != Some(should)
    && Cell(ApplyAll(me, EMPTY, Visible(w.log)).pools, k) == Some(should)
  }

  /** Once the loop has ended on the second write, whatever its pools lack is wrong for good. */
  lemma EndsWrong(
      me: Option<Id>, own: Id -> ValueKey, model: string, first: Row, second: Row, pools: map<PoolKey, Row>,
      k: PoolKey, w: World)
    requires model !in PERSONAL_MODELS && Reachable(me, own, w) && Accepts(w.image)
    requires w.log == [Entry(PoolWrite(1, model, first), true), Entry(PoolWrite(2, model, second), true)]
    requires w.tab == Open(Pools(pools), Position(2, 2), true, Resting)
    requires var all := map[PoolKey(model, first.id) := first][PoolKey(model, second.id) := second];
             k in all && Cell(pools, k) != Some(all[k])
    ensures var all := map[PoolKey(model, first.id) := first][PoolKey(model, second.id) := second];
            WrongForGood(me, own, w, k, Cell(pools, k), all[k])
  {
    WritesAreGood(me, own, model, first, second);
    AfterIs(w.log, Position(2, 2), 2);
    BothApplied(me, model, first, second);
    RestedCacheAgrees(me, own, w);
    hide Reachable, Accepts, Agree, ApplyAll, After, Visible, GoodBatch, NoReuse;
  }

  /** Before the loop's last page: a snapshot that has seen both writes under a loop that has seen none. */
  lemma SnapshotUnderLoop(me: Option<Id>, own: Id -> ValueKey, model: string, first: Row, second: Row)
    ensures var (x, y) := (Entry(PoolWrite(1, model, first), true), Entry(PoolWrite(2, model, second), true));
            var (at, pools) := (Position(2, 2), map[PoolKey(model, second.id) := second]);
            Reachable(me, own, World([x, y], at, Cached(pools, at), Some(Snapshot(Pools(pools), at)), Fresh(at, ZERO),
                                     Open(Pools(pools), at, true, Paging(ZERO))))
  {
    var (x, y) := (Entry(PoolWrite(1, model, first), true), Entry(PoolWrite(2, model, second), true));
    var (at, pools) := (Position(2, 2), map[PoolKey(model, second.id) := second]);
    RestedIsReached(me, own);
    WritesAreGood(me, own, model, first, second);
    hide Reachable, GoodLog, OwnStamp;
    assert [] + [x] == [x] && [x] + [y] == [x, y];
    Settles(me, own, Rested(), x, Position(1, 1));
    var w1 := Rested().(log := [x], frontier := Position(1, 1));
    Starts(me, own, w1);
    var w2 := w1.(tab := w1.tab.(work := Paging(ZERO)));
    Settles(me, own, w2, y, at);
    var w3 := w2.(log := [x, y], frontier := at);
    Commits(me, own, w3, pools, at, true);
    Fills(me, own, World([x, y], at, Cached(pools, at), Some(Snapshot(Pools(pools), at)), Fresh(at, ZERO),
                         Open(EMPTY, ZERO, true, Filling(Pools(pools), at, Some(ZERO)))));
  }

  /**
   * An older page over a newer snapshot: the loop asked before the second write settled, the
   * bootstrap read after it, and the page came last. The cursor stands beyond both writes.
   */
  lemma StaleRowIsReached(me: Option<Id>, own: Id -> ValueKey, model: string, first: Row, second: Row)
    requires first.id == second.id && first != second && model !in PERSONAL_MODELS
    ensures exists w :: WrongForGood(me, own, w, PoolKey(model, first.id), Some(first), second)
  {
    var (x, y) := (Entry(PoolWrite(1, model, first), true), Entry(PoolWrite(2, model, second), true));
    var (at, k) := (Position(2, 2), PoolKey(model, second.id));
    var pools := map[k := second];
    SnapshotUnderLoop(me, own, model, first, second);
    WritesAreGood(me, own, model, first, second);
    var w := World([x, y], at, Cached(pools, at), Some(Snapshot(Pools(pools), at)), Fresh(at, ZERO),
                   Open(Pools(pools), at, true, Paging(ZERO)));
    assert [x, y][..1] == [x];
    hide Reachable, Agree, Covers, ApplyAll, After, Visible, GoodBatch, NoReuse;
    LastPage(me, own, w, 0, model, first, pools);
    var v :| Reachable(me, own, v) && v.log == w.log && v.boot == w.boot
             && v.image.stamp == w.image.stamp && v.image.hasOrganization && v.image.cursor == Some(at)
             && v.tab == Open(Pools(pools[k := first]), at, true, Resting);
    EndsWrong(me, own, model, first, second, pools[k := first], k, v);
  }

  /** A loop asks for what lies beyond the first write. */
  lemma FirstWriteIsSynced(me: Option<Id>, own: Id -> ValueKey, model: string, first: Row)
    requires model !in PERSONAL_MODELS
    ensures var (x, p) := (Entry(PoolWrite(1, model, first), true), Position(1, 1));
            exists w ::
              && Reachable(me, own, w) && w.log == [x] && w.frontier == p
              && w.tab.Open? && w.tab.work == Paging(p)
  {
    var (x, p) := (Entry(PoolWrite(1, model, first), true), Position(1, 1));
    RestedIsReached(me, own);
    WritesAreGood(me, own, model, first, first);
    hide Reachable, GoodBatch, NoReuse, OwnStamp;
    assert [] + [x] == [x] && [x][..1] == [x];
    Settles(me, own, Rested(), x, p);
    var w1 := Rested().(log := [x], frontier := p);
    Starts(me, own, w1);
    var w2 := w1.(tab := w1.tab.(work := Paging(ZERO)));
    assert EMPTY == Pools(map[]);
    LastPage(me, own, w2, 0, model, first, map[]);
    var v :| Reachable(me, own, v) && v.log == w2.log && v.frontier == w2.frontier && v.boot == w2.boot
             && v.tab == Open(Pools(map[PoolKey(model, first.id) := first]), Later(ZERO, p), true, Resting);
    Starts(me, own, v);
  }

  /** Before the last page: a loop that stands beyond the snapshot put under it. */
  lemma LoopOverSnapshot(me: Option<Id>, own: Id -> ValueKey, model: string, first: Row, second: Row)
    requires model !in PERSONAL_MODELS
    ensures var (x, y) := (Entry(PoolWrite(1, model, first), true), Entry(PoolWrite(2, model, second), true));
            var p := Position(1, 1);
            Reachable(me, own,
                World([x, y], Position(2, 2), Cached(map[], ZERO), Some(Snapshot(EMPTY, ZERO)), Fresh(ZERO, p),
                                     Open(EMPTY, ZERO, true, Paging(p))))
  {
    var (x, y) := (Entry(PoolWrite(1, model, first), true), Entry(PoolWrite(2, model, second), true));
    var p := Position(1, 1);
    FirstWriteIsSynced(me, own, model, first);
    WritesAreGood(me, own, model, first, second);
    hide Reachable, GoodLog, OwnStamp;
    assert [x] + [y] == [x, y] && EMPTY == Pools(map[]);
    var w :| Reachable(me, own, w) && w.log == [x] && w.frontier == p && w.tab.Open? && w.tab.work == Paging(p);
    Commits(me, own, w, map[], ZERO, true);
    var filling := World([x], p, Cached(map[], ZERO), Some(Snapshot(EMPTY, ZERO)), Fresh(ZERO, p),
                         w.tab.(work := Filling(EMPTY, ZERO, Some(p))));
    Fills(me, own, filling);
    Settles(me, own, filling.(tab := Open(EMPTY, ZERO, true, Paging(p))), y, Position(2, 2));
  }

  /**
   * A newer page over an older snapshot: the bootstrap read before the first write settled and
   * came in while a loop was asking for what lies beyond it. Nobody asks for that write again.
   */
  lemma MissingRowIsReached(me: Option<Id>, own: Id -> ValueKey, model: string, first: Row, second: Row)
    requires first.id != second.id && model !in PERSONAL_MODELS
    ensures exists w :: WrongForGood(me, own, w, PoolKey(model, first.id), None, first)
  {
    var (x, y) := (Entry(PoolWrite(1, model, first), true), Entry(PoolWrite(2, model, second), true));
    var (p, at, k) := (Position(1, 1), Position(2, 2), PoolKey(model, first.id));
    LoopOverSnapshot(me, own, model, first, second);
    WritesAreGood(me, own, model, first, second);
    var w := World([x, y], at, Cached(map[], ZERO), Some(Snapshot(EMPTY, ZERO)), Fresh(ZERO, p),
                   Open(EMPTY, ZERO, true, Paging(p)));
    assert [x, y][..2] == [x, y];
    hide Reachable, Agree, Covers, ApplyAll, After, Visible, GoodBatch, NoReuse;
    assert EMPTY == Pools(map[]);
    LastPage(me, own, w, 1, model, second, map[]);
    var pools := map[PoolKey(model, second.id) := second];
    var v :| Reachable(me, own, v) && v.log == w.log && v.boot == w.boot
             && v.image.stamp == w.image.stamp && v.image.hasOrganization && v.image.cursor == Some(at)
             && v.tab == Open(Pools(pools), at, true, Resting);
    EndsWrong(me, own, model, first, second, pools, k, v);
  }
}
