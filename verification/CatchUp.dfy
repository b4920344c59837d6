/**
 * A page loop left alone catches up (src/lib/sync-manager.ts:764-878): from any state of any run, crashes
 * behind it or not, a tab that starts a delta sync and is not disturbed ends at the end of the log.
 */
module CatchUps {
  import opened Common
  import opened Rows
  import opened Replica
  import opened Positions
  import opened DeltaLoop
  import opened Crash

  /** The end of the page a request gets, and whether that is all there is. */
  function PageEndOf(log: seq<Entry>, cursor: Position): Position {
    var rest := After(log, cursor);
    if rest == [] then cursor else At(rest[Min(5_000, |rest|) - 1])
  }

  predicate IsLong(log: seq<Entry>, cursor: Position) { |After(log, cursor)| > 5_000 }

  /** Where a page of everything settled leaves the tab. */
  lemma PageReceived(me: Option<Id>, own: Id -> ValueKey, w: World)
    requires Sorted(w.log) && w.tab.Open? && w.tab.work.Paging?
    ensures Enabled(me, own, w, ReceivePage(|w.log|))
    ensures var (tab, cursor) := (Do(me, own, w, ReceivePage(|w.log|)).tab, w.tab.work.cursor);
            var next := PageEndOf(w.log, cursor);
            && tab.Open? && tab.based == w.tab.based
            && match tab.work
               case Flushing(_, _, end, more) => end == next && (more <==> IsLong(w.log, cursor))
               case Paging(end) => end == next && IsLong(w.log, cursor)
               case Resting => !IsLong(w.log, cursor) && tab.lastSyncId == Later(w.tab.lastSyncId, next)
               case Filling(_, _, _) => false
    ensures var w' := Do(me, own, w, ReceivePage(|w.log|)); w'.log == w.log && w'.boot == w.boot
  {
    var rest := After(w.log, w.tab.work.cursor);
    assert w.log[..|w.log|] == w.log;
    HonestNextCursor(w.log, w.tab.work.cursor);
    assert rest == [] ==> Visible(rest[..0]) == [];
    hide After, Visible, NextCursor, Sorted, LaterOf, ApplyAll, BucketsOf, Reach;
  }

  lemma FlushCommitted(me: Option<Id>, own: Id -> ValueKey, w: World)
    requires w.tab.Open? && w.tab.work.Flushing?
    ensures Enabled(me, own, w, CommitFlush)
    ensures var (w', work) := (Do(me, own, w, CommitFlush), w.tab.work);
            && w'.log == w.log && w'.boot == w.boot && w'.tab.Open? && w'.tab.based == w.tab.based
            && if work.more then w'.tab.work == Paging(work.next)
               else w'.tab.work == Resting && w'.tab.lastSyncId == Later(w.tab.lastSyncId, work.next)
  {
    hide Flushed, Reach;
  }

  /** Nothing is left behind a page's last row but what did not fit on it. */
  lemma LeftAfterPage(log: seq<Entry>, cursor: Position, n: nat)
    requires Sorted(log) && 0 < n <= |After(log, cursor)|
    ensures After(log, At(After(log, cursor)[n - 1])) == After(log, cursor)[n..]
  {
    AfterPage(log, log, cursor, n);
  }

  lemma {:induction false} HigherLeavesNothing(log: seq<Entry>, low: Position, high: Position)
    requires After(log, low) == [] && AtMost(low, high)
    ensures After(log, high) == []
  {
    if log != [] {
      HigherLeavesNothing(log[1..], low, high);
    }
  }

  lemma LaterIsHigher(p: Position, q: Position)
    ensures AtMost(q, Later(p, q))
  {
  }

  lemma Onward(me: Option<Id>, own: Id -> ValueKey, w: World, steps: seq<Step>, w': World)
    requires steps != [] && Enabled(me, own, w, steps[0])
    requires Reaches(me, own, Do(me, own, w, steps[0]), steps[1..], w')
    ensures Reaches(me, own, w, steps, w')
  {
  }

  predicate LoopStep(step: Step, n: nat) { step == ReceivePage(n) || step == CommitFlush }

  /** A page and its flush: either a page of rows fewer are left, or the loop is over and none is. */
  ghost predicate Turned(w: World, w': World)
    requires w.tab.Open? && w.tab.work.Paging?
  {
    && w'.log == w.log && w'.boot == w.boot && w'.tab.Open? && w'.tab.based == w.tab.based
    && match w'.tab.work
       case Paging(cursor) => |After(w.log, cursor)| == |After(w.log, w.tab.work.cursor)| - 5_000
       case Resting => After(w.log, w'.tab.lastSyncId) == []
       case _ => false
  }

  lemma PagedOn(w: World, w': World)
    requires Sorted(w.log) && w.tab.Open? && w.tab.work.Paging? && IsLong(w.log, w.tab.work.cursor)
    requires w'.log == w.log && w'.boot == w.boot && w'.tab.Open? && w'.tab.based == w.tab.based
    requires w'.tab.work == Paging(PageEndOf(w.log, w.tab.work.cursor))
    ensures Turned(w, w')
  {
    LeftAfterPage(w.log, w.tab.work.cursor, 5_000);
    hide After, Sorted;
  }

  lemma CameToRest(w: World, w': World, last: Position)
    requires Sorted(w.log) && w.tab.Open? && w.tab.work.Paging? && !IsLong(w.log, w.tab.work.cursor)
    requires w'.log == w.log && w'.boot == w.boot && w'.tab.Open? && w'.tab.based == w.tab.based
    requires w'.tab.work.Resting? && w'.tab.lastSyncId == Later(last, PageEndOf(w.log, w.tab.work.cursor))
    ensures Turned(w, w')
  {
    var (rest, next) := (After(w.log, w.tab.work.cursor), PageEndOf(w.log, w.tab.work.cursor));
    if rest != [] {
      LeftAfterPage(w.log, w.tab.work.cursor, |rest|);
    }
    assert After(w.log, next) == [] by { hide Sorted, Later, AtMost; }
    LaterIsHigher(last, next);
    HigherLeavesNothing(w.log, next, Later(last, next));
    hide After, Sorted, Later, AtMost;
  }

  lemma OneTurn(me: Option<Id>, own: Id -> ValueKey, w: World) returns (first: seq<Step>, mid: World)
    requires Sorted(w.log) && w.tab.Open? && w.tab.work.Paging?
    ensures 1 <= |first| <= 2 && forall s | s in first :: LoopStep(s, |w.log|)
    ensures Enabled(me, own, w, first[0])
    ensures var w1 := Do(me, own, w, first[0]);
            if |first| == 1 then mid == w1 else Enabled(me, own, w1, first[1]) && mid == Do(me, own, w1, first[1])
    ensures Turned(w, mid)
  {
    PageReceived(me, own, w);
    var w1 := Do(me, own, w, ReceivePage(|w.log|));
    first, mid := [ReceivePage(|w.log|)], w1;
    hide Enabled, Do, Sorted, Later, PageEndOf, IsLong, Turned;
    if w1.tab.work.Flushing? {
      FlushCommitted(me, own, w1);
      first, mid := [ReceivePage(|w.log|), CommitFlush], Do(me, own, w1, CommitFlush);
    }
    if mid.tab.work.Paging? {
      PagedOn(w, mid);
    } else {
      CameToRest(w, mid, if w1.tab.work.Flushing? then w1.tab.lastSyncId else w.tab.lastSyncId);
    }
  }

  /** The rest of the loop: pages of what is settled, each flushed, until nothing lies beyond the cursor. */
  lemma {:induction false} LoopCatchesUp(me: Option<Id>, own: Id -> ValueKey, w: World)
    returns (steps: seq<Step>, w': World)
    requires Sorted(w.log) && w.tab.Open? && w.tab.work.Paging?
    ensures Reaches(me, own, w, steps, w') && forall s | s in steps :: LoopStep(s, |w.log|)
    ensures |steps| <= 2 * (|After(w.log, w.tab.work.cursor)| / 5_000 + 1)
    ensures w'.tab.Open? && w'.tab.work.Resting? && w'.tab.based == w.tab.based
    ensures w'.log == w.log && w'.boot == w.boot && After(w'.log, w'.tab.lastSyncId) == []
    decreases |After(w.log, w.tab.work.cursor)|
  {
    hide Enabled, Do, Sorted, After, LoopStep, Reaches;
    var first, mid := OneTurn(me, own, w);
    var more: seq<Step> := [];
    w' := mid;
    if mid.tab.work.Paging? {
      more, w' := LoopCatchesUp(me, own, mid);
    } else {
      assert Reaches(me, own, mid, [], mid) by { Nowhere(me, own, mid); }
    }
    steps := first + more;
    TwoSteps(me, own, w, first, mid, more, w');
  }

  lemma Nowhere(me: Option<Id>, own: Id -> ValueKey, w: World)
    ensures Reaches(me, own, w, [], w)
  {
  }

  /** At most two steps and then the rest of a run. */
  lemma TwoSteps(
      me: Option<Id>, own: Id -> ValueKey, w: World, first: seq<Step>, mid: World, more: seq<Step>, w': World)
    requires 1 <= |first| <= 2 && Enabled(me, own, w, first[0]) && Reaches(me, own, mid, more, w')
    requires var w1 := Do(me, own, w, first[0]);
             if |first| == 1 then mid == w1 else Enabled(me, own, w1, first[1]) && mid == Do(me, own, w1, first[1])
    ensures Reaches(me, own, w, first + more, w')
  {
    var steps := first + more;
    hide Enabled, Do;
    if |first| == 1 {
      assert steps[1..] == more;
    } else {
      assert steps[1..][1..] == more && steps[1] == first[1];
      Onward(me, own, Do(me, own, w, first[0]), steps[1..], w');
    }
    Onward(me, own, w, steps, w');
  }

  lemma Started(me: Option<Id>, own: Id -> ValueKey, w: World) returns (w1: World)
    requires w.tab.Open? && w.tab.work.Resting?
    ensures Enabled(me, own, w, StartDelta) && w1 == Do(me, own, w, StartDelta)
    ensures w1.tab == w.tab.(work := Paging(w.tab.lastSyncId)) && w1.log == w.log && w1.boot == w.boot
  {
    w1 := Do(me, own, w, StartDelta);
    hide Restart;
  }

  /**
   * From any state of any run a tab at rest over a bootstrap can catch up, in a number of steps bounded by
   * the backlog; if no bootstrap overlapped a loop it then holds the bootstrap and everything visible after it.
   */
  lemma AnyTabCatchesUp(
      me: Option<Id>, own: Id -> ValueKey, start: World, before: seq<Step>, w: World)
    returns (steps: seq<Step>, w': World)
    requires Init(me, own, start) && Reaches(me, own, start, before, w)
    requires w.tab.Open? && w.tab.work.Resting? && w.tab.based
    ensures Reaches(me, own, w, [StartDelta] + steps, w') && forall s | s in steps :: LoopStep(s, |w.log|)
    ensures |steps| <= 2 * (|After(w.log, w.tab.lastSyncId)| / 5_000 + 1)
    ensures UpToDate(w') && w'.log == w.log && w'.boot == w.boot
    ensures Straight(w') ==>
              && w'.boot.Some?
              && w'.tab.memory == ApplyAll(me, w'.boot.value.rows, Visible(After(w'.log, w'.boot.value.at)))
  {
    InitInv(me, own, start);
    RunKeepsInv(me, own, start, before, w);
    assert Sorted(w.log) by { InvLog(me, own, w); hide Inv, Init, Reaches; }
    hide Inv, Init, Sorted, Straight, Reaches;
    var w1 := Started(me, own, w);
    hide Do, Enabled;
    steps, w' := LoopCatchesUp(me, own, w1);
    var all := [StartDelta] + steps;
    assert all[1..] == steps && all[0] == StartDelta;
    Onward(me, own, w, all, w');
    RunKeepsInv(me, own, w, all, w');
    if Straight(w') {
      CaughtUpIsComplete(me, own, w');
    }
  }
}
