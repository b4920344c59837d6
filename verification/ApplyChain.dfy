/**
 * The apply chain (src/lib/sync-manager.ts:880-919): a promise chain that runs delta pages, live
 * batches and bootstrap writes one at a time. The promises are modelled as such: a task's run
 * starts as a reaction on the lock before it, and the lock it leaves is `run.then(ok, ok)`, which
 * is fulfilled whether the run was fulfilled or rejected.
 */
module ApplyChain {
  import opened Common
  import opened Positions
  import opened Rows
  import opened DeltaLoop

  datatype Promise = Pending | Fulfilled | Rejected

  datatype Task = Apply(batch: seq<SyncAction>) | Boot(cursor: Position)

  /**
   * A submitted task. `started` is the reaction having fired, `run` the promise handed to the
   * caller, `lock` the promise stored in `applyLock`; `maxId` is what the memory half captured.
   */
  datatype Slot = Slot(task: Task, started: bool, run: Promise, lock: Promise, maxId: Position)

  datatype State = State(
    slots: seq<Slot>, lastSyncId: Position, persisted: Position, memory: seq<SyncAction>, disk: seq<SyncAction>)

  datatype Step =
    | Submit(task: Task)
    | Start(i: nat)
    | Finish(i: nat, ok: bool)   // the flush commits or throws
    | Release(i: nat)
    | Raise(cursor: Position)    // the end of a delta loop, outside the chain

  /** The lock a task waits for: the initial resolved promise, or the one before it. */
  function LockBefore(s: State, i: nat): Promise
    requires i <= |s.slots|
  {
    if i == 0 then Fulfilled else s.slots[i - 1].lock
  }

  predicate Enabled(s: State, step: Step) {
    match step
    case Submit(_) => true
    case Start(i) => i < |s.slots| && !s.slots[i].started && LockBefore(s, i).Fulfilled?
    case Finish(i, _) => i < |s.slots| && s.slots[i].started && s.slots[i].run.Pending?
    case Release(i) => i < |s.slots| && !s.slots[i].run.Pending? && s.slots[i].lock.Pending?
    case Raise(_) => true
  }

  function Put(s: State, i: nat, slot: Slot): State
    requires i < |s.slots|
  {
    s.(slots := s.slots[i := slot])
  }

  function Do(s: State, step: Step): State
    requires Enabled(s, step)
  {
    match step
    case Submit(task) => s.(slots := s.slots + [Slot(task, false, Pending, Pending, ZERO)])
    case Start(i) =>
      var slot := s.slots[i];
      (match slot.task
       case Apply(batch) =>
         // The memory half up to the first await: stores, then the shared cursor.
         var maxId := LaterOf(s.lastSyncId, PositionsOf(batch));
         Put(s, i, slot.(started := true, maxId := maxId)).(lastSyncId := maxId, memory := s.memory + batch)
       case Boot(_) => Put(s, i, slot.(started := true)))
    case Finish(i, ok) =>
      var slot := s.slots[i];
      var done := Put(s, i, slot.(run := if ok then Fulfilled else Rejected));
      if !ok then done
      else
        (match slot.task
         case Apply(batch) => done.(persisted := slot.maxId, disk := s.disk + batch)
         case Boot(cursor) => done.(persisted := cursor, lastSyncId := cursor, memory := [], disk := []))
    case Release(i) => Put(s, i, s.slots[i].(lock := Fulfilled))
    case Raise(cursor) => s.(lastSyncId := Later(s.lastSyncId, cursor))
  }

  // ----- the invariant ------------------------------------------------------------------------

  /** Released slots, then at most one that is started and not released, then untouched ones. */
  ghost predicate Shape(s: State, k: nat) {
    && k <= |s.slots|
    && (forall i | 0 <= i < k :: s.slots[i].started && !s.slots[i].run.Pending? && s.slots[i].lock.Fulfilled?)
    && (k < |s.slots| ==> s.slots[k].lock.Pending? && (!s.slots[k].started ==> s.slots[k].run.Pending?))
    && (forall i | k < i < |s.slots| :: !s.slots[i].started && s.slots[i].run.Pending? && s.slots[i].lock.Pending?)
  }

  /** The cursors are ordered: disk, then what a running batch will write, then memory. */
  ghost predicate CursorsOrdered(s: State) {
    && AtMost(s.persisted, s.lastSyncId)
    && forall i | 0 <= i < |s.slots| && s.slots[i].task.Apply? && s.slots[i].started && s.slots[i].run.Pending? ::
         AtMost(s.persisted, s.slots[i].maxId) && AtMost(s.slots[i].maxId, s.lastSyncId)
  }

  ghost predicate Inv(s: State) {
    && (exists k :: Shape(s, k))
    && CursorsOrdered(s)
  }

  ghost predicate Init(s: State) {
    s.slots == [] && s.lastSyncId == s.persisted && s.memory == [] && s.disk == []
  }

  lemma InitInv(s: State)
    requires Init(s)
    ensures Inv(s) && Covered(s) && Accounted(s)
  {
    assert Shape(s, 0);
  }

  lemma StepKeepsShape(s: State, step: Step, k: nat) returns (k': nat)
    requires Shape(s, k) && Enabled(s, step)
    ensures Shape(Do(s, step), k')
    ensures k <= k'
  {
    k' := if step.Release? then k + 1 else k;
    if step.Start? || step.Finish? || step.Release? {
      assert step.i == k;
    }
  }

  lemma LaterBounds(p: Position, q: Position)
    ensures AtMost(p, Later(p, q)) && AtMost(q, Later(p, q))
  {
  }

  lemma StepKeepsOrder(s: State, step: Step, k: nat)
    requires Shape(s, k) && CursorsOrdered(s) && Enabled(s, step)
    ensures CursorsOrdered(Do(s, step))
  {
    if step.Start? && s.slots[step.i].task.Apply? {
      LaterOfIsMaximum(s.lastSyncId, PositionsOf(s.slots[step.i].task.batch));
      hide LaterOf;
      assert step.i == k;
    } else if step.Finish? {
      assert step.i == k;
    } else if step.Raise? {
      LaterBounds(s.lastSyncId, step.cursor);
    }
  }

  lemma StepKeepsInv(s: State, step: Step)
    requires Inv(s) && Enabled(s, step)
    ensures Inv(Do(s, step))
  {
    var k: nat :| Shape(s, k);
    var k' := StepKeepsShape(s, step, k);
    StepKeepsOrder(s, step, k);
    hide Do, CursorsOrdered;
  }

  function RunFrom(s: State, steps: seq<Step>): (r: Option<State>)
    decreases steps
  {
    if steps == [] then Some(s)
    else if Enabled(s, steps[0]) then RunFrom(Do(s, steps[0]), steps[1..])
    else None
  }

  lemma {:induction false} RunKeepsInv(s: State, steps: seq<Step>)
    requires Inv(s) && RunFrom(s, steps).Some?
    ensures Inv(RunFrom(s, steps).value)
    decreases steps
  {
    hide Inv, Do, Enabled;
    if steps != [] {
      StepKeepsInv(s, steps[0]);
      RunKeepsInv(Do(s, steps[0]), steps[1..]);
    }
  }

  // ----- what callers rely on -----------------------------------------------------------------

  /** A task starts only when every task submitted before it has settled: one at a time, in order. */
  lemma OneAtATimeInOrder(s: State, i: nat, j: nat)
    requires Inv(s) && i < j < |s.slots| && s.slots[j].started
    ensures s.slots[i].started && !s.slots[i].run.Pending?
  {
  }

  /** A task that throws does not wedge the chain: while one is unsettled, some step is enabled. */
  lemma NeverWedged(s: State, i: nat)
    requires Inv(s) && i < |s.slots| && s.slots[i].run.Pending?
    ensures exists j :: 0 <= j <= i && (Enabled(s, Start(j)) || Enabled(s, Finish(j, true)) || Enabled(s, Release(j)))
  {
    var k: nat :| Shape(s, k);
    assert k <= i;
    assert Enabled(s, Start(k)) || Enabled(s, Finish(k, true)) || Enabled(s, Release(k));
  }

  /** The step that may take the cursors back: a bootstrap's committed write. */
  predicate IsReset(s: State, step: Step) {
    step.Finish? && step.ok && step.i < |s.slots| && s.slots[step.i].task.Boot?
  }

  predicate NoReset(s: State, steps: seq<Step>)
    decreases steps
  {
    steps == [] || (!IsReset(s, steps[0]) && Enabled(s, steps[0]) && NoReset(Do(s, steps[0]), steps[1..]))
  }

  lemma StepNeverGoesBack(s: State, step: Step)
    requires Inv(s) && Enabled(s, step) && !IsReset(s, step)
    ensures AtMost(s.lastSyncId, Do(s, step).lastSyncId)
    ensures AtMost(s.persisted, Do(s, step).persisted)
  {
    if step.Start? && s.slots[step.i].task.Apply? {
      LaterOfIsMaximum(s.lastSyncId, PositionsOf(s.slots[step.i].task.batch));
    }
  }

  /** Between bootstraps neither the cursor in memory nor the one on disk ever goes back. */
  lemma {:induction false} CursorsNeverGoBack(s: State, steps: seq<Step>)
    requires Inv(s) && NoReset(s, steps)
    ensures RunFrom(s, steps).Some?
    ensures AtMost(s.lastSyncId, RunFrom(s, steps).value.lastSyncId)
    ensures AtMost(s.persisted, RunFrom(s, steps).value.persisted)
    decreases steps
  {
    hide Inv, Do, Enabled, IsReset;
    if steps != [] {
      var s' := Do(s, steps[0]);
      StepKeepsInv(s, steps[0]);
      StepNeverGoesBack(s, steps[0]);
      CursorsNeverGoBack(s', steps[1..]);
    }
  }

  // ----- what the writes add up to ------------------------------------------------------------

  /** The actions of the started tasks since the last committed bootstrap, batch after batch. */
  function Started(slots: seq<Slot>): seq<SyncAction> {
    if slots == [] then []
    else
      var last := slots[|slots| - 1];
      if last.task.Boot? && last.run.Fulfilled? then []
      else if last.task.Apply? && last.started then Started(slots[..|slots| - 1]) + last.task.batch
      else Started(slots[..|slots| - 1])
  }

  /** The same for the tasks whose flush committed. */
  function Flushed(slots: seq<Slot>): seq<SyncAction> {
    if slots == [] then []
    else
      var last := slots[|slots| - 1];
      if last.task.Boot? && last.run.Fulfilled? then []
      else if last.task.Apply? && last.run.Fulfilled? then Flushed(slots[..|slots| - 1]) + last.task.batch
      else Flushed(slots[..|slots| - 1])
  }

  /** Slots that have not started contribute nothing. */
  lemma {:induction false} OnlyStartedCount(slots: seq<Slot>, n: nat)
    requires n <= |slots|
    requires forall i | n <= i < |slots| :: !slots[i].started && slots[i].run.Pending?
    ensures Started(slots) == Started(slots[..n]) && Flushed(slots) == Flushed(slots[..n])
    decreases |slots|
  {
    if |slots| == n {
      assert slots[..n] == slots;
    } else {
      var shorter := slots[..|slots| - 1];
      OnlyStartedCount(shorter, n);
      assert shorter[..n] == slots[..n];
    }
  }

  ghost predicate Accounted(s: State) {
    s.memory == Started(s.slots) && s.disk == Flushed(s.slots)
  }

  /** One slot changes: only the prefix up to it matters, before and after. */
  lemma AccountAt(s: State, k: nat, slot: Slot)
    requires Shape(s, k) && k < |s.slots|
    ensures var slots := s.slots[k := slot];
            && s.slots[..k + 1] == s.slots[..k] + [s.slots[k]]
            && slots[..k + 1] == s.slots[..k] + [slot]
            && Started(s.slots) == Started(s.slots[..k + 1]) && Flushed(s.slots) == Flushed(s.slots[..k + 1])
            && Started(slots) == Started(slots[..k + 1]) && Flushed(slots) == Flushed(slots[..k + 1])
  {
    hide Started, Flushed;
    OnlyStartedCount(s.slots, k + 1);
    OnlyStartedCount(s.slots[k := slot], k + 1);
  }

  /** Both counts, one slot further. */
  lemma AddSlot(slots: seq<Slot>, last: Slot)
    ensures Started(slots + [last]) ==
            if last.task.Boot? && last.run.Fulfilled? then []
            else if last.task.Apply? && last.started then Started(slots) + last.task.batch else Started(slots)
    ensures Flushed(slots + [last]) ==
            if last.task.Boot? && last.run.Fulfilled? then []
            else if last.task.Apply? && last.run.Fulfilled? then Flushed(slots) + last.task.batch else Flushed(slots)
  {
  }

  lemma StepKeepsAccount(s: State, step: Step)
    requires Inv(s) && Accounted(s) && Enabled(s, step)
    ensures Accounted(Do(s, step))
  {
    hide Started, Flushed;
    if step.Submit? {
      AddSlot(s.slots, Slot(step.task, false, Pending, Pending, ZERO));
    } else if !step.Raise? {
      var k: nat :| Shape(s, k);
      assert step.i == k;
      hide CursorsOrdered, LaterOf;
      var slot := Do(s, step).slots[k];
      AccountAt(s, k, slot);
      hide Shape;
      AddSlot(s.slots[..k], s.slots[k]);
      AddSlot(s.slots[..k], slot);
      assert Do(s, step).slots == s.slots[k := slot];
    }
  }

  /**
   * Memory holds the started batches and disk the flushed ones, each whole and in submission
   * order: no two applies ever mix, whatever throws.
   */
  lemma {:induction false} AppliesNeverMix(s: State, steps: seq<Step>)
    requires Inv(s) && Accounted(s) && RunFrom(s, steps).Some?
    ensures Accounted(RunFrom(s, steps).value)
    decreases steps
  {
    hide Inv, Accounted, Do, Enabled;
    if steps != [] {
      StepKeepsInv(s, steps[0]);
      StepKeepsAccount(s, steps[0]);
      AppliesNeverMix(Do(s, steps[0]), steps[1..]);
    }
  }

  // ----- the cursors cover what is held -------------------------------------------------------

  predicate Covers(cursor: Position, batch: seq<SyncAction>) {
    forall a | a in batch :: AtMost(PositionOf(a), cursor)
  }

  /** No action in memory or on disk, or on its way there, lies beyond the cursor it is filed under. */
  ghost predicate Covered(s: State) {
    && Covers(s.lastSyncId, s.memory)
    && Covers(s.persisted, s.disk)
    && forall i | 0 <= i < |s.slots| && s.slots[i].task.Apply? && s.slots[i].started ::
         Covers(s.slots[i].maxId, s.slots[i].task.batch)
  }

  lemma HigherCovers(low: Position, high: Position, batch: seq<SyncAction>)
    requires Covers(low, batch) && AtMost(low, high)
    ensures Covers(high, batch)
  {
  }

  lemma BothCovered(cursor: Position, a: seq<SyncAction>, b: seq<SyncAction>)
    requires Covers(cursor, a) && Covers(cursor, b)
    ensures Covers(cursor, a + b)
  {
  }

  lemma BatchIsCovered(start: Position, batch: seq<SyncAction>)
    ensures Covers(LaterOf(start, PositionsOf(batch)), batch)
  {
    LaterOfIsMaximum(start, PositionsOf(batch));
    hide LaterOf;
    forall a | a in batch ensures AtMost(PositionOf(a), LaterOf(start, PositionsOf(batch))) {
      var i :| 0 <= i < |batch| && batch[i] == a;
      assert PositionsOf(batch)[i] == PositionOf(a);
    }
  }

  lemma StepKeepsCovered(s: State, step: Step)
    requires Inv(s) && Covered(s) && Enabled(s, step)
    ensures Covered(Do(s, step))
  {
    var s' := Do(s, step);
    if step.Start? && s.slots[step.i].task.Apply? {
      var batch := s.slots[step.i].task.batch;
      LaterOfIsMaximum(s.lastSyncId, PositionsOf(batch));
      BatchIsCovered(s.lastSyncId, batch);
      HigherCovers(s.lastSyncId, s'.lastSyncId, s.memory);
      BothCovered(s'.lastSyncId, s.memory, batch);
    } else if step.Finish? && step.ok && s.slots[step.i].task.Apply? {
      HigherCovers(s.persisted, s'.persisted, s.disk);
      BothCovered(s'.persisted, s.disk, s.slots[step.i].task.batch);
    } else if step.Raise? {
      LaterBounds(s.lastSyncId, step.cursor);
      HigherCovers(s.lastSyncId, s'.lastSyncId, s.memory);
    }
    hide Covers, LaterOf, Later, AtMost;
  }

  /** In every run no cursor is behind what it is the cursor of. */
  lemma {:induction false} CursorsCoverWhatIsHeld(s: State, steps: seq<Step>)
    requires Inv(s) && Covered(s) && RunFrom(s, steps).Some?
    ensures Covered(RunFrom(s, steps).value)
    decreases steps
  {
    hide Inv, Covered, Do, Enabled;
    if steps != [] {
      StepKeepsInv(s, steps[0]);
      StepKeepsCovered(s, steps[0]);
      CursorsCoverWhatIsHeld(Do(s, steps[0]), steps[1..]);
    }
  }
}
