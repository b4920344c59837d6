/**
 * The document save queue (src/components/documents/document-save-queue.ts): debounce timers,
 * sends in flight and retained failures for two fields. First the pieces as functions, then the
 * closure's variables in place, then what holds over whole runs.
 */
module SaveQueues {
  import opened Common

  datatype Field = Content | Title

  /** A scheduled value; the number tells two edits with the same text apart. */
  datatype Edit = Edit(number: nat, text: string)

  datatype Status = IsIdle | IsSaving | IsSaved | IsError

  /** What the four dictionaries hold about one field. */
  datatype Slot = Slot(timer: bool, value: Option<Edit>, inFlight: nat, failed: Option<Edit>)

  datatype State = State(content: Slot, title: Slot, status: Status)

  const EMPTY_SLOT := Slot(false, None, 0, None)

  const FRESH := State(EMPTY_SLOT, EMPTY_SLOT, IsIdle)

  function At(s: State, f: Field): Slot { if f == Content then s.content else s.title }

  function With(s: State, f: Field, slot: Slot): State {
    if f == Content then s.(content := slot) else s.(title := slot)
  }

  // ----- the pieces ---------------------------------------------------------------------------

  predicate Pending(s: State) {
    s.content.timer || s.title.timer || s.content.inFlight + s.title.inFlight > 0
  }

  predicate AnyFailed(s: State) { s.content.failed.Some? || s.title.failed.Some? }

  function Recompute(s: State): State {
    if Pending(s) then s.(status := IsSaving)
    else if AnyFailed(s) then s.(status := IsError)
    else if s.status != IsIdle then s.(status := IsSaved)
    else s
  }

  /** `dispatch`: the slot afterwards; what is sent is its value. */
  function Dispatch(slot: Slot): Slot {
    if slot.value.None? then slot.(timer := false) else Slot(false, None, slot.inFlight + 1, None)
  }

  function FlushSlot(slot: Slot): Slot { if slot.timer then Dispatch(slot) else slot }

  function RetrySlot(slot: Slot): Slot {
    if slot.failed.Some? && !slot.timer then Dispatch(slot.(value := slot.failed)) else slot
  }

  function CancelSlot(slot: Slot): Slot {
    if slot.timer then slot.(timer := false, value := None) else slot
  }

  function Less(n: nat): (r: nat)
    ensures r <= n <= r + 1
  {
    if n == 0 then 0 else n - 1
  }

  /** A newer edit to the same field supersedes the failed one. */
  function ErrorSlot(slot: Slot, value: Edit): Slot {
    slot.(inFlight := Less(slot.inFlight),
          failed := if !slot.timer && slot.value.None? then Some(value) else slot.failed)
  }

  function Scheduled(s: State, f: Field, e: Edit): State {
    With(s, f, At(s, f).(timer := true, value := Some(e), failed := None)).(status := IsSaving)
  }

  function Fired(s: State, f: Field): State { With(s, f, Dispatch(At(s, f))) }

  function Flushed(s: State): State { s.(content := FlushSlot(s.content), title := FlushSlot(s.title)) }

  function Cancelled(s: State): State {
    var t := s.(content := CancelSlot(s.content), title := CancelSlot(s.title));
    if t.content.inFlight + t.title.inFlight == 0 && !AnyFailed(t) then t.(status := IsIdle) else Recompute(t)
  }

  function Retried(s: State): State { Recompute(s.(content := RetrySlot(s.content), title := RetrySlot(s.title))) }

  function Failed(s: State, f: Field, value: Edit): State { Recompute(With(s, f, ErrorSlot(At(s, f), value))) }

  function Succeeded(s: State, f: Field): State {
    Recompute(With(s, f, At(s, f).(inFlight := Less(At(s, f).inFlight))))
  }

  // ----- dictionaries in the order their keys were inserted -----------------------------------

  function Held(m: map<Field, Edit>, f: Field): Option<Edit> { if f in m then Some(m[f]) else None }

  /** The entries of those keys that have a value, in order. */
  function Entries(keys: seq<Field>, values: map<Field, Edit>): seq<(Field, Edit)> {
    if keys == [] then []
    else
      var f := keys[|keys| - 1];
      Entries(keys[..|keys| - 1], values) + if f in values then [(f, values[f])] else []
  }

  /** The failed values a retry sends again, oldest failure first. */
  function Resent(failures: seq<Field>, failed: map<Field, Edit>, timers: seq<Field>): seq<(Field, Edit)> {
    Entries(failures, Retryable(failed, timers))
  }

  function Retryable(failed: map<Field, Edit>, timers: seq<Field>): map<Field, Edit> {
    map f | f in failed && f !in timers :: failed[f]
  }

  lemma ResentNext(keys: seq<Field>, i: nat, failed: map<Field, Edit>, timers: seq<Field>, slot: Slot)
    requires i < |keys| && slot.timer == (keys[i] in timers) && slot.failed == Held(failed, keys[i])
    ensures Resent(keys[..i + 1], failed, timers) == Resent(keys[..i], failed, timers)
              + if slot.failed.Some? && !slot.timer then [(keys[i], slot.failed.value)] else []
  {
    assert keys[..i + 1] == keys[..i] + [keys[i]];
    OneMore(keys[..i], keys[i], Retryable(failed, timers));
    hide Entries;
  }

  /** Field by field: what is `done` has been flushed, or tried again, the rest is as it was. */
  predicate Through(now: State, done: seq<Field>, was: State, retry: bool) {
    && now.status == was.status
    && now.content
       == (if Content in done then (if retry then RetrySlot(was.content) else Dispatch(was.content)) else was.content)
    && now.title == (if Title in done then (if retry then RetrySlot(was.title) else Dispatch(was.title)) else was.title)
  }

  lemma ThroughNext(now: State, next: State, keys: seq<Field>, i: nat, was: State, retry: bool)
    requires i < |keys| && Distinct(keys)
    requires Through(now, keys[..i], was, retry) && next.status == now.status
    requires var f := keys[i];
             next == With(now, f, if retry then RetrySlot(At(now, f)) else Dispatch(At(now, f)))
    ensures Through(next, keys[..i + 1], was, retry) && At(now, keys[i]) == At(was, keys[i])
  {
    hide Dispatch, RetrySlot;
    assert keys[..i + 1] == keys[..i] + [keys[i]];
  }

  // ----- the closure in place -----------------------------------------------------------------

  class SaveQueue {
    /** The keys of `timers`. */
    var timers: seq<Field>
    var values: map<Field, Edit>
    var inFlightByField: map<Field, nat>
    var failedValues: map<Field, Edit>
    /** The keys of `failedValues`, in order. */
    var failures: seq<Field>
    var status: Status
    /** What `onStatus` was called with. */
    ghost var reported: seq<Status>
    /** What `send` was called with, oldest first. */
    ghost var sent: seq<(Field, Edit)>

    ghost predicate Valid()
      reads this
    {
      Distinct(timers) && Distinct(failures) && forall f :: f in failures <==> f in failedValues
    }

    function SlotOf(f: Field): Slot
      reads this
    {
      Slot(f in timers,
           if f in values then Some(values[f]) else None,
           if f in inFlightByField then inFlightByField[f] else 0,
           if f in failedValues then Some(failedValues[f]) else None)
    }

    function Now(): State
      reads this
    {
      State(SlotOf(Content), SlotOf(Title), status)
    }

    /** What subscribers have heard: every change of status, the last of them the present one. */
    ghost predicate Told()
      reads this
    {
      && (forall i | 0 <= i < |reported| - 1 :: reported[i] != reported[i + 1])
      && (reported != [] ==> reported[0] != IsIdle && reported[|reported| - 1] == status)
      && (reported == [] ==> status == IsIdle)
    }

    constructor ()
      ensures Valid() && Now() == FRESH && reported == [] && sent == [] && Told()
    {
      timers, values, inFlightByField, failedValues, failures, status := [], map[], map[], map[], [], IsIdle;
      reported, sent := [], [];
    }

    /** Subscribers hear of changes only. */
    method SetStatus(next: Status)
      modifies this`status, this`reported
      ensures status == next
      ensures reported == if next != old(status) then old(reported) + [next] else old(reported)
      ensures old(Told()) ==> Told()
    {
      if next != status {
        status := next;
        reported := reported + [next];
      }
    }

    method InFlightTotal() returns (n: nat)
      ensures n == SlotOf(Content).inFlight + SlotOf(Title).inFlight
    {
      n := (if Content in inFlightByField then inFlightByField[Content] else 0)
           + (if Title in inFlightByField then inFlightByField[Title] else 0);
    }

    method DoRecompute()
      requires Valid()
      modifies this`status, this`reported
      ensures Valid() && Now() == Recompute(old(Now()))
      ensures old(Told()) ==> Told()
    {
      var total := InFlightTotal();
      FieldsAreTwo(timers);
      FieldsAreTwo(failures);
      if |timers| > 0 || total > 0 {
        SetStatus(IsSaving);
      } else if |failures| > 0 {
        SetStatus(IsError);
      } else if status != IsIdle {
        SetStatus(IsSaved);
      }
    }

    method DoDispatch(f: Field)
      requires Valid()
      modifies this`timers, this`values, this`inFlightByField, this`failedValues, this`failures, this`sent
      ensures Valid() && Now() == Fired(old(Now()), f)
      ensures sent == old(sent) + if f in old(values) then [(f, old(values[f]))] else []
      ensures timers == WithoutKey(old(timers), f)
      ensures values == old(values) - {f}
      ensures forall g | g != f :: Held(failedValues, g) == Held(old(failedValues), g)
    {
      hide Distinct, WithoutKey;
      timers := WithoutKey(timers, f);
      if f !in values {
        return;
      }
      var value := values[f];
      values := values - {f};
      inFlightByField := inFlightByField[f := (if f in inFlightByField then inFlightByField[f] else 0) + 1];
      failedValues, failures := failedValues - {f}, WithoutKey(failures, f);
      sent := sent + [(f, value)];
    }

    method Schedule(f: Field, e: Edit)
      requires Valid()
      modifies this`timers, this`values, this`failedValues, this`failures, this`status, this`reported
      ensures Valid() && Now() == Scheduled(old(Now()), f, e)
      ensures timers == WithKey(old(timers), f)
      ensures old(Told()) ==> Told()
    {
      hide Distinct, WithoutKey, WithKey;
      values := values[f := e];
      failedValues, failures := failedValues - {f}, WithoutKey(failures, f);
      timers := WithKey(timers, f);
      SetStatus(IsSaving);
    }

    /** The waiting values go out in the order their timers were first set. */
    method Flush()
      requires Valid()
      modifies this`timers, this`values, this`inFlightByField, this`failedValues, this`failures, this`sent
      ensures Valid() && Now() == Flushed(old(Now()))
      ensures sent == old(sent) + Entries(old(timers), old(values))
    {
      ghost var before := Now();
      var keys := timers;
      for i := 0 to |keys|
        invariant Valid() && Through(Now(), keys[..i], before, false)
        invariant forall g | g !in keys[..i] :: Held(values, g) == Held(old(values), g)
        invariant sent == old(sent) + Entries(keys[..i], old(values))
      {
        NextKey(keys, i);
        OneMore(keys[..i], keys[i], old(values));
        ghost var now := Now();
        hide Entries, Dispatch, Valid, Distinct, WithoutKey, Through, With;
        DoDispatch(keys[i]);
        ThroughNext(now, Now(), keys, i, before, false);
      }
      assert keys[..|keys|] == keys;
    }

    method Cancel()
      requires Valid()
      modifies this`timers, this`values, this`status, this`reported
      ensures Valid() && Now() == Cancelled(old(Now()))
      ensures old(Told()) ==> Told()
    {
      values := values - Elements(timers);
      timers := [];
      var total := InFlightTotal();
      FieldsAreTwo(failures);
      if total == 0 && |failures| == 0 {
        SetStatus(IsIdle);
      } else {
        DoRecompute();
      }
    }

    /** One field of a retry. */
    method RetryOne(f: Field)
      requires Valid()
      modifies this`timers, this`values, this`inFlightByField, this`failedValues, this`failures, this`sent
      ensures Valid() && Now() == With(old(Now()), f, RetrySlot(old(SlotOf(f))))
      ensures var slot := old(SlotOf(f));
              sent == old(sent) + if slot.failed.Some? && !slot.timer then [(f, slot.failed.value)] else []
    {
      hide Distinct, WithoutKey;
      if f in failedValues && f !in timers {
        values := values[f := failedValues[f]];
        DoDispatch(f);
      }
    }

    /** The failed values go out again, oldest failure first, unless a newer edit waits. */
    method Resend()
      requires Valid()
      modifies this`timers, this`values, this`inFlightByField, this`failedValues, this`failures, this`sent
      ensures Valid() && Through(Now(), old(failures), old(Now()), true)
      ensures sent == old(sent) + Resent(old(failures), old(failedValues), old(timers))
    {
      ghost var before := Now();
      var keys := failures;
      for i := 0 to |keys|
        invariant Valid() && Through(Now(), keys[..i], before, true)
        invariant sent == old(sent) + Resent(keys[..i], old(failedValues), old(timers))
      {
        ghost var now := Now();
        ResentNext(keys, i, old(failedValues), old(timers), At(before, keys[i]));
        hide Resent, RetrySlot, Valid, Distinct, Through, With;
        RetryOne(keys[i]);
        ThroughNext(now, Now(), keys, i, before, true);
      }
      assert keys[..|keys|] == keys;
    }

    method Retry()
      requires Valid()
      modifies this`timers, this`values, this`inFlightByField, this`failedValues, this`failures, this`sent,
          this`status, this`reported
      ensures Valid() && Now() == Retried(old(Now()))
      ensures sent == old(sent) + Resent(old(failures), old(failedValues), old(timers))
      ensures old(Told()) ==> Told()
    {
      hide Distinct, Resent, Recompute;
      Resend();
      DoRecompute();
    }

    method OnError(f: Field, value: Edit)
      requires Valid()
      modifies this`inFlightByField, this`failedValues, this`failures, this`status, this`reported
      ensures Valid() && Now() == Failed(old(Now()), f, value)
      ensures old(Told()) ==> Told()
    {
      hide Distinct, WithKey, Recompute;
      Settle(f);
      if f !in timers && f !in values {
        failedValues, failures := failedValues[f := value], WithKey(failures, f);
      }
      DoRecompute();
    }

    method OnSuccess(f: Field)
      requires Valid()
      modifies this`inFlightByField, this`status, this`reported
      ensures Valid() && Now() == Succeeded(old(Now()), f)
      ensures old(Told()) ==> Told()
    {
      Settle(f);
      DoRecompute();
    }

    method Settle(f: Field)
      modifies this`inFlightByField
      ensures Now() == With(old(Now()), f, old(SlotOf(f)).(inFlight := Less(old(SlotOf(f)).inFlight)))
    {
      var n: int := if f in inFlightByField then inFlightByField[f] else 1;
      inFlightByField := inFlightByField[f := Max(0, n - 1)];
    }

    method HasPending(f: Field) returns (pending: bool)
      ensures pending == At(Now(), f).timer
    {
      pending := f in timers;
    }

    /** An edit is waiting or sent and unacknowledged. */
    method IsDirty(f: Field) returns (dirty: bool)
      ensures dirty == (At(Now(), f).timer || At(Now(), f).inFlight > 0)
    {
      dirty := f in timers || (f in inFlightByField && inFlightByField[f] > 0);
    }
  }

  lemma FieldsAreTwo(s: seq<Field>)
    ensures s != [] <==> Content in s || Title in s
  {
    if s != [] {
      assert s[0] == Content || s[0] == Title;
    }
  }

  lemma NextKey(keys: seq<Field>, i: nat)
    requires i < |keys| && Distinct(keys)
    ensures keys[i] !in keys[..i] && keys[..i + 1] == keys[..i] + [keys[i]]
  {
  }

  lemma OneMore(keys: seq<Field>, f: Field, values: map<Field, Edit>)
    ensures Entries(keys + [f], values) == Entries(keys, values) + if f in values then [(f, values[f])] else []
  {
    assert (keys + [f])[..|keys + [f]| - 1] == keys;
  }

  // ----- runs ---------------------------------------------------------------------------------

  /**
   * One field's edits from outside: the newest one scheduled, the sends not yet answered, the last
   * one the server took, all it ever took, and whether `cancel` dropped the newest.
   */
  datatype Track = Track(newest: Option<Edit>, flying: seq<Edit>, stored: Option<Edit>, acked: set<Edit>, dropped: bool)

  datatype World = World(queue: State, content: Track, title: Track, next: nat)

  const NO_EDITS := Track(None, [], None, {}, false)

  const START := World(FRESH, NO_EDITS, NO_EDITS, 0)

  /** Sends of a field are answered in the order they were made. */
  datatype Step =
    | DoSchedule(f: Field, text: string)
    | TimerFires(f: Field)
    | DoFlush
    | DoCancel
    | DoRetry
    | Ack(f: Field)
    | Nack(f: Field)

  function TrackOf(w: World, f: Field): Track { if f == Content then w.content else w.title }

  function WithTrack(w: World, f: Field, t: Track): World {
    if f == Content then w.(content := t) else w.(title := t)
  }

  predicate Enabled(w: World, step: Step) {
    match step
    case TimerFires(f) => At(w.queue, f).timer
    case Ack(f) => TrackOf(w, f).flying != []
    case Nack(f) => TrackOf(w, f).flying != []
    case _ => true
  }

  /** A slot that was dispatched sent its value. */
  function Sends(t: Track, was: Option<Edit>, dispatched: bool): Track {
    if dispatched && was.Some? then t.(flying := t.flying + [was.value]) else t
  }

  function Drops(t: Track, slot: Slot): Track { if slot.timer then t.(dropped := true) else t }

  function FlushTrack(t: Track, slot: Slot): Track { Sends(t, slot.value, slot.timer) }

  function RetryTrack(t: Track, slot: Slot): Track { Sends(t, slot.failed, !slot.timer) }

  function Do(w: World, step: Step): World
    requires Enabled(w, step)
  {
    match step
    case DoSchedule(f, text) =>
      var e := Edit(w.next, text);
      WithTrack(w, f, TrackOf(w, f).(newest := Some(e), dropped := false)).(queue := Scheduled(w.queue, f, e),
          next := w.next + 1)
    case TimerFires(f) => WithTrack(w, f, Sends(TrackOf(w, f), At(w.queue, f).value, true)).(queue := Fired(w.queue, f))
    case DoFlush =>
      w.(queue := Flushed(w.queue),
         content := FlushTrack(w.content, w.queue.content), title := FlushTrack(w.title, w.queue.title))
    case DoCancel =>
      w.(queue := Cancelled(w.queue), content := Drops(w.content, w.queue.content),
          title := Drops(w.title, w.queue.title))
    case DoRetry =>
      w.(queue := Retried(w.queue),
         content := RetryTrack(w.content, w.queue.content), title := RetryTrack(w.title, w.queue.title))
    case Ack(f) =>
      var t := TrackOf(w, f);
      WithTrack(w, f, t.(flying := t.flying[1..], stored := Some(t.flying[0]), acked := t.acked + {t.flying[0]}))
        .(queue := Succeeded(w.queue, f))
    case Nack(f) =>
      var t := TrackOf(w, f);
      WithTrack(w, f, t.(flying := t.flying[1..])).(queue := Failed(w.queue, f, t.flying[0]))
  }

  // ----- the status ---------------------------------------------------------------------------

  /** The counters count, timers and values come together, and a pending edit has no failure beside it. */
  ghost predicate Linked(slot: Slot, t: Track) {
    && slot.inFlight == |t.flying|
    && (slot.timer <==> slot.value.Some?)
    && (slot.timer ==> slot.failed.None? && !t.dropped && slot.value == t.newest)
  }

  /** Saving exactly while something is pending or in flight, error exactly when nothing is and a failure is kept. */
  ghost predicate StatusExact(s: State) {
    && (s.status == IsSaving <==> Pending(s))
    && (s.status == IsError <==> !Pending(s) && AnyFailed(s))
  }

  ghost predicate Sound(w: World) {
    && Linked(w.queue.content, w.content)
    && Linked(w.queue.title, w.title)
    && StatusExact(w.queue)
  }

  /** The counters and timers stay linked, field by field. */
  lemma StepKeepsLinked(w: World, step: Step)
    requires Sound(w) && Enabled(w, step)
    ensures var w' := Do(w, step); Linked(w'.queue.content, w'.content) && Linked(w'.queue.title, w'.title)
  {
    hide StatusExact, Pending, AnyFailed;
  }

  lemma StepKeepsStatus(w: World, step: Step)
    requires Sound(w) && Enabled(w, step)
    ensures StatusExact(Do(w, step).queue)
  {
    hide Sends, Drops;
  }

  lemma StepKeepsSound(w: World, step: Step)
    requires Sound(w) && Enabled(w, step)
    ensures Sound(Do(w, step))
  {
    StepKeepsLinked(w, step);
    StepKeepsStatus(w, step);
    hide Do, Linked, StatusExact;
  }

  // ----- what the status tells the user -------------------------------------------------------

  /** The status in terms of the dictionaries: timers or sends, else kept failures, else idle or saved. */
  ghost predicate StatusFits(s: State) {
    var waiting := s.content.timer || s.title.timer || s.content.inFlight > 0 || s.title.inFlight > 0;
    var failed := s.content.failed.Some? || s.title.failed.Some?;
    && (s.status == IsSaving <==> waiting)
    && (s.status == IsError <==> !waiting && failed)
  }

  lemma StatusIsExact(s: State)
    ensures StatusExact(s) <==> StatusFits(s)
  {
  }

  /** "Saved" is never said before the server has taken something. */
  ghost predicate SavedFits(w: World) {
    w.queue.status == IsSaved ==> w.content.acked + w.title.acked != {}
  }

  lemma StepKeepsSavedFits(w: World, step: Step)
    requires Sound(w) && SavedFits(w) && Enabled(w, step)
    ensures SavedFits(Do(w, step))
  {
  }

  /** A cancel that leaves nothing in flight and no kept failure has nothing to report. */
  lemma CancelReportsIdle(s: State)
    ensures var t := Cancelled(s);
            t.content.inFlight == 0 && t.title.inFlight == 0 && t.content.failed.None? && t.title.failed.None? ==>
              t.status == IsIdle
  {
  }

  /** What each event leaves of a field, whatever it was: no timer and no value, or all of it. */
  lemma EventsOnAField(slot: Slot, value: Edit)
    ensures !Dispatch(slot).timer && Dispatch(slot).value.None?
    ensures slot.value.Some? ==> Dispatch(slot).inFlight == slot.inFlight + 1 && Dispatch(slot).failed.None?
    ensures slot.value.None? ==> Dispatch(slot).inFlight == slot.inFlight && Dispatch(slot).failed == slot.failed
    ensures slot.failed.None? || slot.timer ==> RetrySlot(slot) == slot
    ensures !slot.timer ==> FlushSlot(slot) == slot && CancelSlot(slot) == slot
    ensures slot.timer ==> CancelSlot(slot) == Slot(false, None, slot.inFlight, slot.failed)
    ensures slot.timer || slot.value.Some? ==> ErrorSlot(slot, value).failed == slot.failed
    ensures !slot.timer && slot.value.None? ==> ErrorSlot(slot, value).failed == Some(value)
  {
  }

  // ----- no edit is lost ----------------------------------------------------------------------

  /** The newest edit is pending, in flight, accepted at some point, or kept as failed. */
  ghost predicate Covered(slot: Slot, t: Track) {
    t.newest.Some? && !t.dropped ==>
      || slot.value == t.newest
      || t.newest.value in t.flying
      || t.newest.value in t.acked
      || slot.failed == t.newest
  }

  /** Covered whatever happens to the sends still in flight: if the newest is among them, it is the last. */
  ghost predicate Safe(slot: Slot, t: Track) {
    t.newest.Some? && !t.dropped ==>
      || slot.value == t.newest
      || (t.flying != [] && t.flying[|t.flying| - 1] == t.newest.value)
      || t.newest.value in t.acked
      || (t.flying == [] && slot.failed == t.newest)
  }

  /** A retry that overtakes: it sends an older failure behind the newest edit. */
  ghost predicate Overtakes(slot: Slot, t: Track) {
    && slot.failed.Some? && !slot.timer
    && t.newest.Some? && !t.dropped && t.newest.value !in t.acked && slot.failed != t.newest
    && t.flying != []
  }

  lemma RetrySafeExactly(slot: Slot, t: Track)
    requires Linked(slot, t) && Safe(slot, t)
    ensures Safe(RetrySlot(slot), RetryTrack(t, slot)) <==> !Overtakes(slot, t)
  {
  }

  ghost predicate AllSafe(w: World) {
    Safe(w.queue.content, w.content) && Safe(w.queue.title, w.title)
  }

  /** A send answered or a value sent leaves its field safe. */
  lemma OtherKeepsSafe(w: World, step: Step)
    requires Sound(w) && AllSafe(w) && Enabled(w, step) && !step.DoRetry?
    ensures AllSafe(Do(w, step))
  {
    hide StatusExact, Pending, AnyFailed, RetrySlot, RetryTrack;
  }

  /** Every other step keeps both fields safe. */
  lemma StepKeepsSafe(w: World, step: Step)
    requires Sound(w) && AllSafe(w) && Enabled(w, step)
    requires step.DoRetry? ==> !Overtakes(w.queue.content, w.content) && !Overtakes(w.queue.title, w.title)
    ensures AllSafe(Do(w, step))
  {
    if step.DoRetry? {
      RetrySafeExactly(w.queue.content, w.content);
      RetrySafeExactly(w.queue.title, w.title);
      hide Safe, Linked;
    } else {
      OtherKeepsSafe(w, step);
      hide Do, AllSafe;
    }
  }

  /** The field after every send in flight has failed. */
  function FailAll(slot: Slot, t: Track): (Slot, Track)
    decreases t.flying
  {
    if t.flying == [] then (slot, t)
    else FailAll(ErrorSlot(slot, t.flying[0]), t.(flying := t.flying[1..]))
  }

  lemma {:induction false} FailAllKeepsLast(slot: Slot, t: Track)
    requires !slot.timer && slot.value.None? && t.flying != []
    ensures var (slot', t') := FailAll(slot, t);
            && slot'.value.None? && slot'.failed == Some(t.flying[|t.flying| - 1])
            && t' == t.(flying := [])
    decreases t.flying
  {
    var (slot1, t1) := (ErrorSlot(slot, t.flying[0]), t.(flying := t.flying[1..]));
    if t1.flying != [] {
      FailAllKeepsLast(slot1, t1);
    }
  }

  /** Safe is no more than needed: any other covered state loses the edit if the sends in flight fail. */
  lemma UnsafeCanLose(slot: Slot, t: Track)
    requires Linked(slot, t) && Covered(slot, t) && !Safe(slot, t) && t.flying != []
    ensures !Covered(FailAll(slot, t).0, FailAll(slot, t).1)
  {
    FailAllKeepsLast(slot, t);
  }

  ghost predicate Reaches(w: World, steps: seq<Step>, w': World)
    decreases steps
  {
    if steps == [] then w == w' else Enabled(w, steps[0]) && Reaches(Do(w, steps[0]), steps[1..], w')
  }

  /** The editor offers its retry button only while the status is `error`. */
  ghost predicate RetriesOnError(w: World, steps: seq<Step>)
    decreases steps
  {
    steps == []
    || (Enabled(w, steps[0]) && (steps[0].DoRetry? ==> w.queue.status == IsError)
       && RetriesOnError(Do(w, steps[0]), steps[1..]))
  }

  /** With retries only from the error status, no newest edit is ever lost. */
  lemma {:induction false} NoEditIsLost(w: World, steps: seq<Step>, w': World)
    requires Sound(w) && AllSafe(w) && Reaches(w, steps, w') && RetriesOnError(w, steps)
    ensures Sound(w') && AllSafe(w')
    ensures Covered(w'.queue.content, w'.content) && Covered(w'.queue.title, w'.title)
    decreases steps
  {
    if steps != [] {
      StepKeepsSound(w, steps[0]);
      StepKeepsSafe(w, steps[0]);
      hide Sound, AllSafe, Covered, Do, Enabled;
      NoEditIsLost(Do(w, steps[0]), steps[1..], w');
    }
  }

  /** In every run of a new queue. */
  lemma {:induction false} SavedMeansTaken(w: World, steps: seq<Step>, w': World)
    requires Sound(w) && SavedFits(w) && Reaches(w, steps, w')
    ensures SavedFits(w')
    decreases steps
  {
    if steps != [] {
      StepKeepsSound(w, steps[0]);
      StepKeepsSavedFits(w, steps[0]);
      hide Sound, SavedFits, Do, Enabled;
      SavedMeansTaken(Do(w, steps[0]), steps[1..], w');
    }
  }

  lemma StartIsSafe()
    ensures Sound(START) && AllSafe(START) && AllFresh(START) && SavedFits(START)
  {
  }

  // ----- saved means stored -------------------------------------------------------------------

  /** The newest edit is the only one that can still reach the server last. */
  ghost predicate Fresh(slot: Slot, t: Track) {
    t.newest.Some? && !t.dropped && !slot.timer ==>
      if t.flying != [] then t.flying[|t.flying| - 1] == t.newest.value && slot.failed.None?
      else if slot.failed.Some? then slot.failed == t.newest
      else t.stored == t.newest
  }

  /** The field after every send in flight has been taken. */
  function AckAll(t: Track): Track
    decreases t.flying
  {
    if t.flying == [] then t
    else AckAll(t.(flying := t.flying[1..], stored := Some(t.flying[0]), acked := t.acked + {t.flying[0]}))
  }

  lemma {:induction false} AckAllStoresLast(t: Track)
    ensures AckAll(t).stored == if t.flying == [] then t.stored else Some(t.flying[|t.flying| - 1])
    ensures AckAll(t).flying == [] && AckAll(t).newest == t.newest
    decreases t.flying
  {
    if t.flying != [] {
      AckAllStoresLast(t.(flying := t.flying[1..], stored := Some(t.flying[0]), acked := t.acked + {t.flying[0]}));
    }
  }

  /**
   * Fresh is no more than needed: let the server take all that is in flight, retry what is kept as
   * failed, and let it take that. The newest edit is what it stored last exactly if the field was
   * fresh, or the failure itself was the newest edit.
   */
  lemma FreshExactly(slot: Slot, t: Track)
    requires Linked(slot, t) && t.newest.Some? && !t.dropped && !slot.timer
    ensures AckAll(RetryTrack(AckAll(t), slot)).stored == t.newest <==> Fresh(slot, t) || slot.failed == t.newest
  {
    AckAllStoresLast(t);
    AckAllStoresLast(RetryTrack(AckAll(t), slot));
  }

  ghost predicate AllFresh(w: World) { Fresh(w.queue.content, w.content) && Fresh(w.queue.title, w.title) }

  /** An older send fails while the newest edit is in flight behind it: its value is kept as the failure. */
  ghost predicate KeepsStale(w: World, step: Step) {
    && step.Nack?
    && var (slot, t) := (At(w.queue, step.f), TrackOf(w, step.f));
       && !slot.timer && |t.flying| > 1 && t.newest.Some? && !t.dropped
  }

  lemma StepKeepsFreshExactly(w: World, step: Step)
    requires Sound(w) && AllFresh(w) && Enabled(w, step)
    ensures AllFresh(Do(w, step)) <==> !KeepsStale(w, step)
  {
    if step.Nack? {
      NackFreshExactly(w, step);
    } else {
      OthersKeepFresh(w, step);
    }
  }

  lemma OthersKeepFresh(w: World, step: Step)
    requires Sound(w) && AllFresh(w) && Enabled(w, step) && !step.Nack?
    ensures AllFresh(Do(w, step))
  {
    hide StatusExact, Pending, AnyFailed;
  }

  lemma NackFreshExactly(w: World, step: Step)
    requires Sound(w) && AllFresh(w) && Enabled(w, step) && step.Nack?
    ensures AllFresh(Do(w, step)) <==> !KeepsStale(w, step)
  {
  }

  ghost predicate NothingStale(w: World, steps: seq<Step>)
    decreases steps
  {
    steps == [] || (Enabled(w, steps[0]) && !KeepsStale(w, steps[0]) && NothingStale(Do(w, steps[0]), steps[1..]))
  }

  /** In a run without such a failure, "saved" means the server's last value is the newest edit. */
  lemma {:induction false} SavedMeansStored(w: World, steps: seq<Step>, w': World)
    requires Sound(w) && AllFresh(w) && Reaches(w, steps, w') && NothingStale(w, steps)
    ensures w'.queue.status == IsSaved ==>
              && (w'.content.newest.Some? && !w'.content.dropped ==> w'.content.stored == w'.content.newest)
              && (w'.title.newest.Some? && !w'.title.dropped ==> w'.title.stored == w'.title.newest)
    decreases steps
  {
    if steps != [] {
      StepKeepsSound(w, steps[0]);
      StepKeepsFreshExactly(w, steps[0]);
      hide Sound, AllFresh, Do, Enabled, KeepsStale;
      SavedMeansStored(Do(w, steps[0]), steps[1..], w');
    }
  }

  // ----- the two ways to lose -----------------------------------------------------------------

  /** Two edits to the body, each sent, the first one failing: the second is in flight, the first is kept. */
  function OlderFailed(a: string, b: string): World {
    World(State(Slot(false, None, 1, Some(Edit(0, a))), EMPTY_SLOT, IsSaving),
          Track(Some(Edit(1, b)), [Edit(1, b)], None, {}, false), NO_EDITS, 2)
  }

  lemma OlderFailedIsReached(a: string, b: string)
    ensures Reaches(START,
            [DoSchedule(Content, a), TimerFires(Content), DoSchedule(Content, b), TimerFires(Content), Nack(Content)],
                    OlderFailed(a, b))
  {
    var steps := [DoSchedule(Content, a), TimerFires(Content), DoSchedule(Content, b), TimerFires(Content),
        Nack(Content)];
    var w1 := Do(START, steps[0]);
    var w2 := Do(w1, steps[1]);
    var w3 := Do(w2, steps[2]);
    var w4 := Do(w3, steps[3]);
    assert w4.content.flying == [Edit(0, a), Edit(1, b)];
    var w5 := Do(w4, steps[4]);
    assert w5 == OlderFailed(a, b);
    hide Do;
    Backwards(w4, steps[4..], w5);
    Backwards(w3, steps[3..], w5);
    Backwards(w2, steps[2..], w5);
    Backwards(w1, steps[1..], w5);
    Backwards(START, steps, w5);
  }

  lemma Backwards(w: World, steps: seq<Step>, w': World)
    requires steps != [] && Enabled(w, steps[0]) && Reaches(Do(w, steps[0]), steps[1..], w')
    ensures Reaches(w, steps, w')
  {
  }

  /** Retried at once, the older value overtakes, and if both sends fail the newest edit is gone. */
  lemma EagerRetryLosesNewest(a: string, b: string)
    ensures exists w' :: Reaches(OlderFailed(a, b), [DoRetry, Nack(Content), Nack(Content)], w')
                         && !Covered(w'.queue.content, w'.content) && w'.queue.status == IsError
  {
    var steps := [DoRetry, Nack(Content), Nack(Content)];
    var w := OlderFailed(a, b);
    var w1 := Do(w, steps[0]);
    assert w1.content.flying == [Edit(1, b), Edit(0, a)];
    var w2 := Do(w1, steps[1]);
    var w3 := Do(w2, steps[2]);
    assert !Covered(w3.queue.content, w3.content);
    hide Do;
    Backwards(w2, steps[2..], w3);
    Backwards(w1, steps[1..], w3);
    Backwards(w, steps, w3);
  }

  /** Retried from the error status, it overwrites the newest edit the server had already taken. */
  lemma StaleRetryOverwrites(a: string, b: string)
    ensures exists w' :: Reaches(OlderFailed(a, b), [Ack(Content), DoRetry, Ack(Content)], w')
                         && RetriesOnError(OlderFailed(a, b), [Ack(Content), DoRetry, Ack(Content)])
                         && w'.queue.status == IsSaved
                         && w'.content.stored == Some(Edit(0, a)) && w'.content.newest == Some(Edit(1, b))
  {
    var steps := [Ack(Content), DoRetry, Ack(Content)];
    var w := OlderFailed(a, b);
    var w1 := Do(w, steps[0]);
    assert w1.queue.status == IsError;
    var w2 := Do(w1, steps[1]);
    var w3 := Do(w2, steps[2]);
    assert RetriesOnError(w3, steps[3..]);
    assert RetriesOnError(w2, steps[2..]);
    assert RetriesOnError(w1, steps[1..]);
    assert w3.queue.status == IsSaved && w3.content.stored == Some(Edit(0, a)) && w3.content.newest == Some(Edit(1, b));
    hide Do;
    Backwards(w2, steps[2..], w3);
    Backwards(w1, steps[1..], w3);
    Backwards(w, steps, w3);
  }
}
