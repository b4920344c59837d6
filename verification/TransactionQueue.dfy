/**
 * The mutation queue (src/lib/transaction-queue.ts): the module's shared state and the code between
 * two awaits, first as functions, then as the class whose methods run those pieces in place. What
 * the pieces add up to over whole runs is proved in QueueRuns.
 */
module TransactionQueues {
  import opened Common

  /** The organization and user a row was enqueued under; both empty without a session. */
  datatype Session = Session(orgId: string, userId: string)

  const NO_SESSION := Session("", "")

  /** The two variables the pending indicator looks at; entries of `ids` may not be strings. */
  datatype Variables = Variables(id: Option<Id>, ids: Option<seq<Option<Id>>>)

  datatype Transaction = Transaction(id: Id, createdAt: int, session: Session, variables: Variables, retryCount: nat)

  /** Which of the two callbacks an enqueue site passed. */
  datatype Callbacks = Callbacks(onSuccess: bool, onError: bool)

  /**
   * Where the one drain loop stands. `processing` in the source is `phase != Idle`; the other values
   * say at which await the loop is suspended, with the transaction it captured.
   */
  datatype Phase =
    | Idle
    | Sending(tx: Transaction)
    | Unpersisting(tx: Transaction, succeeded: bool)  // shifted, waiting for its row to be deleted
    | Repersisting(tx: Transaction)                   // waiting for the bumped retry count to be stored
    | Sleeping

  /** IndexedDB requests, with the await each of them resumes. */
  datatype Op =
    | PutNew(tx: Transaction)
    | DeleteRow(id: Id)
    | PutRetry(tx: Transaction)
    | ReadRows(session: Session)
    | DropForeign(ids: seq<Id>)

  datatype Memory = Memory(
    queue: seq<Transaction>,
    callbacks: map<Id, Callbacks>,
    phase: Phase,
    hydrated: bool,
    session: Option<Session>,
    pendingIds: Option<set<Id>>,
    listener: bool)

  const MAX_RETRIES: nat := 3

  const FRESH := Memory([], map[], Idle, false, None, None, false)

  /** `idsFromVariables`: the strings among `id` and `ids`. */
  function IdsFromVariables(v: Variables): set<Id> {
    (if v.id.Some? then {v.id.value} else {})
    + (if v.ids.Some? then set x | x in v.ids.value && x.Some? :: x.value else {})
  }

  function PendingIdsOf(queue: seq<Transaction>): set<Id> {
    if queue == [] then {} else IdsFromVariables(queue[0].variables) + PendingIdsOf(queue[1..])
  }

  /** A transaction names an entity if its variables carry it under `id` or in `ids`. */
  predicate Names(v: Variables, id: Id) {
    v.id == Some(id) || (v.ids.Some? && Some(id) in v.ids.value)
  }

  /** Pending are exactly the entities some queued transaction names. */
  lemma {:induction false} PendingIdsExactly(queue: seq<Transaction>, id: Id)
    ensures id in PendingIdsOf(queue) <==> exists t :: t in queue && Names(t.variables, id)
  {
    if queue != [] {
      assert queue == [queue[0]] + queue[1..];
      PendingIdsExactly(queue[1..], id);
      assert id in IdsFromVariables(queue[0].variables) <==> Names(queue[0].variables, id);
    }
  }

  predicate InQueue(queue: seq<Transaction>, id: Id) {
    exists i :: 0 <= i < |queue| && queue[i].id == id
  }

  // ----- the pieces ---------------------------------------------------------------------------

  /** `processNext` up to its first await. */
  function Kick(m: Memory, online: bool): Memory {
    if m.phase != Idle || m.queue == [] then m
    else if !online then m.(listener := true)
    else m.(listener := true, phase := Sending(m.queue[0]))
  }

  function Enqueue(m: Memory, tx: Transaction, callbacks: Option<Callbacks>): (Memory, seq<Op>) {
    (m.(queue := m.queue + [tx],
        callbacks := if callbacks.Some? then m.callbacks[tx.id := callbacks.value] else m.callbacks,
        pendingIds := None),
     [PutNew(tx)])
  }

  /** The server answered without errors. */
  function Succeed(m: Memory): (Memory, seq<Op>)
    requires m.phase.Sending? && m.queue != []
  {
    (m.(queue := m.queue[1..], pendingIds := None, phase := Unpersisting(m.phase.tx, true)), [DeleteRow(m.phase.tx.id)])
  }

  /** The request failed: pause, give up, or store the bumped count for another try. */
  function Fail(m: Memory, permanent: bool, online: bool): (Memory, seq<Op>)
    requires m.phase.Sending? && m.queue != []
  {
    var tx := m.phase.tx;
    if !permanent && !online then (m.(phase := Idle), [])
    else if permanent || tx.retryCount >= MAX_RETRIES then
      (m.(queue := m.queue[1..], pendingIds := None, phase := Unpersisting(tx, false)), [DeleteRow(tx.id)])
    else
      var bumped := tx.(retryCount := tx.retryCount + 1);
      (m.(queue := m.queue[0 := bumped], phase := Repersisting(bumped)), [PutRetry(bumped)])
  }

  /** The row is gone: the callback runs, and the loop goes on unless an error callback threw. */
  function Settle(m: Memory, online: bool, threw: bool): Memory
    requires m.phase.Unpersisting?
  {
    var rest := m.(callbacks := m.callbacks - {m.phase.tx.id}, phase := Idle);
    if threw && !m.phase.succeeded then rest else Kick(rest, online)
  }

  /** Whether settling calls one of the callbacks passed to `enqueue`. */
  predicate Fires(m: Memory)
    requires m.phase.Unpersisting?
  {
    var id := m.phase.tx.id;
    id in m.callbacks && if m.phase.succeeded then m.callbacks[id].onSuccess else m.callbacks[id].onError
  }

  function Wake(m: Memory, online: bool): Memory {
    Kick(m.(phase := Idle), online)
  }

  function AskForRows(m: Memory, session: Session): seq<Op> {
    if m.hydrated then [] else [ReadRows(session)]
  }

  /** Rows already in memory are skipped, the others start with a fresh retry budget. */
  function PushMissing(queue: seq<Transaction>, mine: seq<Transaction>): seq<Transaction>
    decreases mine
  {
    if mine == [] then queue
    else if InQueue(queue, mine[0].id) then PushMissing(queue, mine[1..])
    else PushMissing(queue + [mine[0].(retryCount := 0)], mine[1..])
  }

  /** `hydrate` once it has read the rows. */
  function Hydrate(m: Memory, mine: seq<Transaction>, foreign: seq<Id>, online: bool): (Memory, seq<Op>) {
    var pushed := m.(hydrated := true, queue := PushMissing(m.queue, mine));
    if foreign != [] then (pushed, [DropForeign(foreign)]) else (Announce(pushed, online), [])
  }

  /** The end of `hydrate`. */
  function Announce(m: Memory, online: bool): Memory {
    if m.queue == [] then m else Kick(m.(pendingIds := None), online)
  }

  // ----- the module state in place ------------------------------------------------------------

  class TransactionQueue {
    var queue: seq<Transaction>
    var callbackMap: map<Id, Callbacks>
    var phase: Phase
    var hydrated: bool
    var activeSession: Option<Session>
    var cachedPendingIds: Option<set<Id>>
    var onlineListenerRegistered: bool

    function State(): Memory
      reads this
    {
      Memory(queue, callbackMap, phase, hydrated, activeSession, cachedPendingIds, onlineListenerRegistered)
    }

    constructor ()
      ensures State() == FRESH
    {
      queue, callbackMap, phase, hydrated := [], map[], Idle, false;
      activeSession, cachedPendingIds, onlineListenerRegistered := None, None, false;
    }

    method NotifyQueueChanged()
      modifies this`cachedPendingIds
      ensures cachedPendingIds == None
    {
      cachedPendingIds := None;
    }

    method ProcessNext(online: bool)
      modifies this`phase, this`onlineListenerRegistered
      ensures State() == Kick(old(State()), online)
    {
      if phase != Idle || |queue| == 0 {
        return;
      }
      onlineListenerRegistered := true;
      if !online {
        return;
      }
      phase := Sending(queue[0]);
    }

    method EnqueueTransaction(
        id: Id, now: int, variables: Variables, callbacks: Option<Callbacks>) returns (issued: seq<Op>)
      modifies this`queue, this`callbackMap, this`cachedPendingIds
      ensures (State(), issued) == Enqueue(old(State()),
                Transaction(id, now, old(activeSession).GetOr(Session("", "")), variables, 0), callbacks)
    {
      var tx := Transaction(id, now, activeSession.GetOr(NO_SESSION), variables, 0);
      queue := queue + [tx];
      if callbacks.Some? {
        callbackMap := callbackMap[tx.id := callbacks.value];
      }
      NotifyQueueChanged();
      issued := [PutNew(tx)];
    }

    method SetActiveSession(session: Session)
      modifies this`activeSession
      ensures State() == old(State()).(session := Some(session))
    {
      activeSession := Some(session);
    }

    method ClearActiveSession()
      modifies this`activeSession, this`callbackMap
      ensures State() == old(State()).(session := None, callbacks := map[])
    {
      activeSession := None;
      callbackMap := map[];
    }

    /** The cached set; QueueRuns says when it is the truth. */
    method GetPendingIds() returns (ids: set<Id>)
      modifies this`cachedPendingIds
      ensures ids == old(cachedPendingIds).GetOr(PendingIdsOf(queue))
      ensures old(cachedPendingIds).None? ==>
                forall id :: id in ids <==> exists t :: t in queue && Names(t.variables, id)
      ensures cachedPendingIds == Some(ids)
    {
      forall id ensures id in PendingIdsOf(queue) <==> exists t :: t in queue && Names(t.variables, id) {
        PendingIdsExactly(queue, id);
      }
      hide Names;
      if cachedPendingIds.None? {
        var collected: set<Id> := {};
        for i := 0 to |queue|
          invariant collected + PendingIdsOf(queue[i..]) == PendingIdsOf(queue)
        {
          collected := collected + IdsFromVariables(queue[i].variables);
          assert queue[i..][1..] == queue[i + 1..];
        }
        cachedPendingIds := Some(collected);
      }
      ids := cachedPendingIds.value;
    }

    method SendSucceeded() returns (issued: seq<Op>)
      requires phase.Sending? && queue != []
      modifies this`queue, this`phase, this`cachedPendingIds
      ensures (State(), issued) == Succeed(old(State()))
    {
      var tx := phase.tx;
      queue := queue[1..];
      NotifyQueueChanged();
      phase := Unpersisting(tx, true);
      issued := [DeleteRow(tx.id)];
    }

    method SendFailed(permanent: bool, online: bool) returns (issued: seq<Op>)
      requires phase.Sending? && queue != []
      modifies this`queue, this`phase, this`cachedPendingIds
      ensures (State(), issued) == Fail(old(State()), permanent, online)
    {
      var tx := phase.tx;
      issued := [];
      if !permanent && !online {
        phase := Idle;
        return;
      }
      if permanent || tx.retryCount >= MAX_RETRIES {
        queue := queue[1..];
        NotifyQueueChanged();
        phase := Unpersisting(tx, false);
        issued := [DeleteRow(tx.id)];
      } else {
        tx := tx.(retryCount := tx.retryCount + 1);
        queue := queue[0 := tx];
        phase := Repersisting(tx);
        issued := [PutRetry(tx)];
      }
    }

    /** `threw`: what the callback does, if one is called. */
    method AfterUnpersist(online: bool, threw: bool) returns (called: bool)
      requires phase.Unpersisting?
      modifies this`callbackMap, this`phase, this`onlineListenerRegistered
      ensures called == Fires(old(State()))
      ensures State() == Settle(old(State()), online, threw)
    {
      var (tx, succeeded) := (phase.tx, phase.succeeded);
      var cb := if tx.id in callbackMap then Some(callbackMap[tx.id]) else None;
      callbackMap := callbackMap - {tx.id};
      phase := Idle;
      called := cb.Some? && if succeeded then cb.value.onSuccess else cb.value.onError;
      if threw && !succeeded {
        return;
      }
      if |queue| > 0 {
        ProcessNext(online);
      }
    }

    method AfterRepersist()
      requires phase.Repersisting?
      modifies this`phase
      ensures State() == old(State()).(phase := Sleeping)
    {
      phase := Sleeping;
    }

    method AfterSleep(online: bool)
      requires phase.Sleeping?
      modifies this`phase, this`onlineListenerRegistered
      ensures State() == Wake(old(State()), online)
    {
      phase := Idle;
      if |queue| > 0 {
        ProcessNext(online);
      }
    }

    method BeginHydrate(session: Session) returns (issued: seq<Op>)
      ensures issued == AskForRows(State(), session)
    {
      if hydrated {
        return [];
      }
      issued := [ReadRows(session)];
    }

    method Has(id: Id) returns (found: bool)
      ensures found == InQueue(queue, id)
    {
      found := false;
      for i := 0 to |queue|
        invariant found == exists k :: 0 <= k < i && queue[k].id == id
      {
        if queue[i].id == id {
          found := true;
        }
      }
    }

    method ResumeHydrate(mine: seq<Transaction>, foreign: seq<Id>, online: bool) returns (issued: seq<Op>)
      modifies this`queue, this`hydrated, this`cachedPendingIds, this`phase, this`onlineListenerRegistered
      ensures (State(), issued) == Hydrate(old(State()), mine, foreign, online)
    {
      hydrated := true;
      for i := 0 to |mine|
        invariant PushMissing(queue, mine[i..]) == PushMissing(old(queue), mine)
        invariant State() == old(State()).(hydrated := true, queue := queue)
      {
        assert mine[i..][1..] == mine[i + 1..];
        var found := Has(mine[i].id);
        if !found {
          queue := queue + [mine[i].(retryCount := 0)];
        }
      }
      issued := [];
      if |foreign| > 0 {
        issued := [DropForeign(foreign)];
      } else {
        FinishHydrate(online);
      }
    }

    method FinishHydrate(online: bool)
      modifies this`cachedPendingIds, this`phase, this`onlineListenerRegistered
      ensures State() == Announce(old(State()), online)
    {
      if |queue| > 0 {
        NotifyQueueChanged();
        ProcessNext(online);
      }
    }
  }
}
