/**
 * The mutation queue over whole runs (src/lib/transaction-queue.ts): its pieces composed with
 * IndexedDB requests that complete in issue order or fail, a network that answers anything, a
 * browser that goes on- and offline, callbacks that may throw, and reloads at any await.
 */
module QueueRuns {
  import opened Common
  import opened TransactionQueues

  datatype Snapshot = Snapshot(mine: seq<Transaction>, foreign: seq<Id>)

  /** How a transaction left the queue: with the server's consent, refused for good, or after too many failures. */
  datatype Outcome = Accepted | Rejected | GivenUp

  /**
   * What was seen since the page was loaded: pushes, transactions that left the queue and how, and
   * how often the server failed the i-th push.
   */
  datatype Page = Page(pushed: seq<Id>, settled: seq<Id>, outcomes: seq<Outcome>, fails: seq<nat>)

  /**
   * What happened ever: ids used, rows stored, transactions settled by the server's answer, rows
   * dropped as another session's, callbacks run.
   */
  datatype History = History(used: set<Id>, stored: set<Id>, done: set<Id>, evicted: set<Id>, fired: seq<Id>)

  /** `event` is an `online` event not yet delivered; `listings` are hydrations about to resume. */
  datatype World = World(
    mem: Memory, rows: map<Id, Transaction>, ops: seq<Op>, listings: seq<Snapshot>, online: bool, event: bool,
    page: Page, past: History)

  datatype Step =
    | Add(tx: Transaction, callbacks: Option<Callbacks>)
    | OpenSession(session: Session)
    | CloseSession
    | CallHydrate(session: Session)
    | Complete(ok: bool, threw: bool, read: Snapshot)  // the oldest IndexedDB request
    | ResumeRead
    | Answer(success: bool, permanent: bool)
    | WakeUp
    | GoOffline
    | GoOnline
    | OnlineEvent
    | AskPending
    | Reload(applied: seq<bool>)                       // which of the oldest requests still took effect

  function IdsOf(queue: seq<Transaction>): (ids: seq<Id>)
    ensures |ids| == |queue|
  {
    seq(|queue|, i requires 0 <= i < |queue| => queue[i].id)
  }

  ghost predicate ByAge(queue: seq<Transaction>) {
    forall i, j | 0 <= i < j < |queue| :: queue[i].createdAt <= queue[j].createdAt
  }

  /** A read lists the session's own rows, oldest first, and the ids of all others. */
  ghost predicate Lists(rows: map<Id, Transaction>, session: Session, s: Snapshot) {
    && (forall i | 0 <= i < |s.mine| ::
          && s.mine[i].id in rows && rows[s.mine[i].id] == s.mine[i]
          && s.mine[i].session == session)
    && (forall id | id in rows && rows[id].session == session :: rows[id] in s.mine)
    && (forall i, j | 0 <= i < j < |s.mine| :: s.mine[i].id != s.mine[j].id)
    && ByAge(s.mine)
    && (forall id :: id in s.foreign <==> id in rows && rows[id].session != session)
  }

  ghost predicate Enabled(w: World, step: Step) {
    match step
    case Add(tx, _) => tx.id !in w.past.used && tx.retryCount == 0 && tx.session == w.mem.session.GetOr(NO_SESSION)
    case Complete(ok, _, read) =>
      && w.ops != []
      && (w.ops[0].DeleteRow? ==> w.mem.phase.Unpersisting?)
      && (w.ops[0].PutRetry? ==> w.mem.phase.Repersisting?)
      && (w.ops[0].ReadRows? && ok ==> Lists(w.rows, w.ops[0].session, read))
    case ResumeRead => w.listings != []
    case Answer(_, _) => w.mem.phase.Sending? && w.mem.queue != []
    case WakeUp => w.mem.phase.Sleeping?
    case GoOffline => w.online
    case GoOnline => !w.online
    case OnlineEvent => w.event
    case Reload(applied) => |applied| <= |w.ops|
    case _ => true
  }

  /** A request's effect on the table. */
  function Written(rows: map<Id, Transaction>, op: Op): map<Id, Transaction> {
    match op
    case PutNew(tx) => rows[tx.id := tx]
    case PutRetry(tx) => rows[tx.id := tx]
    case DeleteRow(id) => rows - {id}
    case DropForeign(ids) => rows - Elements(ids)
    case ReadRows(_) => rows
  }

  function Recorded(past: History, op: Op): History {
    match op
    case PutNew(tx) => past.(stored := past.stored + {tx.id})
    case PutRetry(tx) => past.(stored := past.stored + {tx.id})
    case DropForeign(ids) => past.(evicted := past.evicted + Elements(ids))
    case _ => past
  }

  /** The oldest request has taken effect or failed. */
  function Consumed(w: World, ok: bool): World
    requires w.ops != []
  {
    var op := w.ops[0];
    w.(ops := w.ops[1..], rows := if ok then Written(w.rows, op) else w.rows,
       past := if ok then Recorded(w.past, op) else w.past)
  }

  /** The code a completed request resumes. */
  function Resumed(w: World, op: Op, ok: bool, threw: bool, read: Snapshot): World
    requires op.DeleteRow? ==> w.mem.phase.Unpersisting?
  {
    match op
    case PutNew(_) => w.(mem := Kick(w.mem, w.online))
    case PutRetry(_) => w.(mem := w.mem.(phase := Sleeping))
    case DeleteRow(id) =>
      w.(mem := Settle(w.mem, w.online, threw),
         past := if Fires(w.mem) then w.past.(fired := w.past.fired + [w.mem.phase.tx.id]) else w.past)
    case DropForeign(_) => w.(mem := Announce(w.mem, w.online))
    case ReadRows(_) => if ok then w.(listings := w.listings + [read]) else w
  }

  /** Rows and history after some of the oldest requests took effect and nobody was left to resume. */
  function Leftovers(
      rows: map<Id, Transaction>, past: History, ops: seq<Op>, applied: seq<bool>): (map<Id, Transaction>, History)
    requires |applied| <= |ops|
    decreases applied
  {
    if applied == [] then (rows, past)
    else if applied[0] then Leftovers(Written(rows, ops[0]), Recorded(past, ops[0]), ops[1..], applied[1..])
    else Leftovers(rows, past, ops[1..], applied[1..])
  }

  /** An answer, and what an onlooker notes: a failure of the server, and whether the head left the queue. */
  function Answered(w: World, success: bool, permanent: bool): World
    requires w.mem.phase.Sending? && w.mem.queue != []
  {
    var tx := w.mem.phase.tx;
    var (mem, issued) := if success then Succeed(w.mem) else Fail(w.mem, permanent, w.online);
    var i := |w.page.settled|;
    var counted := !success && (permanent || w.online) && i < |w.page.fails|;
    var fails := if counted then w.page.fails[i := w.page.fails[i] + 1] else w.page.fails;
    var gone := |mem.queue| < |w.mem.queue|;
    var outcome := if success then Accepted else if permanent then Rejected else GivenUp;
    w.(mem := mem, ops := w.ops + issued,
       page := if gone then
           w.page.(settled := w.page.settled + [tx.id], outcomes := w.page.outcomes + [outcome], fails := fails)
         else w.page.(fails := fails),
       past := if gone then w.past.(done := w.past.done + {tx.id}) else w.past)
  }

  function Zeros(n: nat): seq<nat> { seq(n, _ => 0) }

  function Do(w: World, step: Step): World
    requires Enabled(w, step)
  {
    match step
    case Add(tx, callbacks) =>
      var (mem, issued) := Enqueue(w.mem, tx, callbacks);
      w.(mem := mem, ops := w.ops + issued,
         page := w.page.(pushed := w.page.pushed + [tx.id], fails := w.page.fails + [0]),
         past := w.past.(used := w.past.used + {tx.id}))
    case OpenSession(session) => w.(mem := w.mem.(session := Some(session)))
    case CloseSession => w.(mem := w.mem.(session := None, callbacks := map[]))
    case CallHydrate(session) => w.(ops := w.ops + AskForRows(w.mem, session))
    case Complete(ok, threw, read) => Resumed(Consumed(w, ok), w.ops[0], ok, threw, read)
    case ResumeRead =>
      var (mem, issued) := Hydrate(w.mem, w.listings[0].mine, w.listings[0].foreign, w.online);
      var queue := PushMissing(w.mem.queue, w.listings[0].mine);
      PushMissingExtends(w.mem.queue, w.listings[0].mine);
      var added := queue[|w.mem.queue|..];
      w.(mem := mem, ops := w.ops + issued, listings := w.listings[1..],
         page := w.page.(pushed := w.page.pushed + IdsOf(added), fails := w.page.fails + Zeros(|added|)))
    case Answer(success, permanent) => Answered(w, success, permanent)
    case WakeUp => w.(mem := Wake(w.mem, w.online))
    case GoOffline => w.(online := false)
    case GoOnline => w.(online := true, event := true)
    case OnlineEvent => w.(event := false, mem := if w.mem.listener then Kick(w.mem, w.online) else w.mem)
    case AskPending => w.(mem := w.mem.(pendingIds := Some(w.mem.pendingIds.GetOr(PendingIdsOf(w.mem.queue)))))
    case Reload(applied) =>
      var (rows, past) := Leftovers(w.rows, w.past, w.ops, applied);
      World(FRESH, rows, [], [], w.online, false, Page([], [], [], []), past)
  }

  // ----- hydration pushes ---------------------------------------------------------------------

  /** What hydration adds: rows of its list that were not in memory, once each, with a fresh budget. */
  lemma {:induction false} PushMissingExtends(queue: seq<Transaction>, mine: seq<Transaction>)
    ensures var r := PushMissing(queue, mine);
            && queue <= r
            && (forall i | |queue| <= i < |r| ::
                  && r[i].retryCount == 0
                  && !InQueue(queue, r[i].id)
                  && InQueue(mine, r[i].id))
            && (forall i, j | |queue| <= i < j < |r| :: r[i].id != r[j].id)
            && (forall t | t in mine :: InQueue(r, t.id))
    decreases mine
  {
    if mine != [] {
      var t := mine[0].(retryCount := 0);
      if InQueue(queue, t.id) {
        PushMissingExtends(queue, mine[1..]);
      } else {
        var longer := queue + [t];
        PushMissingExtends(longer, mine[1..]);
        assert longer[|queue|] == t;
        assert forall id | InQueue(queue, id) :: InQueue(longer, id) by {
          forall id | InQueue(queue, id) ensures InQueue(longer, id) {
            var i :| 0 <= i < |queue| && queue[i].id == id;
            assert longer[i].id == id;
          }
        }
        assert InQueue(longer, t.id);
      }
      var r := PushMissing(queue, mine);
      assert InQueue(r, mine[0].id);
      forall i | |queue| <= i < |r| ensures InQueue(mine, r[i].id) {
        if InQueue(mine[1..], r[i].id) {
          var k :| 0 <= k < |mine[1..]| && mine[1..][k].id == r[i].id;
          assert mine[k + 1].id == r[i].id;
        } else {
          assert mine[0].id == r[i].id;
        }
      }
    }
  }

  // ----- one request at a time, always the head -----------------------------------------------

  /** The requests the drain loop itself waits for. */
  function Settling(ops: seq<Op>): seq<Op> {
    if ops == [] then [] else SettlingHead(ops[0]) + Settling(ops[1..])
  }

  function SettlingHead(op: Op): seq<Op> { if op.DeleteRow? || op.PutRetry? then [op] else [] }

  lemma {:induction false} SettlingConcat(a: seq<Op>, b: seq<Op>)
    ensures Settling(a + b) == Settling(a) + Settling(b)
  {
    if a == [] {
      assert a + b == b;
    } else {
      SettlingConcat(a[1..], b);
      assert (a + b)[1..] == a[1..] + b && (a + b)[0] == a[0];
      var head := SettlingHead(a[0]);
      hide SettlingHead;
      assert head + (Settling(a[1..]) + Settling(b)) == head + Settling(a[1..]) + Settling(b);
    }
  }

  lemma SettlingOne(op: Op)
    ensures Settling([op]) == SettlingHead(op)
  {
  }

  /** The loop is at one await, about the head of the queue, and waits for at most one request. */
  ghost predicate Shape(m: Memory, ops: seq<Op>) {
    && (forall t | t in m.queue :: t.retryCount <= 3)
    && (m.phase != Idle ==> m.listener)
    && match m.phase
       case Idle => Settling(ops) == []
       case Sending(tx) => Settling(ops) == [] && m.queue != [] && m.queue[0] == tx
       case Unpersisting(tx, _) => Settling(ops) == [DeleteRow(tx.id)]
       case Repersisting(tx) => Settling(ops) == [PutRetry(tx)] && m.queue != [] && m.queue[0] == tx
       case Sleeping => Settling(ops) == [] && m.queue != []
  }

  lemma KickKeepsShape(m: Memory, ops: seq<Op>, online: bool)
    requires Shape(m, ops)
    ensures Shape(Kick(m, online), ops)
  {
  }

  lemma CompleteIs(w: World, step: Step)
    requires step.Complete? && Enabled(w, step)
    ensures w.ops != []
    ensures Do(w, step) == Resumed(Consumed(w, step.ok), w.ops[0], step.ok, step.threw, step.read)
    ensures Consumed(w, step.ok).mem == w.mem && Consumed(w, step.ok).ops == w.ops[1..]
    ensures Consumed(w, step.ok).online == w.online && Consumed(w, step.ok).event == w.event
    ensures Consumed(w, step.ok).page == w.page && Consumed(w, step.ok).listings == w.listings
  {
  }

  /** What is left of the shape when the oldest request is taken off. */
  lemma ShapeWithout(m: Memory, op: Op, ops: seq<Op>)
    requires Shape(m, [op] + ops)
    ensures !op.DeleteRow? && !op.PutRetry? ==> Shape(m, ops)
    ensures op.DeleteRow? || op.PutRetry? ==>
            Settling(ops) == [] && m.listener && forall t | t in m.queue :: t.retryCount <= 3
    ensures op.PutRetry? && m.phase.Repersisting? ==> m.queue != []
  {
    assert ([op] + ops)[1..] == ops;
    assert Settling([op] + ops) == SettlingHead(op) + Settling(ops);
    assert Settling(ops) != [] ==> |Settling([op] + ops)| == |SettlingHead(op)| + |Settling(ops)|;
    hide Settling;
  }

  lemma ResumedKeepsShape(w: World, op: Op, ok: bool, threw: bool, read: Snapshot)
    requires Shape(w.mem, [op] + w.ops) && (op.DeleteRow? ==> w.mem.phase.Unpersisting?)
             && (op.PutRetry? ==> w.mem.phase.Repersisting?)
    ensures var w' := Resumed(w, op, ok, threw, read); Shape(w'.mem, w'.ops)
  {
    ShapeWithout(w.mem, op, w.ops);
    hide Settling, Fires, PendingIdsOf, Kick, Settle;
    if op.DeleteRow? {
      SettleKeepsShape(w.mem, w.ops, w.online, threw);
      hide Shape;
    } else if op.PutNew? {
      KickKeepsShape(w.mem, w.ops, w.online);
      hide Shape;
    } else if op.DropForeign? {
      KickKeepsShape(w.mem.(pendingIds := None), w.ops, w.online);
    }
  }

  lemma SettleKeepsShape(m: Memory, ops: seq<Op>, online: bool, threw: bool)
    requires m.phase.Unpersisting? && Settling(ops) == []
    requires m.listener && forall t | t in m.queue :: t.retryCount <= 3
    ensures Shape(Settle(m, online, threw), ops)
  {
    KickKeepsShape(m.(callbacks := m.callbacks - {m.phase.tx.id}, phase := Idle), ops, online);
    hide Settling, Kick;
  }

  lemma CompleteKeepsShape(w: World, step: Step)
    requires Shape(w.mem, w.ops) && step.Complete? && Enabled(w, step)
    ensures Shape(Do(w, step).mem, Do(w, step).ops)
  {
    CompleteIs(w, step);
    hide Do, Resumed, Consumed, Lists, Shape;
    assert [w.ops[0]] + w.ops[1..] == w.ops;
    ResumedKeepsShape(Consumed(w, step.ok), w.ops[0], step.ok, step.threw, step.read);
  }

  lemma MemberOfPushed(queue: seq<Transaction>, mine: seq<Transaction>)
    requires forall t | t in queue :: t.retryCount <= 3
    ensures forall t | t in PushMissing(queue, mine) :: t.retryCount <= 3
  {
    PushMissingExtends(queue, mine);
    var r := PushMissing(queue, mine);
    forall t | t in r ensures t.retryCount <= 3 {
      var i :| 0 <= i < |r| && r[i] == t;
      assert i < |queue| ==> queue[i] == t;
    }
  }

  lemma HydrateKeepsShape(m: Memory, ops: seq<Op>, mine: seq<Transaction>, foreign: seq<Id>, online: bool)
    requires Shape(m, ops)
    ensures var (m', issued) := Hydrate(m, mine, foreign, online); Shape(m', ops + issued)
  {
    PushMissingExtends(m.queue, mine);
    MemberOfPushed(m.queue, mine);
    hide PushMissing, Settling;
    var pushed := m.(hydrated := true, queue := PushMissing(m.queue, mine));
    assert Shape(pushed, ops);
    SettlingConcat(ops, [DropForeign(foreign)]);
    SettlingOne(DropForeign(foreign));
    KickKeepsShape(pushed.(pendingIds := None), ops, online);
    assert ops + [] == ops;
    hide Kick;
  }

  lemma ResumeKeepsShape(w: World)
    requires Shape(w.mem, w.ops) && w.listings != []
    ensures Shape(Do(w, ResumeRead).mem, Do(w, ResumeRead).ops)
  {
    HydrateKeepsShape(w.mem, w.ops, w.listings[0].mine, w.listings[0].foreign, w.online);
    hide Shape, Hydrate, PushMissing;
  }

  lemma SucceedKeepsShape(m: Memory, ops: seq<Op>)
    requires Shape(m, ops) && m.phase.Sending?
    ensures var (m', issued) := Succeed(m); Shape(m', ops + issued)
  {
    var op := DeleteRow(m.phase.tx.id);
    SettlingConcat(ops, [op]);
    SettlingOne(op);
    hide Settling;
  }

  lemma FailKeepsShape(m: Memory, ops: seq<Op>, permanent: bool, online: bool)
    requires Shape(m, ops) && m.phase.Sending?
    ensures var (m', issued) := Fail(m, permanent, online); Shape(m', ops + issued)
  {
    var issued := Fail(m, permanent, online).1;
    if issued == [] {
      assert ops + issued == ops;
    } else {
      SettlingConcat(ops, issued);
      SettlingOne(issued[0]);
      assert issued == [issued[0]];
    }
    hide Settling;
  }

  lemma AnswerKeepsShape(w: World, success: bool, permanent: bool)
    requires Shape(w.mem, w.ops) && w.mem.phase.Sending?
    ensures Shape(Answered(w, success, permanent).mem, Answered(w, success, permanent).ops)
  {
    if success {
      SucceedKeepsShape(w.mem, w.ops);
    } else {
      FailKeepsShape(w.mem, w.ops, permanent, w.online);
    }
    assert w.mem.queue != [];
    hide Shape, Succeed, Fail;
  }

  lemma StepKeepsShape(w: World, step: Step)
    requires Shape(w.mem, w.ops) && Enabled(w, step)
    ensures Shape(Do(w, step).mem, Do(w, step).ops)
  {
    if step.Complete? {
      CompleteKeepsShape(w, step);
    } else if step.ResumeRead? {
      ResumeKeepsShape(w);
    } else if step.Answer? {
      AnswerKeepsShape(w, step.success, step.permanent);
    } else if step.Add? || step.CallHydrate? {
      CallKeepsShape(w, step);
    } else {
      hide Leftovers, PendingIdsOf;
    }
  }

  /** A request that settles nothing leaves the awaited writes as they are. */
  lemma SettlesNothing(ops: seq<Op>, op: Op)
    requires !op.DeleteRow? && !op.PutRetry?
    ensures Settling(ops + [op]) == Settling(ops)
  {
    SettlingConcat(ops, [op]);
    SettlingOne(op);
    hide Settling;
  }

  lemma CallKeepsShape(w: World, step: Step)
    requires Shape(w.mem, w.ops) && Enabled(w, step) && (step.Add? || step.CallHydrate?)
    ensures Shape(Do(w, step).mem, Do(w, step).ops)
  {
    hide Settling, Lists, Leftovers, PendingIdsOf, Resumed, Answered;
    if step.Add? {
      SettlesNothing(w.ops, PutNew(step.tx));
    } else if !w.mem.hydrated {
      SettlesNothing(w.ops, ReadRows(step.session));
    } else {
      assert w.ops + [] == w.ops;
    }
  }

  // ----- queue order and the retry bound ------------------------------------------------------

  /** How often the server failed a transaction that ended this way. */
  predicate FailsFit(outcome: Outcome, fails: nat) {
    match outcome
    case Accepted => fails <= 3
    case Rejected => 1 <= fails <= 4
    case GivenUp => fails == 4
  }

  /**
   * Everything pushed is settled or still queued, in that order. Nobody fails online a fifth time,
   * and nobody is given up before the fourth.
   */
  ghost predicate Fifo(queue: seq<Transaction>, page: Page) {
    && page.pushed == page.settled + IdsOf(queue)
    && |page.fails| == |page.pushed| && |page.outcomes| == |page.settled|
    && (forall i | 0 <= i < |page.settled| :: FailsFit(page.outcomes[i], page.fails[i]))
    && (forall j | 0 <= j < |queue| :: page.fails[|page.settled| + j] == queue[j].retryCount <= 3)
  }

  lemma AnswerKeepsFifo(w: World, success: bool, permanent: bool)
    requires Shape(w.mem, w.ops) && Fifo(w.mem.queue, w.page) && w.mem.phase.Sending?
    ensures Fifo(Answered(w, success, permanent).mem.queue, Answered(w, success, permanent).page)
  {
    hide Settling;
    var q := w.mem.queue;
    var tx := w.mem.phase.tx;
    assert IdsOf(q) == [tx.id] + IdsOf(q[1..]);
    assert w.page.settled + [tx.id] + IdsOf(q[1..]) == w.page.settled + IdsOf(q);
    var bumped := tx.(retryCount := tx.retryCount + 1);
    assert IdsOf(q[0 := bumped]) == IdsOf(q);
    hide IdsOf, PendingIdsOf;
  }

  /** Only an enqueue, an answer, a hydration and a reload touch the queue. */
  lemma OthersKeepQueue(w: World, step: Step)
    requires Enabled(w, step) && !step.Add? && !step.Answer? && !step.ResumeRead? && !step.Reload?
    ensures Do(w, step).mem.queue == w.mem.queue && Do(w, step).page == w.page
  {
    if step.Complete? {
      CompleteIs(w, step);
      hide Enabled, Do, Consumed, Lists, Fires;
    } else {
      hide Enabled, Do;
      OtherSteps(w, step);
    }
  }

  lemma LongerKeepsFifo(q: seq<Transaction>, q': seq<Transaction>, page: Page)
    requires Fifo(q, page) && q <= q' && forall i | |q| <= i < |q'| :: q'[i].retryCount == 0
    ensures var added := q'[|q|..];
            Fifo(q', page.(pushed := page.pushed + IdsOf(added), fails := page.fails + Zeros(|added|)))
  {
  }

  lemma PushKeepsFifo(w: World, step: Step)
    requires Fifo(w.mem.queue, w.page) && Enabled(w, step) && (step.Add? || step.ResumeRead?)
    ensures Fifo(Do(w, step).mem.queue, Do(w, step).page)
  {
    hide Fifo, Lists, PendingIdsOf, IdsOf;
    var q := w.mem.queue;
    if step.ResumeRead? {
      PushMissingExtends(q, w.listings[0].mine);
      hide PushMissing;
      LongerKeepsFifo(q, PushMissing(q, w.listings[0].mine), w.page);
    } else {
      var q' := q + [step.tx];
      LongerKeepsFifo(q, q', w.page);
      assert q'[|q|..] == [step.tx];
      IdsOfOne(step.tx);
    }
  }

  lemma IdsOfOne(tx: Transaction)
    ensures IdsOf([tx]) == [tx.id] && Zeros(1) == [0]
  {
  }

  lemma StepKeepsFifo(w: World, step: Step)
    requires Shape(w.mem, w.ops) && Fifo(w.mem.queue, w.page) && Enabled(w, step)
    ensures Fifo(Do(w, step).mem.queue, Do(w, step).page)
  {
    if step.Answer? {
      AnswerKeepsFifo(w, step.success, step.permanent);
    } else if step.ResumeRead? || step.Add? {
      PushKeepsFifo(w, step);
    } else if step.Reload? {
      hide Leftovers;
    } else {
      OthersKeepQueue(w, step);
      hide Do;
    }
  }

  // ----- the queue never stalls ---------------------------------------------------------------

  /** A request whose completion kicks the drain. */
  predicate KickPending(ops: seq<Op>) {
    exists i :: 0 <= i < |ops| && (ops[i].PutNew? || ops[i].DropForeign?)
  }

  /**
   * A non-empty queue is being drained, or a kick is on its way, or the browser is offline (or its
   * `online` event not yet delivered) and the listener is there to kick.
   */
  ghost predicate Alive(w: World) {
    w.mem.queue != [] ==>
      || w.mem.phase != Idle
      || KickPending(w.ops)
      || (w.mem.listener && (!w.online || w.event))
  }

  lemma KickPendingConcat(a: seq<Op>, b: seq<Op>)
    ensures KickPending(a + b) <==> KickPending(a) || KickPending(b)
  {
    if KickPending(a) {
      var i :| 0 <= i < |a| && (a[i].PutNew? || a[i].DropForeign?);
      assert (a + b)[i] == a[i];
    }
    if KickPending(b) {
      var i :| 0 <= i < |b| && (b[i].PutNew? || b[i].DropForeign?);
      assert (a + b)[|a| + i] == b[i];
    }
  }

  /** The one way to stall: an error callback that throws, with more to send and nothing to wake it. */
  ghost predicate ThrowStrands(w: World, step: Step) {
    && step.Complete? && step.threw && w.ops != [] && w.ops[0].DeleteRow?
    && w.mem.phase.Unpersisting? && !w.mem.phase.succeeded
    && w.mem.queue != [] && !KickPending(w.ops[1..])
    && !(w.mem.listener && (!w.online || w.event))
  }

  lemma ResumedAlive(w: World, op: Op, ok: bool, threw: bool, read: Snapshot)
    requires op.DeleteRow? ==> w.mem.phase.Unpersisting?
    requires w.mem.queue != [] && !op.PutNew? && !op.DropForeign? ==>
               w.mem.phase != Idle || KickPending(w.ops) || (w.mem.listener && (!w.online || w.event))
    ensures Alive(Resumed(w, op, ok, threw, read)) <==>
            !(op.DeleteRow? && threw && !w.mem.phase.succeeded && w.mem.queue != [] && !KickPending(w.ops)
              && !(w.mem.listener && (!w.online || w.event)))
  {
    hide KickPending, Fires, PendingIdsOf;
  }

  lemma CompleteKeepsAlive(w: World, step: Step)
    requires Alive(w) && step.Complete? && Enabled(w, step)
    ensures Alive(Do(w, step)) <==> !ThrowStrands(w, step)
  {
    var op, rest := w.ops[0], w.ops[1..];
    assert w.ops == [op] + rest;
    KickPendingConcat([op], rest);
    assert [op][0] == op;
    assert KickPending([op]) <==> op.PutNew? || op.DropForeign?;
    CompleteIs(w, step);
    hide Do, KickPending, Consumed, Resumed, Lists;
    ResumedAlive(Consumed(w, step.ok), op, step.ok, step.threw, step.read);
  }

  lemma ResumeKeepsAlive(w: World)
    requires Alive(w) && w.listings != []
    ensures Alive(Do(w, ResumeRead))
  {
    var (mem, issued) := Hydrate(w.mem, w.listings[0].mine, w.listings[0].foreign, w.online);
    KickPendingConcat(w.ops, issued);
    if issued != [] {
      assert issued[0].DropForeign?;
      assert KickPending(issued);
    }
    hide PushMissing, KickPending, PendingIdsOf, IdsOf;
  }

  lemma CallKeepsAlive(w: World, step: Step)
    requires Alive(w) && Enabled(w, step) && (step.Add? || step.CallHydrate?)
    ensures Alive(Do(w, step))
  {
    var issued := if step.Add? then [PutNew(step.tx)] else AskForRows(w.mem, step.session);
    assert Do(w, step).ops == w.ops + issued;
    KickPendingConcat(w.ops, issued);
    assert step.Add? ==> issued[0].PutNew?;
    assert step.Add? ==> KickPending(issued);
    hide KickPending;
  }

  lemma StepKeepsAlive(w: World, step: Step)
    requires Alive(w) && Enabled(w, step) && Shape(w.mem, w.ops)
    ensures Alive(Do(w, step)) <==> !ThrowStrands(w, step)
  {
    if step.Complete? {
      CompleteKeepsAlive(w, step);
    } else if step.ResumeRead? {
      ResumeKeepsAlive(w);
    } else if step.Answer? {
      hide Settling;
    } else if step.Add? || step.CallHydrate? {
      CallKeepsAlive(w, step);
    } else {
      hide Leftovers, PendingIdsOf, Shape;
    }
  }

  /** The loop is always there to be resumed by the request it waits for. */
  lemma RequestMatchesPhase(m: Memory, ops: seq<Op>)
    requires Shape(m, ops) && ops != []
    ensures ops[0].DeleteRow? ==> m.phase.Unpersisting? && m.phase.tx.id == ops[0].id
    ensures ops[0].PutRetry? ==> m.phase.Repersisting? && m.phase.tx == ops[0].tx
  {
    var first := if ops[0].DeleteRow? || ops[0].PutRetry? then [ops[0]] else [];
    assert Settling(ops) == first + Settling(ops[1..]);
    hide Settling;
    if first != [] {
      assert Settling(ops)[0] == ops[0];
    }
  }

  /** While the browser is online an alive queue always has a next step of its own. */
  lemma AliveMoves(w: World)
    requires Alive(w) && Shape(w.mem, w.ops) && w.mem.queue != [] && w.online
    ensures || Enabled(w, Answer(true, false))
            || Enabled(w, WakeUp)
            || Enabled(w, OnlineEvent)
            || Enabled(w, Complete(false, false, Snapshot([], [])))
  {
    if w.ops != [] {
      RequestMatchesPhase(w.mem, w.ops);
    } else if w.mem.phase.Idle? {
      assert !KickPending(w.ops);
    }
  }

  // ----- the queue drains ---------------------------------------------------------------------

  /** Attempts left, over the whole queue. */
  function Budget(queue: seq<Transaction>): nat
    requires forall t | t in queue :: t.retryCount <= 3
  {
    if queue == [] then 0 else 4 - queue[0].retryCount + Budget(queue[1..])
  }

  /** Attempts that succeed, or fail for good, or fail online: all but the ones paused offline. */
  predicate Counts(w: World, step: Step) {
    step.Answer? && (step.success || step.permanent || w.online)
  }

  lemma AnswerSpendsBudget(w: World, step: Step)
    requires Shape(w.mem, w.ops) && Enabled(w, step) && Counts(w, step)
    ensures Shape(Do(w, step).mem, Do(w, step).ops)
    ensures Budget(Do(w, step).mem.queue) < Budget(w.mem.queue)
  {
    StepKeepsShape(w, step);
    hide Settling;
  }

  /** A run in which nothing new is pushed. */
  ghost predicate Quiet(w: World, steps: seq<Step>, w': World)
    decreases steps
  {
    if steps == [] then w == w'
    else
      && Enabled(w, steps[0]) && !steps[0].Add? && !steps[0].ResumeRead? && !steps[0].Reload?
      && Quiet(Do(w, steps[0]), steps[1..], w')
  }

  ghost function Attempts(w: World, steps: seq<Step>, w': World): nat
    requires Quiet(w, steps, w')
    decreases steps
  {
    if steps == [] then 0
    else (if Counts(w, steps[0]) then 1 else 0) + Attempts(Do(w, steps[0]), steps[1..], w')
  }

  /** Without new work the loop makes at most as many counted attempts as the budget allows. */
  lemma {:induction false} QueueDrains(w: World, steps: seq<Step>, w': World)
    requires Shape(w.mem, w.ops) && Quiet(w, steps, w')
    ensures Shape(w'.mem, w'.ops)
    ensures Attempts(w, steps, w') + Budget(w'.mem.queue) <= Budget(w.mem.queue)
    ensures Budget(w'.mem.queue) == 0 <==> w'.mem.queue == []
    decreases steps
  {
    if steps != [] {
      var step := steps[0];
      StepKeepsShape(w, step);
      if Counts(w, step) {
        AnswerSpendsBudget(w, step);
      } else if step.Answer? {
        hide Settling;
        assert Do(w, step).mem.queue == w.mem.queue;
      } else {
        OthersKeepQueue(w, step);
      }
      hide Do, Shape, Enabled;
      QueueDrains(Do(w, step), steps[1..], w');
    }
  }

  // ----- what survives a reload ---------------------------------------------------------------

  /** A stored row leaves the table only once its transaction is settled or hydrated away. */
  ghost predicate Durable(rows: map<Id, Transaction>, ops: seq<Op>, past: History) {
    && (forall id | id in past.stored :: id in rows || id in past.done || id in past.evicted)
    && (forall i | 0 <= i < |ops| && ops[i].DeleteRow? :: ops[i].id in past.done)
    && (forall id | id in rows :: rows[id].id == id)
  }

  lemma WrittenKeepsDurable(rows: map<Id, Transaction>, ops: seq<Op>, past: History)
    requires Durable(rows, ops, past) && ops != []
    ensures Durable(rows, ops[1..], past)
    ensures Durable(Written(rows, ops[0]), ops[1..], Recorded(past, ops[0]))
  {
  }

  lemma {:induction false} LeftoversKeepDurable(
      rows: map<Id, Transaction>, past: History, ops: seq<Op>, applied: seq<bool>)
    requires |applied| <= |ops| && Durable(rows, ops, past)
    ensures var (rows', past') := Leftovers(rows, past, ops, applied); Durable(rows', [], past')
    decreases applied
  {
    if applied != [] {
      WrittenKeepsDurable(rows, ops, past);
      hide Durable, Written, Recorded;
      if applied[0] {
        LeftoversKeepDurable(Written(rows, ops[0]), Recorded(past, ops[0]), ops[1..], applied[1..]);
      } else {
        LeftoversKeepDurable(rows, past, ops[1..], applied[1..]);
      }
    }
  }

  lemma CompleteKeepsDurable(w: World, step: Step)
    requires Durable(w.rows, w.ops, w.past) && step.Complete? && Enabled(w, step)
    ensures Durable(Do(w, step).rows, Do(w, step).ops, Do(w, step).past)
  {
    WrittenKeepsDurable(w.rows, w.ops, w.past);
    CompleteIs(w, step);
    var c := Consumed(w, step.ok);
    assert Durable(c.rows, c.ops, c.past) by { hide Durable; }
    hide Do, Consumed, Lists, Kick, Settle, Announce, Fires;
  }

  lemma StepKeepsDurable(w: World, step: Step)
    requires Durable(w.rows, w.ops, w.past) && Shape(w.mem, w.ops) && Enabled(w, step)
    ensures Durable(Do(w, step).rows, Do(w, step).ops, Do(w, step).past)
  {
    if step.Complete? {
      CompleteKeepsDurable(w, step);
    } else if step.Reload? {
      LeftoversKeepDurable(w.rows, w.past, w.ops, step.applied);
    } else if step.Answer? {
      hide Settling;
    } else {
      hide Lists, PendingIdsOf, PushMissing, Leftovers, Shape;
    }
  }

  /** The transactions that must not be lost. */
  ghost predicate Owed(past: History, id: Id) {
    id in past.stored && id !in past.done && id !in past.evicted
  }

  /** Whenever hydration reads the table, every row owed to the session ends up in the queue. */
  lemma HydratedQueue(
      rows: map<Id, Transaction>, ops: seq<Op>, past: History, session: Session, read: Snapshot,
      queue: seq<Transaction>)
    requires Durable(rows, ops, past) && Lists(rows, session, read)
    ensures var queue' := PushMissing(queue, read.mine);
            && queue <= queue'
            && (forall id | Owed(past, id) && rows[id].session == session :: InQueue(queue', id))
            && (queue == [] ==> ByAge(queue'))
  {
    PushMissingExtends(queue, read.mine);
    if queue == [] {
      assert [] + read.mine == read.mine;
      PushMissingOrdered([], read.mine);
    }
    var queue' := PushMissing(queue, read.mine);
    hide PushMissing, InQueue, ByAge;
    forall id | Owed(past, id) && rows[id].session == session ensures InQueue(queue', id) {
      assert rows[id] in read.mine;
    }
  }

  /**
   * Reload at any moment, hydrate: every stored transaction of the session that was neither
   * settled nor dropped is back in the queue, oldest first, and being sent if the browser is online.
   */
  lemma ReloadLosesNothing(w: World, applied: seq<bool>, session: Session, read: Snapshot)
    requires Durable(w.rows, w.ops, w.past) && Enabled(w, Reload(applied))
    ensures var w1 := Do(Do(w, Reload(applied)), CallHydrate(session));
            && Durable(w1.rows, w1.ops, w1.past)
            && (Lists(w1.rows, session, read) ==>
                  && Enabled(w1, Complete(true, false, read))
                  && var w2 := Do(Do(w1, Complete(true, false, read)), ResumeRead);
                  && (forall id | Owed(w1.past, id) && w1.rows[id].session == session :: InQueue(w2.mem.queue, id))
                  && ByAge(w2.mem.queue)
                  && (w2.mem.queue != [] && w2.online && read.foreign == [] ==>
                     w2.mem.phase == Sending(w2.mem.queue[0])))
  {
    LeftoversKeepDurable(w.rows, w.past, w.ops, applied);
    ReloadThenHydrate(w, applied, session);
    var w1 := Do(Do(w, Reload(applied)), CallHydrate(session));
    hide Do, Leftovers, Lists, InQueue, Owed, ByAge;
    assert Durable(w1.rows, w1.ops, w1.past);
    hide Durable;
    if Lists(w1.rows, session, read) {
      FreshHydration(w1, session, read);
    }
  }

  /** An undisturbed hydration of a new page. */
  lemma FreshHydration(w: World, session: Session, read: Snapshot)
    requires Durable(w.rows, w.ops, w.past) && Lists(w.rows, session, read)
    requires w.mem == FRESH && w.ops == [ReadRows(session)] && w.listings == []
    ensures Enabled(w, Complete(true, false, read))
    ensures var w2 := Do(Do(w, Complete(true, false, read)), ResumeRead);
            && (forall id | Owed(w.past, id) && w.rows[id].session == session :: InQueue(w2.mem.queue, id))
            && ByAge(w2.mem.queue)
            && (w2.mem.queue != [] && w2.online && read.foreign == [] ==> w2.mem.phase == Sending(w2.mem.queue[0]))
  {
    HydratedQueue(w.rows, w.ops, w.past, session, read, []);
    AfterOnlyRead(w, session, read);
    hide Lists, InQueue, PushMissing, ByAge, Do;
  }

  lemma ReloadThenHydrate(w: World, applied: seq<bool>, session: Session)
    requires Enabled(w, Reload(applied))
    ensures var w1 := Do(Do(w, Reload(applied)), CallHydrate(session));
            && w1.mem == FRESH && w1.ops == [ReadRows(session)] && w1.listings == []
            && (w1.rows, w1.past) == Leftovers(w.rows, w.past, w.ops, applied)
  {
    hide Leftovers;
  }

  /** The two steps of an undisturbed hydration. */
  lemma AfterOnlyRead(w: World, session: Session, read: Snapshot)
    requires w.mem == FRESH && w.ops == [ReadRows(session)] && w.listings == [] && Lists(w.rows, session, read)
    ensures var w2 := Do(Do(w, Complete(true, false, read)), ResumeRead);
            && w2.mem.queue == PushMissing([], read.mine)
            && (w2.mem.queue != [] && w2.online && read.foreign == [] ==> w2.mem.phase == Sending(w2.mem.queue[0]))
  {
  }

  lemma ByAgeWithout(a: seq<Transaction>, x: Transaction, b: seq<Transaction>)
    requires ByAge(a + [x] + b)
    ensures ByAge(a + b)
  {
    var all := a + [x] + b;
    forall i, j | 0 <= i < j < |a + b| ensures (a + b)[i].createdAt <= (a + b)[j].createdAt {
      var (i', j') := (if i < |a| then i else i + 1, if j < |a| then j else j + 1);
      assert all[i'] == (a + b)[i] && all[j'] == (a + b)[j];
    }
  }

  /** Hydrating into an empty queue keeps the order of the list. */
  lemma {:induction false} PushMissingOrdered(queue: seq<Transaction>, mine: seq<Transaction>)
    requires ByAge(queue + mine)
    ensures ByAge(PushMissing(queue, mine))
    decreases mine
  {
    if mine == [] {
      assert queue + mine == queue;
    } else {
      var t := mine[0].(retryCount := 0);
      var longer := queue + [t] + mine[1..];
      assert queue + [mine[0]] + mine[1..] == queue + mine;
      assert forall i | 0 <= i < |longer| :: longer[i].createdAt == (queue + mine)[i].createdAt;
      if InQueue(queue, mine[0].id) {
        ByAgeWithout(queue, mine[0], mine[1..]);
        PushMissingOrdered(queue, mine[1..]);
      } else {
        PushMissingOrdered(queue + [t], mine[1..]);
      }
    }
  }

  // ----- callbacks ----------------------------------------------------------------------------

  /** A callback is registered for a fresh id, and gone once it has run. */
  ghost predicate Once(callbacks: map<Id, Callbacks>, past: History) {
    && Distinct(past.fired)
    && (forall id | id in past.fired :: id in past.used && id !in callbacks)
    && (forall id | id in callbacks :: id in past.used)
  }

  lemma {:induction false} LeftoversKeepPast(
      rows: map<Id, Transaction>, past: History, ops: seq<Op>, applied: seq<bool>)
    requires |applied| <= |ops|
    ensures Leftovers(rows, past, ops, applied).1.fired == past.fired
    ensures Leftovers(rows, past, ops, applied).1.used == past.used
    ensures Leftovers(rows, past, ops, applied).1.done == past.done
    decreases applied
  {
    if applied != [] {
      if applied[0] {
        LeftoversKeepPast(Written(rows, ops[0]), Recorded(past, ops[0]), ops[1..], applied[1..]);
      } else {
        LeftoversKeepPast(rows, past, ops[1..], applied[1..]);
      }
    }
  }

  lemma RunOnce(callbacks: map<Id, Callbacks>, past: History, id: Id)
    requires Once(callbacks, past)
    ensures Once(callbacks - {id}, past)
    ensures id in callbacks ==> Once(callbacks - {id}, past.(fired := past.fired + [id]))
  {
  }

  lemma SameOnce(callbacks: map<Id, Callbacks>, past: History, past': History)
    requires Once(callbacks, past) && past'.fired == past.fired && past'.used == past.used
    ensures Once(callbacks, past')
  {
  }

  lemma ResumedKeepsOnce(w: World, op: Op, ok: bool, threw: bool, read: Snapshot)
    requires Once(w.mem.callbacks, w.past) && (op.DeleteRow? ==> w.mem.phase.Unpersisting?)
    ensures var w' := Resumed(w, op, ok, threw, read); Once(w'.mem.callbacks, w'.past)
  {
    if op.DeleteRow? {
      RunOnce(w.mem.callbacks, w.past, w.mem.phase.tx.id);
    }
    hide Once;
  }

  lemma CompleteKeepsOnce(w: World, step: Step)
    requires Once(w.mem.callbacks, w.past) && step.Complete? && Enabled(w, step)
    ensures Once(Do(w, step).mem.callbacks, Do(w, step).past)
  {
    SameOnce(w.mem.callbacks, w.past, Consumed(w, step.ok).past);
    CompleteIs(w, step);
    hide Once, Do, Lists, Consumed, Resumed;
    ResumedKeepsOnce(Consumed(w, step.ok), w.ops[0], step.ok, step.threw, step.read);
  }

  lemma ReloadKeepsOnce(w: World, applied: seq<bool>)
    requires Once(w.mem.callbacks, w.past) && Enabled(w, Reload(applied))
    ensures Once(Do(w, Reload(applied)).mem.callbacks, Do(w, Reload(applied)).past)
  {
    LeftoversKeepPast(w.rows, w.past, w.ops, applied);
    hide Leftovers, Distinct;
  }

  /** No transaction's callback runs twice, over all pages. */
  lemma StepKeepsOnce(w: World, step: Step)
    requires Once(w.mem.callbacks, w.past) && Enabled(w, step)
    ensures Once(Do(w, step).mem.callbacks, Do(w, step).past)
  {
    if step.Reload? {
      ReloadKeepsOnce(w, step.applied);
      hide Do, Once;
    } else if step.Complete? {
      CompleteKeepsOnce(w, step);
    } else if step.Add? || step.Answer? || step.ResumeRead? {
      hide Lists, PendingIdsOf, PushMissing, Written, Leftovers, Resumed, IdsOf, Zeros;
    } else {
      hide Enabled, Do, Distinct;
      OtherSteps(w, step);
    }
  }

  // ----- the pending indicator ----------------------------------------------------------------

  predicate Dropping(ops: seq<Op>) {
    exists i :: 0 <= i < |ops| && ops[i].DropForeign?
  }

  /** The cached set is the truth, except while a hydration waits for foreign rows to be deleted. */
  ghost predicate CacheOk(m: Memory, ops: seq<Op>) {
    m.pendingIds.Some? ==> m.pendingIds.value == PendingIdsOf(m.queue) || (Dropping(ops) && m.queue != [])
  }

  lemma DroppingConcat(a: seq<Op>, b: seq<Op>)
    ensures Dropping(a + b) <==> Dropping(a) || Dropping(b)
  {
    if Dropping(a) {
      var i :| 0 <= i < |a| && a[i].DropForeign?;
      assert (a + b)[i] == a[i];
    }
    if Dropping(b) {
      var i :| 0 <= i < |b| && b[i].DropForeign?;
      assert (a + b)[|a| + i] == b[i];
    }
  }

  lemma AnswerKeepsCache(w: World, success: bool, permanent: bool)
    requires CacheOk(w.mem, w.ops) && Shape(w.mem, w.ops) && w.mem.phase.Sending?
    ensures CacheOk(Answered(w, success, permanent).mem, Answered(w, success, permanent).ops)
  {
    hide Settling, Dropping;
    var issued := if success then Succeed(w.mem).1 else Fail(w.mem, permanent, w.online).1;
    DroppingConcat(w.ops, issued);
    var tx := w.mem.phase.tx;
    var bumped := w.mem.queue[0 := tx.(retryCount := tx.retryCount + 1)];
    assert bumped[1..] == w.mem.queue[1..];
    assert PendingIdsOf(bumped) == PendingIdsOf(w.mem.queue);
  }

  /** Of the resumed code only the end of a hydration touches the cache. */
  lemma ResumedCache(w: World, op: Op, ok: bool, threw: bool, read: Snapshot)
    requires op.DeleteRow? ==> w.mem.phase.Unpersisting?
    ensures var w' := Resumed(w, op, ok, threw, read);
            && w'.mem.queue == w.mem.queue && w'.ops == w.ops
            && w'.mem.pendingIds == if op.DropForeign? && w.mem.queue != [] then None else w.mem.pendingIds
  {
    hide Fires;
  }

  lemma CompleteKeepsCache(w: World, step: Step)
    requires CacheOk(w.mem, w.ops) && step.Complete? && Enabled(w, step)
    ensures CacheOk(Do(w, step).mem, Do(w, step).ops)
  {
    var op, rest := w.ops[0], w.ops[1..];
    DroppingConcat([op], rest);
    assert w.ops == [op] + rest;
    assert Dropping([op]) <==> op.DropForeign?;
    CompleteIs(w, step);
    hide Do, Dropping, PendingIdsOf, Consumed, Resumed, Lists;
    ResumedCache(Consumed(w, step.ok), op, step.ok, step.threw, step.read);
  }

  lemma ResumeKeepsCache(w: World)
    requires CacheOk(w.mem, w.ops) && w.listings != []
    ensures var w' := Do(w, ResumeRead); CacheOk(w'.mem, w'.ops)
  {
    var (mem, issued) := Hydrate(w.mem, w.listings[0].mine, w.listings[0].foreign, w.online);
    assert Do(w, ResumeRead).mem == mem && Do(w, ResumeRead).ops == w.ops + issued by {
      hide CacheOk, Hydrate, IdsOf, Zeros, PushMissing;
    }
    hide Do, CacheOk, Hydrate;
    HydrateKeepsCache(w.mem, w.ops, w.listings[0].mine, w.listings[0].foreign, w.online);
  }

  lemma HydrateKeepsCache(m: Memory, ops: seq<Op>, mine: seq<Transaction>, foreign: seq<Id>, online: bool)
    requires CacheOk(m, ops)
    ensures var (m', issued) := Hydrate(m, mine, foreign, online); CacheOk(m', ops + issued)
  {
    DroppingConcat(ops, [DropForeign(foreign)]);
    assert [DropForeign(foreign)][0].DropForeign?;
    PushMissingExtends(m.queue, mine);
    assert PushMissing(m.queue, mine) == [] ==> m.queue == [];
    hide Dropping, PendingIdsOf, PushMissing, InQueue;
    assert ops + [] == ops;
  }

  lemma StepKeepsCache(w: World, step: Step)
    requires CacheOk(w.mem, w.ops) && Shape(w.mem, w.ops) && Enabled(w, step)
    ensures CacheOk(Do(w, step).mem, Do(w, step).ops)
  {
    if step.Answer? {
      AnswerKeepsCache(w, step.success, step.permanent);
    } else if step.Complete? {
      CompleteKeepsCache(w, step);
    } else if step.ResumeRead? {
      ResumeKeepsCache(w);
    } else if step.CallHydrate? {
      DroppingConcat(w.ops, AskForRows(w.mem, step.session));
      hide Dropping, PendingIdsOf, Shape;
    } else {
      hide Lists, PendingIdsOf, Dropping, Leftovers, Shape;
    }
  }

  /** The cached set, when there is one, is the truth. */
  predicate CacheRight(m: Memory) {
    m.pendingIds.Some? ==> m.pendingIds.value == PendingIdsOf(m.queue)
  }

  /** A row of the listing that is not in memory names an entity that is not cached as pending. */
  predicate NamesUncached(queue: seq<Transaction>, mine: seq<Transaction>, cached: set<Id>) {
    exists i :: 0 <= i < |mine| && !InQueue(queue, mine[i].id) && !(IdsFromVariables(mine[i].variables) <= cached)
  }

  /** The listing names such an entity, and there are foreign rows to drop before the hydration says so. */
  predicate Unannounced(w: World) {
    && w.listings != [] && w.listings[0].foreign != [] && w.mem.pendingIds.Some?
    && NamesUncached(w.mem.queue, w.listings[0].mine, w.mem.pendingIds.value)
  }

  /** No listing names a row twice: the key of the table is the id. */
  ghost predicate ListedOnce(listings: seq<Snapshot>) {
    forall l | l in listings :: Distinct(IdsOf(l.mine))
  }

  lemma StepKeepsListedOnce(w: World, step: Step)
    requires ListedOnce(w.listings) && Enabled(w, step)
    ensures ListedOnce(Do(w, step).listings)
  {
    if step.Complete? {
      CompleteChanges(w, step);
      hide Do;
    } else if step.ResumeRead? {
      ResumeChanges(w);
      hide Do, Distinct, IdsOf, PushMissing;
    } else if step.Add? || step.Answer? || step.Reload? {
      hide Lists, Leftovers, Distinct, IdsOf, PushMissing, Resumed;
    } else {
      OtherSteps(w, step);
      hide Do, Enabled, Distinct, IdsOf;
    }
  }

  lemma {:induction false} PendingIdsAppended(queue: seq<Transaction>, t: Transaction)
    ensures PendingIdsOf(queue + [t]) == PendingIdsOf(queue) + IdsFromVariables(t.variables)
  {
    hide IdsFromVariables;
    if queue == [] {
      assert queue + [t] == [t] && [t][1..] == [];
    } else {
      assert (queue + [t])[1..] == queue[1..] + [t];
      PendingIdsAppended(queue[1..], t);
    }
  }

  lemma InLonger(queue: seq<Transaction>, t: Transaction, id: Id)
    ensures InQueue(queue + [t], id) <==> InQueue(queue, id) || t.id == id
  {
    if InQueue(queue, id) {
      var i :| 0 <= i < |queue| && queue[i].id == id;
      assert (queue + [t])[i].id == id;
    }
    assert (queue + [t])[|queue|] == t;
  }

  /** A hydration makes nothing pending that was not exactly if the missing rows name nothing new. */
  lemma {:induction false} PendingAfterHydration(queue: seq<Transaction>, mine: seq<Transaction>)
    requires Distinct(IdsOf(mine))
    ensures PendingIdsOf(queue) <= PendingIdsOf(PushMissing(queue, mine))
    ensures PendingIdsOf(PushMissing(queue, mine)) == PendingIdsOf(queue)
            <==> !NamesUncached(queue, mine, PendingIdsOf(queue))
    decreases mine
  {
    if mine != [] {
      var t, rest := mine[0].(retryCount := 0), mine[1..];
      OthersDiffer(mine);
      if InQueue(queue, t.id) {
        PendingAfterHydration(queue, rest);
        SkippedNames(queue, mine, PendingIdsOf(queue));
      } else {
        PendingAfterHydration(queue + [t], rest);
        PendingIdsAppended(queue, t);
        PushedNames(queue, mine, PendingIdsOf(queue));
      }
    }
  }

  lemma SkippedNames(queue: seq<Transaction>, mine: seq<Transaction>, cached: set<Id>)
    requires mine != [] && InQueue(queue, mine[0].id)
    ensures NamesUncached(queue, mine, cached) <==> NamesUncached(queue, mine[1..], cached)
  {
  }

  lemma PushedNames(queue: seq<Transaction>, mine: seq<Transaction>, cached: set<Id>)
    requires mine != [] && !InQueue(queue, mine[0].id) && forall i | 0 < i < |mine| :: mine[i].id != mine[0].id
    ensures var t := mine[0].(retryCount := 0);
            NamesUncached(queue, mine, cached) <==>
              || !(IdsFromVariables(t.variables) <= cached)
              || NamesUncached(queue + [t], mine[1..], cached)
  {
    var t, rest := mine[0].(retryCount := 0), mine[1..];
    hide InQueue, IdsFromVariables;
    forall i | 0 <= i < |rest|
        ensures rest[i] == mine[i + 1] && InQueue(queue + [t], rest[i].id) == InQueue(queue, rest[i].id) {
      InLonger(queue, t, rest[i].id);
    }
    if i :| 0 <= i < |mine| && !InQueue(queue, mine[i].id) && !(IdsFromVariables(mine[i].variables) <= cached) {
      assert i == 0 || rest[i - 1] == mine[i];
    }
  }

  lemma OthersDiffer(mine: seq<Transaction>)
    requires mine != [] && Distinct(IdsOf(mine))
    ensures Distinct(IdsOf(mine[1..])) && forall i | 0 < i < |mine| :: mine[i].id != mine[0].id
  {
    var ids := IdsOf(mine);
    assert IdsOf(mine[1..]) == ids[1..];
    assert forall i | 0 <= i < |mine| :: ids[i] == mine[i].id;
  }

  lemma AnswerKeepsRight(w: World, success: bool, permanent: bool)
    requires CacheRight(w.mem) && w.mem.phase.Sending? && w.mem.queue != [] && w.mem.queue[0] == w.mem.phase.tx
    ensures CacheRight(Answered(w, success, permanent).mem)
  {
    var tx := w.mem.phase.tx;
    var bumped := w.mem.queue[0 := tx.(retryCount := tx.retryCount + 1)];
    assert bumped[1..] == w.mem.queue[1..];
    assert PendingIdsOf(bumped) == PendingIdsOf(w.mem.queue);
  }

  lemma ResumeCacheRightExactly(w: World)
    requires CacheRight(w.mem) && w.listings != [] && ListedOnce(w.listings)
    ensures CacheRight(Do(w, ResumeRead).mem) <==> !Unannounced(w)
  {
    var mine, foreign := w.listings[0].mine, w.listings[0].foreign;
    assert Do(w, ResumeRead).mem == Hydrate(w.mem, mine, foreign, w.online).0;
    assert Distinct(IdsOf(mine));
    hide Do, PushMissing, PendingIdsOf, NamesUncached, Distinct, IdsOf;
    PendingAfterHydration(w.mem.queue, mine);
    if PushMissing(w.mem.queue, mine) == [] {
      assert w.mem.queue == [] by { PushMissingExtends(w.mem.queue, mine); }
    }
  }

  /** A right cache goes wrong exactly there. */
  lemma StepCacheRightExactly(w: World, step: Step)
    requires CacheRight(w.mem) && Shape(w.mem, w.ops) && ListedOnce(w.listings) && Enabled(w, step)
    ensures CacheRight(Do(w, step).mem) <==> !(step.ResumeRead? && Unannounced(w))
  {
    if step.Answer? {
      AnswerKeepsRight(w, step.success, step.permanent);
    } else if step.Complete? {
      CompleteIs(w, step);
      ResumedCache(Consumed(w, step.ok), w.ops[0], step.ok, step.threw, step.read);
      hide Do, PendingIdsOf, Consumed, Resumed, Lists, Shape;
    } else if step.ResumeRead? {
      ResumeCacheRightExactly(w);
    } else {
      hide Lists, PendingIdsOf, Leftovers, Shape, PushMissing, Answered, Resumed, IdsOf, Zeros;
    }
  }

  // ----- runs ---------------------------------------------------------------------------------

  ghost predicate Inv(w: World) {
    && Shape(w.mem, w.ops)
    && Fifo(w.mem.queue, w.page)
    && Durable(w.rows, w.ops, w.past)
    && Once(w.mem.callbacks, w.past)
    && CacheOk(w.mem, w.ops)
    && ListedOnce(w.listings)
  }

  ghost predicate Init(w: World) {
    w == World(FRESH, map[], [], [], w.online, false, Page([], [], [], []), History({}, {}, {}, {}, []))
  }

  ghost predicate Reaches(w: World, steps: seq<Step>, w': World)
    decreases steps
  {
    if steps == [] then w == w' else Enabled(w, steps[0]) && Reaches(Do(w, steps[0]), steps[1..], w')
  }

  lemma StepKeepsInv(w: World, step: Step)
    requires Inv(w) && Enabled(w, step)
    ensures Inv(Do(w, step))
  {
    hide Shape, Fifo, Durable, Once, CacheOk, ListedOnce, Do, Enabled;
    StepKeepsShape(w, step);
    StepKeepsFifo(w, step);
    StepKeepsDurable(w, step);
    StepKeepsOnce(w, step);
    StepKeepsCache(w, step);
    StepKeepsListedOnce(w, step);
  }

  /** In every run, across reloads: order, the retry bound, durability, single callbacks. */
  lemma {:induction false} RunKeepsInv(w: World, steps: seq<Step>, w': World)
    requires Inv(w) && Reaches(w, steps, w')
    ensures Inv(w')
    decreases steps
  {
    hide Inv, Do, Enabled;
    if steps != [] {
      StepKeepsInv(w, steps[0]);
      RunKeepsInv(Do(w, steps[0]), steps[1..], w');
    }
  }

  ghost predicate AlwaysRight(w: World, steps: seq<Step>)
    decreases steps
  {
    CacheRight(w.mem) && (steps != [] ==> Enabled(w, steps[0]) && AlwaysRight(Do(w, steps[0]), steps[1..]))
  }

  ghost predicate AlwaysAnnounced(w: World, steps: seq<Step>)
    decreases steps
  {
    steps != [] ==>
      && Enabled(w, steps[0]) && !(steps[0].ResumeRead? && Unannounced(w))
      && AlwaysAnnounced(Do(w, steps[0]), steps[1..])
  }

  /** Over a run the indicator tells the truth throughout exactly if no hydration pushes such a row unannounced. */
  lemma {:induction false} IndicatorRightExactly(w: World, steps: seq<Step>, w': World)
    requires Inv(w) && CacheRight(w.mem) && Reaches(w, steps, w')
    ensures AlwaysRight(w, steps) <==> AlwaysAnnounced(w, steps)
    decreases steps
  {
    if steps != [] {
      var next := Do(w, steps[0]);
      InvParts(w);
      hide Inv, CacheRight, Do, Enabled, Unannounced, Shape, ListedOnce;
      StepKeepsInv(w, steps[0]);
      StepCacheRightExactly(w, steps[0]);
      if CacheRight(next.mem) {
        IndicatorRightExactly(next, steps[1..], w');
      }
    }
  }

  lemma InitInv(w: World)
    requires Init(w)
    ensures Inv(w) && Alive(w) && Known(w) && Distinct(w.page.pushed)
  {
  }

  /** No error callback throws when that would strand the queue. */
  ghost predicate NeverStranded(w: World, steps: seq<Step>)
    decreases steps
  {
    steps == [] || (Enabled(w, steps[0]) && !ThrowStrands(w, steps[0]) && NeverStranded(Do(w, steps[0]), steps[1..]))
  }

  lemma {:induction false} NeverStalls(w: World, steps: seq<Step>, w': World)
    requires Inv(w) && Alive(w) && Reaches(w, steps, w') && NeverStranded(w, steps)
    ensures Alive(w')
    decreases steps
  {
    hide Inv, Alive, Do, Enabled, ThrowStrands;
    if steps != [] {
      StepKeepsInv(w, steps[0]);
      assert Shape(w.mem, w.ops) by { InvShape(w); }
      StepKeepsAlive(w, steps[0]);
      NeverStalls(Do(w, steps[0]), steps[1..], w');
    }
  }

  lemma InvShape(w: World)
    requires Inv(w)
    ensures Shape(w.mem, w.ops)
  {
  }

  // ----- distinct ids -------------------------------------------------------------------------

  /** Every id on the disk or on its way there has been used. */
  ghost predicate UsedIds(rows: map<Id, Transaction>, ops: seq<Op>, used: set<Id>) {
    && (forall id | id in rows :: id in used)
    && (forall i | 0 <= i < |ops| && (ops[i].PutNew? || ops[i].PutRetry?) :: ops[i].tx.id in used)
  }

  /** No id on the page, on the disk or in a listing is one that a later enqueue could draw. */
  ghost predicate Known(w: World) {
    && (forall id | id in w.page.pushed :: id in w.past.used)
    && UsedIds(w.rows, w.ops, w.past.used)
    && (forall l, t | l in w.listings && t in l.mine :: t.id in w.past.used)
  }

  lemma WrittenKeepsUsed(rows: map<Id, Transaction>, ops: seq<Op>, used: set<Id>)
    requires UsedIds(rows, ops, used) && ops != []
    ensures UsedIds(rows, ops[1..], used) && UsedIds(Written(rows, ops[0]), ops[1..], used)
  {
  }

  lemma {:induction false} LeftoversKeepUsed(
      rows: map<Id, Transaction>, past: History, ops: seq<Op>, applied: seq<bool>)
    requires |applied| <= |ops| && UsedIds(rows, ops, past.used)
    ensures UsedIds(Leftovers(rows, past, ops, applied).0, [], past.used)
    decreases applied
  {
    if applied != [] {
      WrittenKeepsUsed(rows, ops, past.used);
      hide UsedIds;
      if applied[0] {
        LeftoversKeepUsed(Written(rows, ops[0]), Recorded(past, ops[0]), ops[1..], applied[1..]);
      } else {
        LeftoversKeepUsed(rows, past, ops[1..], applied[1..]);
      }
    }
  }

  lemma ListedRows(rows: map<Id, Transaction>, session: Session, read: Snapshot)
    requires Lists(rows, session, read)
    ensures forall t | t in read.mine :: t.id in rows
  {
  }

  lemma ResumedChanges(w: World, op: Op, ok: bool, threw: bool, read: Snapshot)
    requires op.DeleteRow? ==> w.mem.phase.Unpersisting?
    ensures var w' := Resumed(w, op, ok, threw, read);
            && w'.page == w.page && w'.past.used == w.past.used && w'.mem.hydrated == w.mem.hydrated
            && w'.ops == w.ops && w'.rows == w.rows
            && w'.listings == (if op.ReadRows? && ok then w.listings + [read] else w.listings)
  {
  }

  /** What a completed request leaves alone. */
  lemma CompleteChanges(w: World, step: Step)
    requires step.Complete? && Enabled(w, step)
    ensures var w' := Do(w, step);
            && w'.page == w.page && w'.past.used == w.past.used && w'.mem.hydrated == w.mem.hydrated
            && w'.ops == w.ops[1..]
            && w'.rows == (if step.ok then Written(w.rows, w.ops[0]) else w.rows)
            && w'.listings == (if w.ops[0].ReadRows? && step.ok then w.listings + [step.read] else w.listings)
  {
    CompleteIs(w, step);
    assert Consumed(w, step.ok).past.used == w.past.used;
    hide Do, Lists, Written, Recorded, Resumed;
    ResumedChanges(Consumed(w, step.ok), w.ops[0], step.ok, step.threw, step.read);
  }

  lemma CompleteKeepsKnown(w: World, step: Step)
    requires Known(w) && step.Complete? && Enabled(w, step)
    ensures Known(Do(w, step))
  {
    var op := w.ops[0];
    WrittenKeepsUsed(w.rows, w.ops, w.past.used);
    if op.ReadRows? && step.ok {
      ListedRows(w.rows, op.session, step.read);
    }
    CompleteChanges(w, step);
    hide Do, Lists, Written, Enabled;
  }

  /** The ids a hydration adds: from its list, none twice. */
  lemma HydratedIds(queue: seq<Transaction>, mine: seq<Transaction>) returns (added: seq<Id>)
    ensures |queue| <= |PushMissing(queue, mine)| && added == IdsOf(PushMissing(queue, mine)[|queue|..])
    ensures Distinct(added) && forall id | id in added :: id in IdsOf(mine)
  {
    PushMissingExtends(queue, mine);
    var r := PushMissing(queue, mine);
    added := IdsOf(r[|queue|..]);
    forall i | 0 <= i < |added| ensures added[i] in IdsOf(mine) {
      var k :| 0 <= k < |mine| && mine[k].id == r[|queue| + i].id;
      assert IdsOf(mine)[k] == added[i];
    }
  }

  lemma ResumeChanges(w: World)
    requires w.listings != []
    ensures var w' := Do(w, ResumeRead);
            var queue := PushMissing(w.mem.queue, w.listings[0].mine);
            && |w.mem.queue| <= |queue|
            && w'.rows == w.rows && w'.past == w.past && w'.mem.hydrated && w'.listings == w.listings[1..]
            && w'.page.pushed == w.page.pushed + IdsOf(queue[|w.mem.queue|..])
            && (w'.ops == w.ops || (exists ids :: w'.ops == w.ops + [DropForeign(ids)]))
  {
    PushMissingExtends(w.mem.queue, w.listings[0].mine);
    hide PushMissing, IdsOf, InQueue, PendingIdsOf;
    assert w.ops + [] == w.ops;
  }

  lemma DistinctConcat<T>(a: seq<T>, b: seq<T>)
    requires Distinct(a) && Distinct(b) && forall x | x in b :: x !in a
    ensures Distinct(a + b)
  {
    forall i, j | 0 <= i < j < |a + b| ensures (a + b)[i] != (a + b)[j] {
      if i < |a| <= j {
        assert b[j - |a|] in b && a[i] in a;
      }
    }
  }

  lemma ResumeKeepsKnown(w: World)
    requires Known(w) && w.listings != []
    ensures Known(Do(w, ResumeRead))
  {
    var mine := w.listings[0].mine;
    var added := HydratedIds(w.mem.queue, mine);
    ResumeChanges(w);
    hide PushMissing, Do;
    forall id | id in added ensures id in w.past.used {
      assert id in IdsOf(mine);
      var i :| 0 <= i < |mine| && mine[i].id == id;
      assert w.listings[0] in w.listings && mine[i] in mine;
    }
  }

  lemma AnswerKeepsKnown(w: World, success: bool, permanent: bool)
    requires Known(w) && Shape(w.mem, w.ops) && Fifo(w.mem.queue, w.page) && w.mem.phase.Sending?
    ensures Known(Answered(w, success, permanent))
  {
    assert w.page.pushed[|w.page.settled|] == w.mem.queue[0].id;
    hide Settling, Fifo, IdsOf;
  }

  lemma ReloadKeepsKnown(w: World, applied: seq<bool>)
    requires Known(w) && Enabled(w, Reload(applied))
    ensures Known(Do(w, Reload(applied)))
  {
    LeftoversKeepUsed(w.rows, w.past, w.ops, applied);
    LeftoversKeepPast(w.rows, w.past, w.ops, applied);
    hide Leftovers;
  }

  lemma AddKeepsKnown(w: World, step: Step)
    requires Known(w) && step.Add? && Enabled(w, step)
    ensures Known(Do(w, step))
  {
    hide IdsOf;
  }

  /** Sessions, timers, connectivity and the indicator touch neither disk nor page. */
  lemma OtherSteps(w: World, step: Step)
    requires Enabled(w, step) && !step.Add? && !step.Complete? && !step.ResumeRead? && !step.Answer? && !step.Reload?
    ensures var w' := Do(w, step);
            && w'.rows == w.rows && w'.listings == w.listings && w'.page == w.page && w'.past == w.past
            && w'.mem.queue == w.mem.queue && w'.mem.callbacks.Keys <= w.mem.callbacks.Keys
            && w'.ops == w.ops + if step.CallHydrate? then AskForRows(w.mem, step.session) else []
  {
    assert w.ops + [] == w.ops;
    hide PendingIdsOf, Lists, Leftovers, PushMissing, Hydrate, Answered, Enqueue, Resumed, IdsOf, Zeros;
  }

  lemma StepKeepsKnown(w: World, step: Step)
    requires Known(w) && Shape(w.mem, w.ops) && Fifo(w.mem.queue, w.page) && Enabled(w, step)
    ensures Known(Do(w, step))
  {
    if step.Complete? {
      CompleteKeepsKnown(w, step);
    } else if step.ResumeRead? {
      ResumeKeepsKnown(w);
    } else if step.Answer? {
      AnswerKeepsKnown(w, step.success, step.permanent);
    } else if step.Reload? {
      ReloadKeepsKnown(w, step.applied);
    } else if step.Add? {
      AddKeepsKnown(w, step);
    } else {
      OtherSteps(w, step);
      hide Do, Enabled, Shape, Fifo, IdsOf;
    }
  }

  /** A row the oldest hydration has read settled in the meantime and is no longer in memory. */
  ghost predicate StaleListing(w: World) {
    w.listings != [] && exists t :: t in w.listings[0].mine && t.id in w.page.settled && !InQueue(w.mem.queue, t.id)
  }

  lemma QueuedIds(queue: seq<Transaction>, id: Id)
    ensures id in IdsOf(queue) <==> InQueue(queue, id)
  {
    if id in IdsOf(queue) {
      var i :| 0 <= i < |queue| && IdsOf(queue)[i] == id;
    }
    if InQueue(queue, id) {
      var i :| 0 <= i < |queue| && queue[i].id == id;
      assert IdsOf(queue)[i] == id;
    }
  }

  /** A row that hydration lists and memory lacks is among the ids it adds. */
  lemma MissingIsAdded(queue: seq<Transaction>, mine: seq<Transaction>, t: Transaction)
    requires t in mine && !InQueue(queue, t.id)
    ensures |queue| <= |PushMissing(queue, mine)| && t.id in IdsOf(PushMissing(queue, mine)[|queue|..])
  {
    PushMissingExtends(queue, mine);
    var r := PushMissing(queue, mine);
    forall k | 0 <= k < |queue| ensures r[k].id != t.id {
      assert r[k] == queue[k];
    }
    var i :| 0 <= i < |r| && r[i].id == t.id;
    assert IdsOf(r[|queue|..])[i - |queue|] == t.id;
  }

  lemma StaleIsRepeated(w: World, t: Transaction)
    requires Fifo(w.mem.queue, w.page) && w.listings != []
    requires t in w.listings[0].mine && t.id in w.page.settled && !InQueue(w.mem.queue, t.id)
    ensures !Distinct(Do(w, ResumeRead).page.pushed)
  {
    MissingIsAdded(w.mem.queue, w.listings[0].mine, t);
    ResumeChanges(w);
    var added := IdsOf(PushMissing(w.mem.queue, w.listings[0].mine)[|w.mem.queue|..]);
    var pushed := w.page.pushed + added;
    var i :| 0 <= i < |w.page.settled| && w.page.settled[i] == t.id;
    var j :| 0 <= j < |added| && added[j] == t.id;
    hide PushMissing, Do, IdsOf;
    assert pushed[i] == t.id && pushed[|w.page.pushed| + j] == t.id;
  }

  /** Resuming a hydration pushes no id a second time exactly when its listing is not stale. */
  lemma ResumeDistinctExactly(w: World)
    requires Fifo(w.mem.queue, w.page) && Distinct(w.page.pushed) && w.listings != []
    ensures Distinct(Do(w, ResumeRead).page.pushed) <==> !StaleListing(w)
  {
    var (queue, mine) := (w.mem.queue, w.listings[0].mine);
    if StaleListing(w) {
      var t :| t in mine && t.id in w.page.settled && !InQueue(queue, t.id);
      StaleIsRepeated(w, t);
    } else {
      var added := HydratedIds(queue, mine);
      AddedAreMissing(queue, mine);
      ResumeChanges(w);
      assert w.page.pushed == w.page.settled + IdsOf(queue);
      forall id | id in added ensures id !in w.page.pushed {
        QueuedIds(queue, id);
        assert id in IdsOf(mine);
        var i :| 0 <= i < |mine| && mine[i].id == id;
        assert mine[i] in mine;
      }
      hide PushMissing, IdsOf, Do, InQueue;
      DistinctConcat(w.page.pushed, added);
    }
  }

  lemma AddedAreMissing(queue: seq<Transaction>, mine: seq<Transaction>)
    ensures |queue| <= |PushMissing(queue, mine)|
    ensures forall id | id in IdsOf(PushMissing(queue, mine)[|queue|..]) :: !InQueue(queue, id)
  {
    PushMissingExtends(queue, mine);
    var r := PushMissing(queue, mine);
    forall id | id in IdsOf(r[|queue|..]) ensures !InQueue(queue, id) {
      var i :| 0 <= i < |r[|queue|..]| && r[|queue|..][i].id == id;
      assert r[|queue| + i].id == id;
    }
  }

  lemma StepDistinctExactly(w: World, step: Step)
    requires Known(w) && Fifo(w.mem.queue, w.page) && Distinct(w.page.pushed) && Enabled(w, step)
    ensures Distinct(Do(w, step).page.pushed) <==> !(step.ResumeRead? && StaleListing(w))
  {
    if step.ResumeRead? {
      ResumeDistinctExactly(w);
    } else if step.Complete? {
      CompleteChanges(w, step);
    } else if step.Add? || step.Answer? || step.Reload? {
      hide Lists, Shape, Fifo, UsedIds, Leftovers, IdsOf;
    } else {
      OtherSteps(w, step);
    }
  }

  /** Along the run no id is pushed a second time on a page. */
  ghost predicate PushesOnce(w: World, steps: seq<Step>)
    decreases steps
  {
    Distinct(w.page.pushed) && (steps != [] ==> Enabled(w, steps[0]) && PushesOnce(Do(w, steps[0]), steps[1..]))
  }

  /** Along the run no hydration resumes with a stale listing. */
  ghost predicate NeverStale(w: World, steps: seq<Step>)
    decreases steps
  {
    steps != [] ==>
      Enabled(w, steps[0]) && !(steps[0].ResumeRead? && StaleListing(w)) && NeverStale(Do(w, steps[0]), steps[1..])
  }

  lemma InvParts(w: World)
    requires Inv(w)
    ensures Shape(w.mem, w.ops) && Fifo(w.mem.queue, w.page) && ListedOnce(w.listings)
  {
  }

  lemma SettledArePushed(w: World)
    requires Fifo(w.mem.queue, w.page) && Distinct(w.page.pushed)
    ensures Distinct(w.page.settled)
  {
    assert forall i | 0 <= i < |w.page.settled| :: w.page.settled[i] == w.page.pushed[i];
  }

  /**
   * In any run, whenever hydration is called and however often, no id is pushed twice on a page
   * exactly when no hydration resumes with a stale listing; and then none settles twice.
   */
  lemma {:induction false} SettledOnce(w: World, steps: seq<Step>, w': World)
    requires Inv(w) && Known(w) && Distinct(w.page.pushed) && Reaches(w, steps, w')
    ensures PushesOnce(w, steps) <==> NeverStale(w, steps)
    ensures NeverStale(w, steps) ==> Distinct(w'.page.pushed) && Distinct(w'.page.settled)
    decreases steps
  {
    InvParts(w);
    if steps == [] {
      SettledArePushed(w);
    } else {
      hide Inv, Known, Do, Enabled, Distinct, StaleListing, Shape, Fifo;
      var next := Do(w, steps[0]);
      StepKeepsInv(w, steps[0]);
      StepKeepsKnown(w, steps[0]);
      StepDistinctExactly(w, steps[0]);
      if Distinct(next.page.pushed) {
        SettledOnce(next, steps[1..], w');
      }
    }
  }

  // ----- witnesses ----------------------------------------------------------------------------

  const NOTHING := Snapshot([], [])

  /** One transaction is being sent, and a hydration that has read its row is about to resume. */
  function MidFlight(s: Session, tx: Transaction): World {
    World(FRESH.(queue := [tx], phase := Sending(tx), listener := true, session := Some(s)), map[tx.id := tx], [],
          [Snapshot([tx], [])], true, false, Page([tx.id], [], [], [0]), History({tx.id}, {tx.id}, {}, {}, []))
  }

  /** The page opens its session and the user makes a change. */
  lemma MidFlightIsSent(s: Session, tx: Transaction, w: World)
    requires tx.retryCount == 0 && tx.session == s && Init(w) && w.online
    ensures Reaches(w, [OpenSession(s), Add(tx, None), Complete(true, false, NOTHING)],
            MidFlight(s, tx).(listings := []))
  {
    hide Leftovers, PendingIdsOf, Lists;
    var steps := [OpenSession(s), Add(tx, None), Complete(true, false, NOTHING)];
    var w0 := Do(w, steps[0]);
    assert Enabled(w0, steps[1]);
    var w1 := Do(w0, steps[1]);
    assert w1.mem == FRESH.(queue := [tx], session := Some(s)) && w1.ops == [PutNew(tx)];
    var w2 := Do(w1, steps[2]);
    assert w2 == MidFlight(s, tx).(listings := []);
    hide Do, Enabled;
    Backwards(w1, steps[2..], w2);
    Backwards(w0, steps[1..], w2);
    Backwards(w, steps, w2);
  }

  /** Start-up then hydrates that session. */
  lemma MidFlightIsReached(s: Session, tx: Transaction)
    requires tx.session == s
    ensures Reaches(MidFlight(s, tx).(listings := []), [CallHydrate(s), Complete(true, false, Snapshot([tx], []))],
            MidFlight(s, tx))
  {
    hide Leftovers, PendingIdsOf;
    var steps := [CallHydrate(s), Complete(true, false, Snapshot([tx], []))];
    var w := MidFlight(s, tx).(listings := []);
    var w1 := Do(w, steps[0]);
    assert w1 == w.(ops := [ReadRows(s)]);
    assert Lists(w1.rows, s, Snapshot([tx], []));
    assert Enabled(w1, steps[1]) && Do(w1, steps[1]) == MidFlight(s, tx);
    hide Do, Enabled;
    Backwards(w1, steps[1..], MidFlight(s, tx));
    Backwards(w, steps, MidFlight(s, tx));
  }

  /** The answer has come: the listing is stale now. */
  function AnsweredMidFlight(s: Session, tx: Transaction): World {
    MidFlight(s, tx).(
      mem := FRESH.(phase := Unpersisting(tx, true), listener := true, session := Some(s)),
      ops := [DeleteRow(tx.id)],
      page := Page([tx.id], [tx.id], [Accepted], [0]),
      past := History({tx.id}, {tx.id}, {tx.id}, {}, []))
  }

  lemma AnswerMakesStale(s: Session, tx: Transaction)
    ensures var w := MidFlight(s, tx);
            && Enabled(w, Answer(true, false)) && Do(w, Answer(true, false)) == AnsweredMidFlight(s, tx)
            && StaleListing(AnsweredMidFlight(s, tx))
  {
    var w1 := AnsweredMidFlight(s, tx);
    assert tx in w1.listings[0].mine && tx.id in w1.page.settled && !InQueue(w1.mem.queue, tx.id);
  }

  /**
   * Hydrating with a send in flight resumes with a stale listing: the row was read before the answer
   * came, and it has left memory when the rows are compared. The transaction, settled already, is
   * sent a second time, with no row behind it.
   */
  lemma HydratingMidFlightSendsTwice(s: Session, tx: Transaction)
    requires tx.retryCount == 0
    ensures exists w' ::
            Reaches(MidFlight(s, tx), [Answer(true, false), ResumeRead, Complete(true, false, NOTHING)], w')
                         && w'.mem.phase == Sending(tx) && w'.page.settled == [tx.id]
                         && w'.past.done == {tx.id} && w'.rows == map[]
  {
    var (w, w1) := (MidFlight(s, tx), AnsweredMidFlight(s, tx));
    var steps := [Answer(true, false), ResumeRead, Complete(true, false, NOTHING)];
    AnswerMakesStale(s, tx);
    PushedAlone(tx);
    hide PushMissing, StaleListing, PendingIdsOf, IdsOf, Lists, Leftovers;
    var w2 := Do(w1, steps[1]);
    assert w2.mem == w1.mem.(queue := [tx], hydrated := true) && w2.ops == [DeleteRow(tx.id)];
    assert Enabled(w2, steps[2]);
    var w3 := Do(w2, steps[2]);
    assert w3.mem.phase == Sending(tx) && w3.rows == map[];
    hide Do, Enabled;
    Backwards(w2, steps[2..], w3);
    Backwards(w1, steps[1..], w3);
    Backwards(w, steps, w3);
  }

  /** A transaction with an error callback is being sent, its row stored. */
  function FirstSent(first: Transaction): World {
    World(FRESH.(queue := [first], callbacks := map[first.id := Callbacks(false, true)], phase := Sending(first),
        listener := true),
          map[first.id := first], [], [], true, false, Page([first.id], [], [], [0]),
          History({first.id}, {first.id}, {}, {}, []))
  }

  lemma FirstSentIsReached(first: Transaction, w: World)
    requires first.retryCount == 0 && first.session == NO_SESSION && Init(w) && w.online
    ensures Reaches(w, [Add(first, Some(Callbacks(false, true))), Complete(true, false, NOTHING)], FirstSent(first))
  {
    var steps := [Add(first, Some(Callbacks(false, true))), Complete(true, false, NOTHING)];
    assert Enabled(w, steps[0]);
    var w1 := Do(w, steps[0]);
    assert w1.mem == FRESH.(queue := [first], callbacks := map[first.id := Callbacks(false, true)])
           && w1.ops == [PutNew(first)];
    assert Do(w1, steps[1]) == FirstSent(first);
    hide Do, Enabled;
    Backwards(w1, steps[1..], FirstSent(first));
    Backwards(w, steps, FirstSent(first));
  }

  /** The head was refused for good and its row is being deleted; another transaction waits behind it. */
  function Refused(first: Transaction, second: Transaction): World {
    World(FRESH.(queue := [second], callbacks := map[first.id := Callbacks(false, true)],
        phase := Unpersisting(first, false),
                 listener := true),
          map[first.id := first, second.id := second], [DeleteRow(first.id)], [], true, false,
          Page([first.id, second.id], [first.id], [Rejected], [1, 0]),
          History({first.id, second.id}, {first.id, second.id}, {first.id}, {}, []))
  }

  lemma RefusedIsReached(first: Transaction, second: Transaction)
    requires first.id != second.id && second.retryCount == 0 && second.session == NO_SESSION
    ensures Reaches(FirstSent(first), [Add(second, None), Complete(true, false, NOTHING), Answer(false, true)],
            Refused(first, second))
  {
    hide Lists, Leftovers, PendingIdsOf;
    var steps := [Add(second, None), Complete(true, false, NOTHING), Answer(false, true)];
    var w := FirstSent(first);
    assert Enabled(w, steps[0]);
    var w1 := Do(w, steps[0]);
    assert w1.mem == w.mem.(queue := [first, second]) && w1.ops == [PutNew(second)];
    var w2 := Do(w1, steps[1]);
    assert w2.mem == w1.mem && w2.ops == [];
    assert Do(w2, steps[2]) == Refused(first, second);
    hide Do, Enabled;
    Backwards(w2, steps[2..], Refused(first, second));
    Backwards(w1, steps[1..], Refused(first, second));
    Backwards(w, steps, Refused(first, second));
  }

  /** If its error callback throws, the second transaction waits for nothing. */
  lemma ThrowingCallbackStrands(first: Transaction, second: Transaction)
    ensures var (w, step) := (Refused(first, second), Complete(true, true, NOTHING));
            && Enabled(w, step) && ThrowStrands(w, step)
            && !Alive(Do(w, step)) && Do(w, step).mem.queue == [second]
  {
    var w := Refused(first, second);
    assert Do(w, Complete(true, true, NOTHING)).ops == [];
  }

  /** A row of the session and a row of another one, both left by an earlier page. */
  ghost predicate LeftBehind(mine: Transaction, other: Transaction, w: World) {
    w == World(FRESH, map[other.id := other, mine.id := mine], [], [], false, false, Page([], [], [], []),
               History({other.id, mine.id}, {other.id, mine.id}, {}, {}, []))
  }

  /** A page that is offline, with one transaction enqueued and stored. */
  function StoredOffline(other: Transaction): World {
    World(FRESH.(queue := [other], listener := true, session := Some(other.session)), map[other.id := other], [], [],
        false, false,
          Page([other.id], [], [], [0]), History({other.id}, {other.id}, {}, {}, []))
  }

  lemma StoredOfflineIsReached(other: Transaction, w: World)
    requires other.retryCount == 0 && Init(w) && w.online
    ensures Reaches(w, [GoOffline, OpenSession(other.session), Add(other, None), Complete(true, false, NOTHING)],
            StoredOffline(other))
  {
    var steps := [GoOffline, OpenSession(other.session), Add(other, None), Complete(true, false, NOTHING)];
    var w1 := Do(w, steps[0]);
    var w2 := Do(w1, steps[1]);
    assert Enabled(w2, steps[2]);
    var w3 := Do(w2, steps[2]);
    assert w3.mem == FRESH.(session := Some(other.session), queue := [other]) && w3.ops == [PutNew(other)];
    var w4 := Do(w3, steps[3]);
    assert w4 == StoredOffline(other);
    hide Do, Enabled;
    Backwards(w3, steps[3..], w4);
    Backwards(w2, steps[2..], w4);
    Backwards(w1, steps[1..], w4);
    Backwards(w, steps, w4);
  }

  /** Another user signs in on the same page, makes a change and reloads. */
  lemma LeftBehindIsReached(mine: Transaction, other: Transaction, w: World)
    requires mine.id != other.id && mine.retryCount == 0 && LeftBehind(mine, other, w)
    ensures Reaches(StoredOffline(other),
            [OpenSession(mine.session), Add(mine, None), Complete(true, false, NOTHING), Reload([])], w)
  {
    var steps := [OpenSession(mine.session), Add(mine, None), Complete(true, false, NOTHING), Reload([])];
    var w0 := StoredOffline(other);
    var w1 := Do(w0, steps[0]);
    assert Enabled(w1, steps[1]);
    var w2 := Do(w1, steps[1]);
    assert w2.mem.queue == [other, mine] && w2.mem.phase == Idle && w2.ops == [PutNew(mine)];
    var w3 := Do(w2, steps[2]);
    assert w3.rows == map[other.id := other, mine.id := mine] && w3.ops == [];
    assert Do(w3, steps[3]) == w;
    hide Do, Enabled;
    Backwards(w3, steps[3..], w);
    Backwards(w2, steps[2..], w);
    Backwards(w1, steps[1..], w);
    Backwards(w0, steps, w);
  }

  /** The window of the cache is real: a hydrated row shows no indicator until the foreign row is gone. */
  lemma IndicatorLagsHydration(mine: Transaction, other: Transaction, w: World)
    requires mine.id != other.id && mine.session != other.session && mine.retryCount == 0
    requires mine.variables.id.Some? && LeftBehind(mine, other, w)
    ensures var s := mine.session;
            exists w' :: Reaches(w,
                [OpenSession(s), AskPending, CallHydrate(s), Complete(true, false, Snapshot([mine], [other.id])),
                                     ResumeRead], w')
                         && w'.mem.pendingIds == Some({}) && mine.variables.id.value in PendingIdsOf(w'.mem.queue)
                         && w'.ops == [DropForeign([other.id])]
  {
    var s, read := mine.session, Snapshot([mine], [other.id]);
    var steps := [OpenSession(s), AskPending, CallHydrate(s), Complete(true, false, read), ResumeRead];
    var w1 := Do(w, steps[0]);
    var w2 := Do(w1, steps[1]);
    assert w2 == w.(mem := FRESH.(session := Some(s), pendingIds := Some({})));
    var w3 := Do(w2, steps[2]);
    assert w3 == w2.(ops := [ReadRows(s)]);
    assert Lists(w3.rows, s, read);
    var w4 := Do(w3, steps[3]);
    assert w4 == w2.(listings := [read]);
    PushedAlone(mine);
    hide PushMissing;
    var w5 := Do(w4, steps[4]);
    assert w5.mem.queue == [mine] && [mine][1..] == [] && w5.ops == [DropForeign([other.id])];
    assert Enabled(w3, steps[3]) && Enabled(w4, steps[4]);
    hide Do, Enabled;
    Backwards(w4, steps[4..], w5);
    Backwards(w3, steps[3..], w5);
    Backwards(w2, steps[2..], w5);
    Backwards(w1, steps[1..], w5);
    Backwards(w, steps, w5);
  }

  lemma Backwards(w: World, steps: seq<Step>, w': World)
    requires steps != [] && Enabled(w, steps[0]) && Reaches(Do(w, steps[0]), steps[1..], w')
    ensures Reaches(w, steps, w')
  {
  }

  lemma PushedAlone(tx: Transaction)
    requires tx.retryCount == 0
    ensures PushMissing([], [tx]) == [tx]
  {
  }
}
