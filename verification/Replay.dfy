/**
 * What becomes of each mutation over whole runs of the queue (src/lib/transaction-queue.ts), told
 * against a ledger that only watches the steps: which transactions were enqueued and with which
 * callbacks, and which IndexedDB writes never took effect. None of the pieces of the queue appear
 * in what is claimed here.
 */
module Replays {
  import opened Common
  import opened TransactionQueues
  import opened QueueRuns

  /**
   * `made`: every transaction as it was enqueued. `asked`: the callbacks passed on this page in a
   * session still open, until their transaction's row has been dealt with. `lost` and `kept`: ids
   * whose first write, or whose deletion, failed or was cut off by a reload.
   */
  datatype Ledger = Ledger(made: map<Id, Transaction>, asked: map<Id, Callbacks>, lost: set<Id>, kept: set<Id>)

  const EMPTY := Ledger(map[], map[], {}, {})

  /** The requests a reload cut off. */
  function Unapplied(ops: seq<Op>, applied: seq<bool>): seq<Op>
    requires |applied| <= |ops|
    decreases applied
  {
    if applied == [] then ops
    else (if applied[0] then [] else [ops[0]]) + Unapplied(ops[1..], applied[1..])
  }

  function FirstWrites(ops: seq<Op>): set<Id> { set op | op in ops && op.PutNew? :: op.tx.id }

  function Deletions(ops: seq<Op>): set<Id> { set op | op in ops && op.DeleteRow? :: op.id }

  ghost function Noted(l: Ledger, w: World, step: Step): Ledger
    requires Enabled(w, step)
  {
    match step
    case Add(tx, Some(callbacks)) =>
      l.(made := l.made[tx.id := tx], asked := l.asked[tx.id := callbacks])
    case Add(tx, None) => l.(made := l.made[tx.id := tx])
    case CloseSession => l.(asked := map[])
    case Complete(ok, _, _) =>
      var op := w.ops[0];
      if op.PutNew? && !ok then l.(lost := l.lost + {op.tx.id})
      else if op.DeleteRow? then l.(asked := l.asked - {op.id}, kept := if ok then l.kept else l.kept + {op.id})
      else l
    case Reload(applied) =>
      var cut := Unapplied(w.ops, applied);
      l.(asked := map[], lost := l.lost + FirstWrites(cut), kept := l.kept + Deletions(cut))
    case _ => l
  }

  /** A run with its ledger. */
  ghost predicate Recounts(w: World, l: Ledger, steps: seq<Step>, w': World, l': Ledger)
    decreases steps
  {
    if steps == [] then w == w' && l == l'
    else Enabled(w, steps[0]) && Recounts(Do(w, steps[0]), Noted(l, w, steps[0]), steps[1..], w', l')
  }

  /** Keeping a ledger restricts nothing. */
  lemma {:induction false} EveryRunIsRecounted(w: World, l: Ledger, steps: seq<Step>, w': World)
    requires Reaches(w, steps, w')
    ensures exists l' :: Recounts(w, l, steps, w', l')
    decreases steps
  {
    if steps == [] {
      assert Recounts(w, l, steps, w', l);
    } else {
      EveryRunIsRecounted(Do(w, steps[0]), Noted(l, w, steps[0]), steps[1..], w');
      var l' :| Recounts(Do(w, steps[0]), Noted(l, w, steps[0]), steps[1..], w', l');
      assert Recounts(w, l, steps, w', l');
    }
  }

  // ----- nobody is given up early -------------------------------------------------------------

  /** How the push ended, or where it stands. */
  predicate Stands(page: Page, queue: seq<Transaction>, i: nat)
    requires |page.settled| <= |page.outcomes| && i < |page.fails| <= |page.settled| + |queue|
  {
    if i < |page.settled| then
      match page.outcomes[i]
      case Accepted => page.fails[i] <= 3
      case Rejected => 1 <= page.fails[i] <= 4
      case GivenUp => page.fails[i] == 4
    else
      page.fails[i] == queue[i - |page.settled|].retryCount <= 3
  }

  lemma FifoStands(page: Page, queue: seq<Transaction>)
    requires Fifo(queue, page)
    ensures |page.fails| == |page.pushed| && |page.outcomes| == |page.settled|
    ensures |page.fails| == |page.settled| + |queue| && forall i | 0 <= i < |page.fails| :: Stands(page, queue, i)
  {
    assert |IdsOf(queue)| == |queue|;
    hide IdsOf;
    forall i | 0 <= i < |page.fails| ensures Stands(page, queue, i) {
      if i >= |page.settled| {
        var j := i - |page.settled|;
        assert page.fails[|page.settled| + j] == queue[j].retryCount <= 3;
      } else {
        assert FailsFit(page.outcomes[i], page.fails[i]);
      }
    }
  }

  /**
   * How each push of a page ended, in the order of the pushes, and where the rest stands: given up
   * exactly at a fourth failure, refused or accepted before a fifth, or still queued after at most three.
   */
  lemma NoneGivenUpEarly(w: World, steps: seq<Step>, w': World)
    requires Init(w) && Reaches(w, steps, w')
    ensures var (page, queue) := (w'.page, w'.mem.queue);
            && page.pushed == page.settled + IdsOf(queue)
            && |page.outcomes| == |page.settled|
            && |page.fails| == |page.pushed| == |page.settled| + |queue|
            && forall i | 0 <= i < |page.pushed| :: Stands(page, queue, i)
  {
    InitInv(w);
    RunKeepsInv(w, steps, w');
    InvParts(w');
    FifoStands(w'.page, w'.mem.queue);
    assert w'.page.pushed == w'.page.settled + IdsOf(w'.mem.queue);
    hide Inv, Shape, Reaches, Init, Fifo, Stands, IdsOf;
  }

  /**
   * An answer takes the head off the queue exactly if it is a success, a refusal for good, or a failure
   * online after three others on this page; the head is then the next to settle.
   */
  lemma LeavesExactly(w: World, steps: seq<Step>, w': World, success: bool, permanent: bool)
    requires Init(w) && Reaches(w, steps, w') && Enabled(w', Answer(success, permanent))
    ensures var (at, next) := (|w'.page.settled|, Do(w', Answer(success, permanent)));
            && at < |w'.page.fails| == |w'.page.pushed| && w'.page.pushed[at] == w'.mem.queue[0].id
            && if success || permanent || (w'.online && w'.page.fails[at] == 3) then
                 && next.mem.queue == w'.mem.queue[1..]
                 && next.page.settled == w'.page.settled + [w'.mem.queue[0].id]
               else
                 IdsOf(next.mem.queue) == IdsOf(w'.mem.queue) && next.page.settled == w'.page.settled
  {
    InitInv(w);
    RunKeepsInv(w, steps, w');
    InvParts(w');
    ShapeSendsHead(w'.mem, w'.ops);
    HeadIsNext(w');
    hide Inv, Shape, Reaches, Init, Fifo, PendingIdsOf, Answered, IdsOf;
    AnswerLeaves(w', success, permanent);
  }

  lemma AnswerLeaves(w: World, success: bool, permanent: bool)
    requires w.mem.phase.Sending? && w.mem.queue != [] && w.mem.phase.tx == w.mem.queue[0]
    ensures var next := Answered(w, success, permanent);
            if success || permanent || (w.online && w.mem.queue[0].retryCount >= 3) then
              && next.mem.queue == w.mem.queue[1..]
              && next.page.settled == w.page.settled + [w.mem.queue[0].id]
            else
              IdsOf(next.mem.queue) == IdsOf(w.mem.queue) && next.page.settled == w.page.settled
  {
  }

  lemma HeadIsNext(w: World)
    requires Fifo(w.mem.queue, w.page) && w.mem.queue != []
    ensures var at := |w.page.settled|;
            && at < |w.page.fails| == |w.page.pushed|
            && w.page.pushed[at] == w.mem.queue[0].id && w.page.fails[at] == w.mem.queue[0].retryCount <= 3
  {
    var at := |w.page.settled|;
    assert w.page.fails[at + 0] == w.mem.queue[0].retryCount;
    assert w.page.pushed[at] == IdsOf(w.mem.queue)[0];
  }

  // ----- requests -----------------------------------------------------------------------------

  lemma KickKeeps(m: Memory, online: bool)
    ensures var k := Kick(m, online);
            && k.session == m.session && k.callbacks == m.callbacks
            && (k.phase == m.phase || (m.phase.Idle? && online && k.phase.Sending?))
  {
  }

  /** What the code behind an IndexedDB request leaves alone. */
  lemma ResumedKeeps(w: World, op: Op, ok: bool, threw: bool, read: Snapshot)
    requires op.DeleteRow? ==> w.mem.phase.Unpersisting?
    requires op.PutRetry? ==> w.mem.phase.Repersisting?
    ensures var (m, m') := (w.mem, Resumed(w, op, ok, threw, read).mem);
            && m'.session == m.session
            && m'.callbacks == (if op.DeleteRow? then m.callbacks - {m.phase.tx.id} else m.callbacks)
            && (m'.phase.Unpersisting? ==> m'.phase == m.phase)
            && (m'.phase.Sending? ==> m'.phase == m.phase || (w.online && !m.phase.Sending?))
  {
    hide Kick, Fires, PendingIdsOf;
    if op.DeleteRow? {
      KickKeeps(w.mem.(callbacks := w.mem.callbacks - {w.mem.phase.tx.id}, phase := Idle), w.online);
    } else {
      KickKeeps(w.mem, w.online);
      KickKeeps(w.mem.(pendingIds := None), w.online);
    }
  }

  lemma ResumeReadKeeps(w: World)
    requires w.listings != []
    ensures var (m, m') := (w.mem, Do(w, ResumeRead).mem);
            && m'.session == m.session && m'.callbacks == m.callbacks
            && (m'.phase == m.phase || (m.phase.Idle? && w.online && m'.phase.Sending?))
  {
    var pushed := w.mem.(hydrated := true, queue := PushMissing(w.mem.queue, w.listings[0].mine));
    KickKeeps(pushed.(pendingIds := None), w.online);
    hide Kick, PushMissing, IdsOf, PendingIdsOf;
  }

  function CallbacksAfter(w: World, step: Step): map<Id, Callbacks>
    requires Enabled(w, step)
  {
    var callbacks := w.mem.callbacks;
    match step
    case Add(tx, Some(passed)) => callbacks[tx.id := passed]
    case CloseSession => map[]
    case Complete(_, _, _) => if w.ops[0].DeleteRow? then callbacks - {w.mem.phase.tx.id} else callbacks
    case _ => callbacks
  }

  /** Session, callbacks and phase after a step: sessions are opened and closed, deletions end, sends start online. */
  lemma StepKeeps(w: World, step: Step)
    requires Enabled(w, step) && !step.Reload? && !step.Answer?
    ensures var (m, m') := (w.mem, Do(w, step).mem);
            && m'.session
               == (if step.OpenSession? then Some(step.session) else if step.CloseSession? then None else m.session)
            && m'.callbacks == CallbacksAfter(w, step)
            && (m'.phase.Unpersisting? ==> m'.phase == m.phase)
            && (m'.phase.Sending? ==> m'.phase == m.phase || (Do(w, step).online && !m.phase.Sending?))
  {
    if step.Complete? {
      CompleteIs(w, step);
      hide Do, Consumed, Resumed, Lists;
      ResumedKeeps(Consumed(w, step.ok), w.ops[0], step.ok, step.threw, step.read);
    } else if step.ResumeRead? {
      ResumeReadKeeps(w);
      hide Do;
    } else {
      hide Kick, Lists, Leftovers, PushMissing, PendingIdsOf, IdsOf, Resumed, Answered;
      KickKeeps(w.mem, w.online);
      KickKeeps(w.mem.(phase := Idle), w.online);
    }
  }

  lemma AnswerKeeps(w: World, success: bool, permanent: bool)
    requires w.mem.phase.Sending? && w.mem.queue != []
    ensures var (m, m') := (w.mem, Answered(w, success, permanent).mem);
            && m'.session == m.session && m'.callbacks == m.callbacks && !m'.phase.Sending?
  {
  }

  lemma ShapeSendsHead(m: Memory, ops: seq<Op>)
    requires Shape(m, ops) && m.phase.Sending?
    ensures m.queue != [] && m.phase.tx == m.queue[0]
  {
    hide Settling;
  }

  /** A request goes out only while the browser is online, for the head, with none in flight. */
  lemma SendsStartOnline(w: World, step: Step)
    requires Shape(w.mem, w.ops) && Enabled(w, step)
    requires Do(w, step).mem.phase.Sending? && Do(w, step).mem.phase != w.mem.phase
    ensures var w' := Do(w, step);
            w'.online && !w.mem.phase.Sending? && w'.mem.queue != [] && w'.mem.phase.tx == w'.mem.queue[0]
  {
    StepKeepsShape(w, step);
    if step.Answer? {
      AnswerKeeps(w, step.success, step.permanent);
    } else if !step.Reload? {
      StepKeeps(w, step);
    }
    hide Shape, Leftovers, Answered;
    ShapeSendsHead(Do(w, step).mem, Do(w, step).ops);
  }

  /**
   * A request that fails while the browser is offline costs nothing: the transaction stays where it is,
   * no failure is counted or stored, and it goes out again as soon as the browser is back.
   */
  lemma OfflineCostsNothing(w: World)
    requires Shape(w.mem, w.ops) && w.mem.phase.Sending? && !w.online
    ensures var (tx, w1) := (w.mem.phase.tx, Do(w, Answer(false, false)));
            && w1.mem.queue == w.mem.queue && w1.ops == w.ops && w1.rows == w.rows && w1.page == w.page
            && Enabled(w1, GoOnline) && Enabled(Do(w1, GoOnline), OnlineEvent)
            && var w2 := Do(Do(w1, GoOnline), OnlineEvent);
               w2.online && w2.mem == w.mem && w2.ops == w.ops && w2.rows == w.rows && w2.page == w.page
  {
    ShapeSendsHead(w.mem, w.ops);
    assert w.mem.listener by { hide Settling; }
    assert w.ops + [] == w.ops;
    hide Shape;
  }

  // ----- callbacks ----------------------------------------------------------------------------

  /** The last to leave the queue is the one whose row is being deleted. */
  ghost predicate Ending(w: World) {
    w.mem.phase.Unpersisting? ==>
      var (settled, outcomes) := (w.page.settled, w.page.outcomes);
      && |settled| == |outcomes| > 0
      && settled[|settled| - 1] == w.mem.phase.tx.id
      && (w.mem.phase.succeeded <==> outcomes[|outcomes| - 1].Accepted?)
  }

  lemma SettledStays(w: World, step: Step)
    requires Enabled(w, step) && !step.Answer? && !step.Reload?
    ensures Do(w, step).page.settled == w.page.settled && Do(w, step).page.outcomes == w.page.outcomes
  {
    if step.Complete? {
      CompleteChanges(w, step);
      hide Do;
    } else {
      hide Lists, Leftovers, PushMissing, PendingIdsOf, IdsOf, Resumed, Answered, Kick;
    }
  }

  lemma StepKeepsEnding(w: World, step: Step)
    requires Ending(w) && Shape(w.mem, w.ops) && Fifo(w.mem.queue, w.page) && Enabled(w, step)
    ensures Ending(Do(w, step))
  {
    if step.Answer? {
      hide Settling, IdsOf, Shape;
    } else if step.Reload? {
      hide Leftovers;
    } else {
      StepKeeps(w, step);
      SettledStays(w, step);
      hide Do, Enabled, Shape, Fifo;
    }
  }

  lemma StepKeepsAsked(w: World, l: Ledger, step: Step)
    requires w.mem.callbacks == l.asked && Shape(w.mem, w.ops) && Enabled(w, step)
    ensures Do(w, step).mem.callbacks == Noted(l, w, step).asked
  {
    if step.Answer? {
      AnswerKeeps(w, step.success, step.permanent);
    } else if !step.Reload? {
      StepKeeps(w, step);
    }
    if step.Complete? {
      RequestMatchesPhase(w.mem, w.ops);
      hide Do;
    }
    hide Shape, Leftovers, Lists, FirstWrites, Deletions, Unapplied, Answered;
  }

  lemma {:induction false} RunKeepsAsked(w: World, l: Ledger, steps: seq<Step>, w': World, l': Ledger)
    requires Inv(w) && Ending(w) && w.mem.callbacks == l.asked && Recounts(w, l, steps, w', l')
    ensures Inv(w') && Ending(w') && w'.mem.callbacks == l'.asked
    decreases steps
  {
    if steps != [] {
      InvParts(w);
      hide Inv, Ending, Shape, Fifo, Do, Enabled, Noted;
      StepKeepsInv(w, steps[0]);
      StepKeepsEnding(w, steps[0]);
      StepKeepsAsked(w, l, steps[0]);
      RunKeepsAsked(Do(w, steps[0]), Noted(l, w, steps[0]), steps[1..], w', l');
    }
  }

  /** The callback owed for what became of the last transaction to leave the queue. */
  predicate CallbackDue(page: Page, asked: map<Id, Callbacks>, id: Id) {
    && page.settled != [] && page.settled[|page.settled| - 1] == id
    && id in asked
    && if page.outcomes != [] && page.outcomes[|page.outcomes| - 1] == Accepted
       then asked[id].onSuccess
       else asked[id].onError
  }

  lemma OthersFireNothing(w: World, step: Step)
    requires Enabled(w, step) && !step.Complete?
    ensures Do(w, step).past.fired == w.past.fired
  {
    if step.Reload? {
      LeftoversKeepPast(w.rows, w.past, w.ops, step.applied);
      hide Leftovers;
    } else {
      hide PushMissing, PendingIdsOf, Lists, Leftovers, IdsOf;
    }
  }

  lemma CompletedFires(w: World, step: Step)
    requires step.Complete? && Enabled(w, step)
    ensures Do(w, step).past.fired
            == w.past.fired + if w.ops[0].DeleteRow? && Fires(w.mem) then [w.mem.phase.tx.id] else []
  {
    CompleteIs(w, step);
    assert Consumed(w, step.ok).past.fired == w.past.fired;
    assert w.past.fired + [] == w.past.fired;
    hide Do, Lists, Consumed, Fires;
  }

  lemma DueCallbackFires(w: World, l: Ledger, step: Step)
    requires Shape(w.mem, w.ops) && Ending(w) && w.mem.callbacks == l.asked && step.Complete? && Enabled(w, step)
    ensures var due := w.ops[0].DeleteRow? && CallbackDue(w.page, l.asked, w.ops[0].id);
            Do(w, step).past.fired == w.past.fired + if due then [w.ops[0].id] else []
  {
    RequestMatchesPhase(w.mem, w.ops);
    CompletedFires(w, step);
    hide Shape, Do, Lists;
  }

  /**
   * Callbacks run when the row has been dealt with and at no other time, and the one that runs is the
   * one passed for this outcome when the transaction was enqueued.
   */
  lemma TheRightCallbackRuns(w: World, steps: seq<Step>, w': World, l': Ledger, step: Step)
    requires Init(w) && Recounts(w, EMPTY, steps, w', l') && Enabled(w', step)
    ensures var due := step.Complete? && w'.ops[0].DeleteRow? && CallbackDue(w'.page, l'.asked, w'.ops[0].id);
            Do(w', step).past.fired == w'.past.fired + if due then [w'.ops[0].id] else []
  {
    InitInv(w);
    RunKeepsAsked(w, EMPTY, steps, w', l');
    InvParts(w');
    hide Recounts, Inv, Init, Fifo, Shape, Do, Ending, CallbackDue, Lists;
    if step.Complete? {
      DueCallbackFires(w', l', step);
    } else {
      OthersFireNothing(w', step);
      assert w'.past.fired + [] == w'.past.fired;
    }
  }

  // ----- what is kept of an enqueue -----------------------------------------------------------

  /** The transaction is the one enqueued, whatever failures were counted since. */
  ghost predicate Made(made: map<Id, Transaction>, t: Transaction) {
    t.id in made && t.(retryCount := 0) == made[t.id]
  }

  ghost predicate MadeOnDisk(made: map<Id, Transaction>, rows: map<Id, Transaction>, ops: seq<Op>) {
    && (forall id | id in rows :: rows[id].id == id && Made(made, rows[id]))
    && (forall i | 0 <= i < |ops| && (ops[i].PutNew? || ops[i].PutRetry?) :: Made(made, ops[i].tx))
  }

  /** Nothing in memory, on the disk or between them was ever altered. */
  ghost predicate Genuine(w: World, l: Ledger) {
    && l.made.Keys == w.past.used
    && (forall t | t in w.mem.queue :: Made(l.made, t))
    && MadeOnDisk(l.made, w.rows, w.ops)
    && (forall s, t | s in w.listings && t in s.mine :: Made(l.made, t))
  }

  ghost predicate Writing(ops: seq<Op>, id: Id) {
    exists i :: 0 <= i < |ops| && ops[i].PutNew? && ops[i].tx.id == id
  }

  /** Every enqueue was stored, or is about to be, or its write is known to have failed. */
  ghost predicate Accounted(used: set<Id>, ops: seq<Op>, past: History, lost: set<Id>) {
    forall id | id in used :: id in past.stored || Writing(ops, id) || id in lost
  }

  lemma WrittenKeepsMade(made: map<Id, Transaction>, rows: map<Id, Transaction>, ops: seq<Op>)
    requires MadeOnDisk(made, rows, ops) && ops != []
    ensures MadeOnDisk(made, rows, ops[1..]) && MadeOnDisk(made, Written(rows, ops[0]), ops[1..])
  {
    hide Made;
  }

  lemma {:induction false} LeftoversKeepMade(
      made: map<Id, Transaction>, rows: map<Id, Transaction>, past: History, ops: seq<Op>, applied: seq<bool>)
    requires |applied| <= |ops| && MadeOnDisk(made, rows, ops)
    ensures MadeOnDisk(made, Leftovers(rows, past, ops, applied).0, [])
    decreases applied
  {
    if applied != [] {
      WrittenKeepsMade(made, rows, ops);
      hide MadeOnDisk, Written, Recorded;
      if applied[0] {
        LeftoversKeepMade(made, Written(rows, ops[0]), Recorded(past, ops[0]), ops[1..], applied[1..]);
      } else {
        LeftoversKeepMade(made, rows, past, ops[1..], applied[1..]);
      }
    } else {
      hide Made;
    }
  }

  lemma MoreMade(made: map<Id, Transaction>, tx: Transaction, t: Transaction)
    requires Made(made, t) && tx.id !in made
    ensures Made(made[tx.id := tx], t)
  {
  }

  lemma AddKeepsGenuine(w: World, l: Ledger, step: Step)
    requires Genuine(w, l) && step.Add? && Enabled(w, step)
    ensures Genuine(Do(w, step), Noted(l, w, step))
  {
    var tx := step.tx;
    var made := l.made[tx.id := tx];
    assert Made(made, tx);
    forall t | Made(l.made, t) ensures Made(made, t) {
      MoreMade(l.made, tx, t);
    }
    hide Made, Lists, Leftovers, PushMissing, PendingIdsOf, IdsOf;
  }

  lemma PushedAreMade(made: map<Id, Transaction>, queue: seq<Transaction>, mine: seq<Transaction>)
    requires forall t | t in queue :: Made(made, t)
    requires forall t | t in mine :: Made(made, t)
    ensures forall t | t in PushMissing(queue, mine) :: Made(made, t)
    decreases mine
  {
    if mine != [] {
      var t := mine[0].(retryCount := 0);
      assert Made(made, t) by { assert Made(made, mine[0]); }
      hide Made, InQueue;
      PushedAreMade(made, queue, mine[1..]);
      PushedAreMade(made, queue + [t], mine[1..]);
    }
  }

  lemma ResumeKeepsGenuine(w: World, l: Ledger)
    requires Genuine(w, l) && w.listings != []
    ensures Genuine(Do(w, ResumeRead), l)
  {
    assert w.listings[0] in w.listings;
    PushedAreMade(l.made, w.mem.queue, w.listings[0].mine);
    ResumeChanges(w);
    assert Do(w, ResumeRead).mem.queue == PushMissing(w.mem.queue, w.listings[0].mine);
    hide Do, Made, PushMissing, IdsOf;
  }

  lemma AnswerKeepsGenuine(w: World, l: Ledger, success: bool, permanent: bool)
    requires Genuine(w, l) && Shape(w.mem, w.ops) && w.mem.phase.Sending?
    ensures Genuine(Answered(w, success, permanent), l)
  {
    var tx := w.mem.queue[0];
    assert Made(l.made, tx);
    assert Made(l.made, tx.(retryCount := tx.retryCount + 1));
    hide Made, Settling, PendingIdsOf;
  }

  lemma CompleteKeepsGenuine(w: World, l: Ledger, step: Step)
    requires Genuine(w, l) && step.Complete? && Enabled(w, step)
    ensures Genuine(Do(w, step), Noted(l, w, step))
  {
    WrittenKeepsMade(l.made, w.rows, w.ops);
    CompleteChanges(w, step);
    OthersKeepQueue(w, step);
    hide Do, Made, MadeOnDisk, Written;
    if w.ops[0].ReadRows? && step.ok {
      forall t | t in step.read.mine ensures Made(l.made, t) {
        assert t.id in w.rows && w.rows[t.id] == t;
      }
    }
    hide Lists;
  }

  lemma ReloadKeepsGenuine(w: World, l: Ledger, step: Step)
    requires Genuine(w, l) && step.Reload? && Enabled(w, step)
    ensures Genuine(Do(w, step), Noted(l, w, step))
  {
    LeftoversKeepMade(l.made, w.rows, w.past, w.ops, step.applied);
    LeftoversKeepPast(w.rows, w.past, w.ops, step.applied);
    hide Leftovers, Made, MadeOnDisk, Unapplied, FirstWrites, Deletions;
  }

  lemma StepKeepsGenuine(w: World, l: Ledger, step: Step)
    requires Genuine(w, l) && Shape(w.mem, w.ops) && Enabled(w, step)
    ensures Genuine(Do(w, step), Noted(l, w, step))
  {
    if step.Complete? {
      CompleteKeepsGenuine(w, l, step);
    } else if step.ResumeRead? {
      ResumeKeepsGenuine(w, l);
    } else if step.Answer? {
      AnswerKeepsGenuine(w, l, step.success, step.permanent);
    } else if step.Reload? {
      ReloadKeepsGenuine(w, l, step);
    } else if step.Add? {
      AddKeepsGenuine(w, l, step);
    } else {
      OtherSteps(w, step);
      hide Do, Enabled, Shape, Made;
    }
  }

  lemma WritingConcat(a: seq<Op>, b: seq<Op>, id: Id)
    ensures Writing(a + b, id) <==> Writing(a, id) || Writing(b, id)
  {
    if Writing(a, id) {
      var i :| 0 <= i < |a| && a[i].PutNew? && a[i].tx.id == id;
      assert (a + b)[i] == a[i];
    }
    if Writing(b, id) {
      var i :| 0 <= i < |b| && b[i].PutNew? && b[i].tx.id == id;
      assert (a + b)[|a| + i] == b[i];
    }
  }

  lemma WritingHead(ops: seq<Op>, id: Id)
    requires ops != []
    ensures Writing(ops, id) <==> Writing(ops[1..], id) || (ops[0].PutNew? && ops[0].tx.id == id)
  {
    assert ops == [ops[0]] + ops[1..];
    WritingConcat([ops[0]], ops[1..], id);
    assert [ops[0]][0] == ops[0];
  }

  lemma {:induction false} CutWrites(
      rows: map<Id, Transaction>, past: History, ops: seq<Op>, applied: seq<bool>, id: Id)
    requires |applied| <= |ops| && (id in past.stored || Writing(ops, id))
    ensures id in Leftovers(rows, past, ops, applied).1.stored || id in FirstWrites(Unapplied(ops, applied))
    decreases applied
  {
    if applied == [] {
      if i :| 0 <= i < |ops| && ops[i].PutNew? && ops[i].tx.id == id {
        assert ops[i] in ops;
      }
    } else {
      WritingHead(ops, id);
      hide Writing, Written;
      var cut := Unapplied(ops, applied);
      assert forall op | op in Unapplied(ops[1..], applied[1..]) :: op in cut;
      if applied[0] {
        CutWrites(Written(rows, ops[0]), Recorded(past, ops[0]), ops[1..], applied[1..], id);
      } else if id in past.stored || Writing(ops[1..], id) {
        CutWrites(rows, past, ops[1..], applied[1..], id);
      } else {
        assert ops[0] in cut;
      }
    }
  }

  lemma ReloadKeepsAccounted(w: World, l: Ledger, step: Step)
    requires Accounted(w.past.used, w.ops, w.past, l.lost) && step.Reload? && Enabled(w, step)
    ensures Accounted(Do(w, step).past.used, [], Do(w, step).past, Noted(l, w, step).lost)
  {
    LeftoversKeepPast(w.rows, w.past, w.ops, step.applied);
    forall id | id in w.past.used && (id in w.past.stored || Writing(w.ops, id))
        ensures || id in Leftovers(w.rows, w.past, w.ops, step.applied).1.stored
                || id in FirstWrites(Unapplied(w.ops, step.applied)) {
      CutWrites(w.rows, w.past, w.ops, step.applied, id);
    }
    hide Leftovers, Unapplied, FirstWrites, Deletions, Writing;
  }

  lemma CompleteKeepsAccounted(w: World, l: Ledger, step: Step)
    requires Accounted(w.past.used, w.ops, w.past, l.lost) && step.Complete? && Enabled(w, step)
    ensures Accounted(Do(w, step).past.used, Do(w, step).ops, Do(w, step).past, Noted(l, w, step).lost)
  {
    CompleteIs(w, step);
    CompleteChanges(w, step);
    assert Do(w, step).past.stored == Consumed(w, step.ok).past.stored by { hide Consumed; }
    forall id ensures Writing(w.ops, id) <==> Writing(w.ops[1..], id) || (w.ops[0].PutNew? && w.ops[0].tx.id == id) {
      WritingHead(w.ops, id);
    }
    hide Do, Lists, Written, Writing;
  }

  lemma StepKeepsAccounted(w: World, l: Ledger, step: Step)
    requires Accounted(w.past.used, w.ops, w.past, l.lost) && Enabled(w, step)
    ensures Accounted(Do(w, step).past.used, Do(w, step).ops, Do(w, step).past, Noted(l, w, step).lost)
  {
    if step.Complete? {
      CompleteKeepsAccounted(w, l, step);
    } else if step.Reload? {
      ReloadKeepsAccounted(w, l, step);
    } else {
      var issued := Do(w, step).ops[|w.ops|..];
      assert Do(w, step).ops == w.ops + issued by {
        hide Lists, Leftovers, PushMissing, PendingIdsOf, IdsOf, Accounted;
      }
      forall id ensures Writing(w.ops + issued, id) <==> Writing(w.ops, id) || Writing(issued, id) {
        WritingConcat(w.ops, issued, id);
      }
      assert step.Add? ==> issued[0] == PutNew(step.tx) by {
        hide Lists, Leftovers, PushMissing, PendingIdsOf, IdsOf, Accounted;
      }
      assert step.Add? ==> Writing(issued, step.tx.id);
      hide Lists, Leftovers, PushMissing, PendingIdsOf, IdsOf, Writing, Kick;
    }
  }

  lemma {:induction false} RunKeepsGenuine(w: World, l: Ledger, steps: seq<Step>, w': World, l': Ledger)
    requires Inv(w) && Genuine(w, l) && Accounted(w.past.used, w.ops, w.past, l.lost)
    requires Recounts(w, l, steps, w', l')
    ensures Inv(w') && Genuine(w', l') && Accounted(w'.past.used, w'.ops, w'.past, l'.lost)
    decreases steps
  {
    if steps != [] {
      InvParts(w);
      hide Inv, Genuine, Accounted, Shape, Fifo, Do, Enabled, Noted;
      StepKeepsInv(w, steps[0]);
      StepKeepsGenuine(w, l, steps[0]);
      StepKeepsAccounted(w, l, steps[0]);
      RunKeepsGenuine(Do(w, steps[0]), Noted(l, w, steps[0]), steps[1..], w', l');
    }
  }

  /**
   * Over any run, reloads included, each transaction ever enqueued is settled or dropped with another
   * session's, or its row is in the table as it was enqueued, or is about to be written, or the write
   * is known to have failed; and what waits in memory is what was enqueued.
   */
  lemma NoMutationIsForgotten(w: World, steps: seq<Step>, w': World, l': Ledger)
    requires Init(w) && Recounts(w, EMPTY, steps, w', l')
    ensures forall id | id in l'.made ::
              || id in w'.past.done || id in w'.past.evicted || id in l'.lost
              || (id in w'.rows && w'.rows[id].(retryCount := 0) == l'.made[id])
              || Writing(w'.ops, id)
    ensures forall t | t in w'.mem.queue :: t.id in l'.made && t.(retryCount := 0) == l'.made[t.id]
  {
    InitInv(w);
    RunKeepsGenuine(w, EMPTY, steps, w', l');
    assert Durable(w'.rows, w'.ops, w'.past) by { hide Durable, Shape, Fifo, Genuine; }
    hide Inv, Recounts, Init, Writing;
  }

  // ----- settled means settled ----------------------------------------------------------------

  /** Whether a row is there after these requests, other sessions' clean-ups aside. */
  predicate Remains(present: bool, ops: seq<Op>, id: Id)
    decreases ops
  {
    if ops == [] then present
    else Remains(Touched(present, ops[0], id), ops[1..], id)
  }

  predicate Touched(present: bool, op: Op, id: Id) {
    match op
    case PutNew(tx) => present || tx.id == id
    case PutRetry(tx) => present || tx.id == id
    case DeleteRow(gone) => present && gone != id
    case _ => present
  }

  lemma {:induction false} RemainsAppended(present: bool, ops: seq<Op>, op: Op, id: Id)
    ensures Remains(present, ops + [op], id) == Touched(Remains(present, ops, id), op, id)
    decreases ops
  {
    if ops == [] {
      assert [] + [op] == [op];
    } else {
      assert (ops + [op])[1..] == ops[1..] + [op];
      RemainsAppended(Touched(present, ops[0], id), ops[1..], op, id);
    }
  }

  lemma {:induction false} RemainsMonotone(ops: seq<Op>, id: Id)
    ensures Remains(false, ops, id) ==> Remains(true, ops, id)
    ensures !Remains(true, ops, id) ==> id in Deletions(ops)
  {
    if ops != [] {
      RemainsMonotone(ops[1..], id);
      assert ops == [ops[0]] + ops[1..];
      assert forall op | op in ops[1..] :: op in ops;
      if Deletes(ops[0], id) {
        assert ops[0] in ops;
      }
    }
  }

  predicate Deletes(op: Op, id: Id) { op.DeleteRow? && op.id == id }

  /** A settled transaction whose deletion has not failed is out of memory, and its row is going or gone. */
  ghost predicate Closed(w: World, kept: set<Id>) {
    && w.past.done <= w.past.used
    && (forall id | id in Deletions(w.ops) :: id in w.page.settled)
    && (forall id | id in w.past.done - kept ::
          && !InQueue(w.mem.queue, id)
          && !Remains(id in w.rows, w.ops, id)
          && forall s, t | s in w.listings && t in s.mine && t.id == id :: id in w.page.settled)
  }

  lemma AddKeepsClosed(w: World, l: Ledger, step: Step)
    requires Closed(w, l.kept) && step.Add? && Enabled(w, step)
    ensures Closed(Do(w, step), Noted(l, w, step).kept)
  {
    var (tx, op) := (step.tx, PutNew(step.tx));
    forall id | id != tx.id
        ensures InQueue(w.mem.queue + [tx], id) == InQueue(w.mem.queue, id)
        ensures Remains(id in w.rows, w.ops + [op], id) == Remains(id in w.rows, w.ops, id) {
      InLonger(w.mem.queue, tx, id);
      RemainsAppended(id in w.rows, w.ops, op, id);
    }
    hide InQueue, Remains, Lists, IdsOf;
  }

  lemma TailMisses(queue: seq<Transaction>, page: Page)
    requires Fifo(queue, page) && Distinct(page.pushed) && queue != []
    ensures !InQueue(queue[1..], queue[0].id) && queue[0].id !in page.settled
    ensures forall id :: InQueue(queue[1..], id) ==> InQueue(queue, id)
  {
    var at := |page.settled|;
    assert forall i | 0 <= i < |queue| :: page.pushed[at + i] == queue[i].id;
    assert forall i | 0 <= i < at :: page.pushed[i] == page.settled[i];
  }

  /** What an answer does to what is recorded here: nothing, another write of the row, or its deletion. */
  lemma AnswerChanges(w: World, success: bool, permanent: bool)
    requires w.mem.phase.Sending? && w.mem.queue != [] && w.mem.phase.tx == w.mem.queue[0]
    ensures var (w', tx) := (Answered(w, success, permanent), w.mem.queue[0]);
            var bumped := tx.(retryCount := tx.retryCount + 1);
            && w'.rows == w.rows && w'.listings == w.listings && w'.past.used == w.past.used
            && if w'.page.settled == w.page.settled then
                 && w'.past.done == w.past.done
                 && (|| (w'.mem.queue == w.mem.queue && w'.ops == w.ops)
                     || (w'.mem.queue == w.mem.queue[0 := bumped] && w'.ops == w.ops + [PutRetry(bumped)]))
               else
                 && w'.page.settled == w.page.settled + [tx.id] && w'.past.done == w.past.done + {tx.id}
                 && w'.mem.queue == w.mem.queue[1..] && w'.ops == w.ops + [DeleteRow(tx.id)]
  {
    assert w.ops + [] == w.ops;
  }

  lemma RetryKeepsClosed(w: World, kept: set<Id>, tx: Transaction, w': World)
    requires Closed(w, kept) && w.mem.queue != [] && tx.id == w.mem.queue[0].id
    requires w'.rows == w.rows && w'.listings == w.listings && w'.past.used == w.past.used
    requires w'.past.done == w.past.done && w'.page.settled == w.page.settled
    requires w'.mem.queue == w.mem.queue[0 := tx] && w'.ops == w.ops + [PutRetry(tx)]
    ensures Closed(w', kept)
  {
    assert InQueue(w.mem.queue, tx.id);
    forall id
        ensures InQueue(w'.mem.queue, id) == InQueue(w.mem.queue, id)
        ensures Remains(id in w.rows, w'.ops, id) == (Remains(id in w.rows, w.ops, id) || id == tx.id) {
      SameIds(w.mem.queue, tx, id);
      RemainsAppended(id in w.rows, w.ops, PutRetry(tx), id);
    }
    hide InQueue, Remains;
  }

  lemma LeavingKeepsClosed(w: World, kept: set<Id>, id: Id, w': World)
    requires Closed(w, kept) && id in w.past.used
    requires w'.rows == w.rows && w'.listings == w.listings && w'.past.used == w.past.used
    requires w'.past.done == w.past.done + {id} && w'.page.settled == w.page.settled + [id]
    requires forall x :: InQueue(w'.mem.queue, x) ==> InQueue(w.mem.queue, x) && x != id
    requires w'.ops == w.ops + [DeleteRow(id)]
    ensures Closed(w', kept)
  {
    forall x ensures Remains(x in w.rows, w'.ops, x) == (Remains(x in w.rows, w.ops, x) && x != id) {
      RemainsAppended(x in w.rows, w.ops, DeleteRow(id), x);
    }
    hide InQueue, Remains;
  }

  lemma AnswerKeepsClosed(w: World, l: Ledger, step: Step)
    requires Closed(w, l.kept) && step.Answer? && Enabled(w, step)
    requires Shape(w.mem, w.ops) && Fifo(w.mem.queue, w.page) && Distinct(w.page.pushed) && Known(w)
    ensures Closed(Do(w, step), Noted(l, w, step).kept)
  {
    var (queue, tx, w') := (w.mem.queue, w.mem.queue[0], Do(w, step));
    ShapeSendsHead(w.mem, w.ops);
    AnswerChanges(w, step.success, step.permanent);
    assert w' == Answered(w, step.success, step.permanent);
    TailMisses(queue, w.page);
    assert tx.id in w.past.used by { assert w.page.pushed[|w.page.settled|] == tx.id; }
    var bumped := tx.(retryCount := tx.retryCount + 1);
    hide Shape, Fifo, Distinct, IdsOf, Known, Do, Enabled, InQueue, Remains, Answered;
    if w'.page.settled != w.page.settled {
      LeavingKeepsClosed(w, l.kept, tx.id, w');
    } else if w'.ops != w.ops {
      RetryKeepsClosed(w, l.kept, bumped, w');
    }
  }

  lemma SameIds(queue: seq<Transaction>, tx: Transaction, id: Id)
    requires queue != [] && tx.id == queue[0].id
    ensures InQueue(queue[0 := tx], id) == InQueue(queue, id)
  {
    var other := queue[0 := tx];
    assert forall i | 0 <= i < |queue| :: other[i].id == queue[i].id;
  }

  /** The oldest request, taken or failed, leaves no row that was not expected. */
  lemma ConsumedRemains(rows: map<Id, Transaction>, ops: seq<Op>, ok: bool, id: Id)
    requires ops != [] && !Remains(id in rows, ops, id) && (Deletes(ops[0], id) ==> ok)
    ensures !Remains(id in (if ok then Written(rows, ops[0]) else rows), ops[1..], id)
  {
    RemainsMonotone(ops[1..], id);
  }

  lemma CompleteKeepsClosed(w: World, l: Ledger, step: Step)
    requires Closed(w, l.kept) && step.Complete? && Enabled(w, step)
    ensures Closed(Do(w, step), Noted(l, w, step).kept)
  {
    var (op, w', kept') := (w.ops[0], Do(w, step), Noted(l, w, step).kept);
    CompleteIs(w, step);
    CompleteChanges(w, step);
    OthersKeepQueue(w, step);
    assert w'.past.done == w.past.done by { hide Closed, Lists, Written; }
    assert kept' == if op.DeleteRow? && !step.ok then l.kept + {op.id} else l.kept;
    assert forall o | o in w.ops[1..] :: o in w.ops;
    forall id | id in w.past.done - kept' ensures !Remains(id in w'.rows, w'.ops, id) {
      ConsumedRemains(w.rows, w.ops, step.ok, id);
    }
    hide Do, Remains, InQueue, Written, Consumed, Resumed;
    if op.ReadRows? && step.ok {
      forall t | t in step.read.mine && t.id in w.past.done - l.kept ensures t.id in w.page.settled {
        assert t.id in w.rows && !Remains(true, w.ops, t.id);
        RemainsMonotone(w.ops, t.id);
      }
    }
    hide Lists, Deletions;
  }

  lemma PushedFrom(queue: seq<Transaction>, mine: seq<Transaction>, id: Id)
    ensures InQueue(PushMissing(queue, mine), id) ==> InQueue(queue, id) || exists t :: t in mine && t.id == id
  {
    PushMissingExtends(queue, mine);
    var r := PushMissing(queue, mine);
    hide PushMissing;
    if i :| 0 <= i < |r| && r[i].id == id {
      if i < |queue| {
        assert queue[i].id == id;
      } else {
        var k :| 0 <= k < |mine| && mine[k].id == r[i].id;
        assert mine[k] in mine;
      }
    }
  }

  lemma ResumeKeepsClosed(w: World, l: Ledger)
    requires Closed(w, l.kept) && w.listings != [] && !StaleListing(w)
    ensures Closed(Do(w, ResumeRead), l.kept)
  {
    var (queue, mine, w') := (w.mem.queue, w.listings[0].mine, Do(w, ResumeRead));
    ResumeChanges(w);
    assert w.listings[0] in w.listings;
    assert w'.mem.queue == PushMissing(queue, mine) && w'.page.settled == w.page.settled by {
      hide Closed, StaleListing, PushMissing;
    }
    forall id | id in w.past.done - l.kept ensures !InQueue(w'.mem.queue, id) {
      PushedFrom(queue, mine, id);
    }
    forall id, ids ensures Remains(id in w.rows, w.ops + [DropForeign(ids)], id) == Remains(id in w.rows, w.ops, id) {
      RemainsAppended(id in w.rows, w.ops, DropForeign(ids), id);
    }
    hide Do, Remains, InQueue, PushMissing, StaleListing, IdsOf;
    assert forall s | s in w'.listings :: s in w.listings;
  }

  lemma {:induction false} LeftoversRemain(
      rows: map<Id, Transaction>, past: History, ops: seq<Op>, applied: seq<bool>, id: Id)
    requires |applied| <= |ops| && !Remains(id in rows, ops, id) && id !in Deletions(Unapplied(ops, applied))
    ensures id !in Leftovers(rows, past, ops, applied).0
    decreases applied
  {
    if applied == [] {
      RemainsMonotone(ops, id);
    } else {
      var cut := Unapplied(ops, applied);
      assert forall op | op in Unapplied(ops[1..], applied[1..]) :: op in cut;
      assert !applied[0] ==> ops[0] in cut;
      ConsumedRemains(rows, ops, applied[0], id);
      hide Remains, Written, Recorded;
      if applied[0] {
        LeftoversRemain(Written(rows, ops[0]), Recorded(past, ops[0]), ops[1..], applied[1..], id);
      } else {
        LeftoversRemain(rows, past, ops[1..], applied[1..], id);
      }
    }
  }

  lemma ReloadKeepsClosed(w: World, l: Ledger, step: Step)
    requires Closed(w, l.kept) && step.Reload? && Enabled(w, step)
    ensures Closed(Do(w, step), Noted(l, w, step).kept)
  {
    LeftoversKeepPast(w.rows, w.past, w.ops, step.applied);
    var (rows', past') := Leftovers(w.rows, w.past, w.ops, step.applied);
    forall id | id in w.past.done - Noted(l, w, step).kept ensures !Remains(id in rows', [], id) {
      LeftoversRemain(w.rows, w.past, w.ops, step.applied, id);
    }
    hide Leftovers, Unapplied, FirstWrites;
  }

  lemma StepKeepsClosed(w: World, l: Ledger, step: Step)
    requires Closed(w, l.kept) && Enabled(w, step) && !(step.ResumeRead? && StaleListing(w))
    requires Shape(w.mem, w.ops) && Fifo(w.mem.queue, w.page) && Distinct(w.page.pushed) && Known(w)
    ensures Closed(Do(w, step), Noted(l, w, step).kept)
  {
    if step.Complete? {
      CompleteKeepsClosed(w, l, step);
    } else if step.ResumeRead? {
      ResumeKeepsClosed(w, l);
    } else if step.Answer? {
      AnswerKeepsClosed(w, l, step);
    } else if step.Reload? {
      ReloadKeepsClosed(w, l, step);
    } else if step.Add? {
      AddKeepsClosed(w, l, step);
    } else {
      OtherSteps(w, step);
      if step.CallHydrate? {
        forall id
            ensures Remains(id in w.rows, w.ops + [ReadRows(step.session)], id) == Remains(id in w.rows, w.ops, id) {
          RemainsAppended(id in w.rows, w.ops, ReadRows(step.session), id);
        }
      }
      assert w.ops + [] == w.ops;
      hide Do, Enabled, Shape, Fifo, Known, InQueue, Remains, StaleListing, Distinct;
    }
  }

  lemma {:induction false} RunKeepsClosed(w: World, l: Ledger, steps: seq<Step>, w': World, l': Ledger)
    requires Inv(w) && Known(w) && Distinct(w.page.pushed) && Closed(w, l.kept)
    requires Recounts(w, l, steps, w', l') && NeverStale(w, steps)
    ensures Closed(w', l'.kept)
    decreases steps
  {
    if steps != [] {
      InvParts(w);
      hide Inv, Known, Closed, Shape, Fifo, Do, Enabled, Noted, Distinct, StaleListing;
      StepKeepsInv(w, steps[0]);
      StepKeepsKnown(w, steps[0]);
      StepDistinctExactly(w, steps[0]);
      StepKeepsClosed(w, l, steps[0]);
      RunKeepsClosed(Do(w, steps[0]), Noted(l, w, steps[0]), steps[1..], w', l');
    }
  }

  /**
   * What the server has answered is never sent again, on this page or after any number of reloads,
   * unless the deletion of its row failed or was cut off, or a hydration resumed with a stale listing.
   */
  lemma SettledIsOver(w: World, steps: seq<Step>, w': World, l': Ledger)
    requires Init(w) && Recounts(w, EMPTY, steps, w', l') && NeverStale(w, steps)
    ensures forall id | id in w'.past.done && id !in l'.kept ::
              && !InQueue(w'.mem.queue, id)
              && (id in w'.rows ==> DeleteRow(id) in w'.ops)
  {
    InitInv(w);
    assert Closed(w, EMPTY.kept);
    RunKeepsClosed(w, EMPTY, steps, w', l');
    forall id | id in w'.past.done && id !in l'.kept
        ensures !InQueue(w'.mem.queue, id) && (id in w'.rows ==> DeleteRow(id) in w'.ops) {
      RemainsMonotone(w'.ops, id);
    }
  }

  // ----- one session's mutations --------------------------------------------------------------

  lemma PushedExactly(rows: map<Id, Transaction>, session: Session, read: Snapshot)
    requires Lists(rows, session, read) && forall id | id in rows :: rows[id].id == id
    ensures forall id :: InQueue(PushMissing([], read.mine), id) <==> id in rows && rows[id].session == session
  {
    PushMissingExtends([], read.mine);
    var queue := PushMissing([], read.mine);
    hide PushMissing, ByAge;
    forall id ensures InQueue(queue, id) <==> id in rows && rows[id].session == session {
      if i :| 0 <= i < |queue| && queue[i].id == id {
        var k :| 0 <= k < |read.mine| && read.mine[k].id == id;
      }
      if id in rows && rows[id].session == session {
        assert rows[id] in read.mine;
      }
    }
  }

  /** After a reload and a hydration the queue is made of the session's rows in the table, and of no others. */
  lemma HydratedExactly(w: World, applied: seq<bool>, session: Session, read: Snapshot)
    requires Inv(w) && Enabled(w, Reload(applied))
    requires Lists(Do(w, Reload(applied)).rows, session, read)
    ensures var w1 := Do(Do(w, Reload(applied)), CallHydrate(session));
            && Enabled(w1, Complete(true, false, read))
            && var w2 := Do(Do(w1, Complete(true, false, read)), ResumeRead);
               forall id :: InQueue(w2.mem.queue, id) <==> id in w1.rows && w1.rows[id].session == session
  {
    ReloadThenHydrate(w, applied, session);
    var w1 := Do(Do(w, Reload(applied)), CallHydrate(session));
    assert w1.rows == Do(w, Reload(applied)).rows by { hide Leftovers, Lists, Inv; }
    assert Durable(w1.rows, [], w1.past) by {
      assert Durable(w.rows, w.ops, w.past) by { hide Durable; }
      LeftoversKeepDurable(w.rows, w.past, w.ops, applied);
      hide Leftovers;
    }
    hide Inv, Do, Leftovers;
    PushedExactly(w1.rows, session, read);
    hide Lists, InQueue, PushMissing;
    AfterOnlyRead(w1, session, read);
  }

  /** A hydration with other sessions' rows beside its own deletes those rows, and those only. */
  lemma OthersRowsAreDropped(w: World, session: Session, read: Snapshot)
    requires w.ops == [] && w.listings == [read] && Lists(w.rows, session, read) && read.foreign != []
    ensures var w1 := Do(w, ResumeRead);
            && w1.ops != [] && Enabled(w1, Complete(true, false, read))
            && Do(w1, Complete(true, false, read)).rows
               == map id | id in w.rows && w.rows[id].session == session :: w.rows[id]
  {
    hide PushMissing, IdsOf, PendingIdsOf, Leftovers, ByAge;
    var w1 := Do(w, ResumeRead);
    assert w1.ops == [DropForeign(read.foreign)] && w1.rows == w.rows;
    assert Do(w1, Complete(true, false, read)).rows == w.rows - Elements(read.foreign);
  }

  /** Everything on this page belongs to the session, or was enqueued without one. */
  ghost predicate Belongs(w: World, s: Session) {
    && (w.mem.session.Some? ==> w.mem.session == Some(s))
    && (forall t | t in w.mem.queue :: t.session == s || t.session == Session("", ""))
    && (forall i | 0 <= i < |w.ops| && w.ops[i].ReadRows? :: w.ops[i].session == s)
    && (forall l, t | l in w.listings && t in l.mine :: t.session == s)
  }

  predicate ForSession(step: Step, s: Session) {
    && !step.Reload?
    && (step.OpenSession? || step.CallHydrate? ==> step.session == s)
  }

  lemma StepKeepsBelongs(w: World, s: Session, step: Step)
    requires Belongs(w, s) && Shape(w.mem, w.ops) && Enabled(w, step) && ForSession(step, s)
    ensures Belongs(Do(w, step), s)
  {
    if step.Answer? {
      AnswerKeepsBelongs(w, s, step);
    } else {
      hide Shape;
      StepKeeps(w, step);
      if step.Complete? {
        CompleteChanges(w, step);
        OthersKeepQueue(w, step);
        hide Do, Written;
      } else if step.ResumeRead? {
        ResumeKeepsBelongs(w, s);
      } else if step.Add? {
        hide IdsOf;
      } else {
        OtherSteps(w, step);
        hide Do, Enabled;
      }
    }
  }

  lemma AnswerKeepsBelongs(w: World, s: Session, step: Step)
    requires Belongs(w, s) && Shape(w.mem, w.ops) && step.Answer? && Enabled(w, step)
    ensures Belongs(Do(w, step), s)
  {
    ShapeSendsHead(w.mem, w.ops);
    hide Shape;
  }

  lemma ResumeKeepsBelongs(w: World, s: Session)
    requires Belongs(w, s) && w.listings != []
    ensures Belongs(Do(w, ResumeRead), s)
  {
    var (queue, mine, w') := (w.mem.queue, w.listings[0].mine, Do(w, ResumeRead));
    ResumeChanges(w);
    assert w.listings[0] in w.listings;
    PushedBelong(queue, mine, s);
    assert w'.mem.queue == PushMissing(queue, mine) && w'.mem.session == w.mem.session by {
      hide Belongs, PushMissing;
    }
    hide Do, PushMissing, IdsOf;
    assert forall l | l in w'.listings :: l in w.listings;
  }

  lemma PushedBelong(queue: seq<Transaction>, mine: seq<Transaction>, s: Session)
    requires forall t | t in queue :: t.session == s || t.session == Session("", "")
    requires forall t | t in mine :: t.session == s
    ensures forall t | t in PushMissing(queue, mine) :: t.session == s || t.session == Session("", "")
    decreases mine
  {
    if mine != [] {
      hide InQueue;
      PushedBelong(queue, mine[1..], s);
      PushedBelong(queue + [mine[0].(retryCount := 0)], mine[1..], s);
    }
  }

  /**
   * A page that only ever serves one session never sends another one's mutations, whatever rows
   * earlier pages and earlier users left in the table.
   */
  lemma {:induction false} NobodyElsesMutations(w: World, steps: seq<Step>, w': World, s: Session)
    requires Shape(w.mem, w.ops) && Belongs(w, s) && Reaches(w, steps, w')
    requires forall step | step in steps :: ForSession(step, s)
    ensures Shape(w'.mem, w'.ops)
    ensures forall t | t in w'.mem.queue :: t.session == s || t.session == Session("", "")
    ensures w'.mem.phase.Sending? ==> w'.mem.phase.tx.session in {s, Session("", "")}
    decreases steps
  {
    if steps == [] {
      if w.mem.phase.Sending? {
        ShapeSendsHead(w.mem, w.ops);
      }
      hide Shape;
    } else {
      hide Shape, Belongs, Do, Enabled, ForSession;
      StepKeepsShape(w, steps[0]);
      StepKeepsBelongs(w, s, steps[0]);
      NobodyElsesMutations(Do(w, steps[0]), steps[1..], w', s);
    }
  }
}
