/**
 * The server's side of the cursor (src/lib/sync-manager.ts:16-23, src/lib/sync-config.ts:12-16 and
 * src/server/services/sync.service.ts:681-756, 917-944): transactions take their xid and row ids
 * when they write, settle in any order, and a delta read sees only rows below the oldest running
 * transaction. Together with a client that reads deltas, as a state machine over its steps.
 */
module Server {
  import opened Common
  import opened Positions
  import opened Rows
  import opened DeltaLoop

  /** Committed rows in `(xact_id, id)` order, and the rows of the transactions still running. */
  datatype Tables = Tables(nextXact: nat, nextId: nat, running: map<nat, seq<Entry>>, committed: seq<Entry>)

  /** `boot` is the cursor of a bootstrap whose rows are still being read. */
  datatype Client = Client(cursor: Position, delivered: set<Entry>, boot: Option<Position>)

  datatype World = World(server: Tables, client: Client)

  // ----- the fence ----------------------------------------------------------------------------

  /** `pg_snapshot_xmin`: the oldest running transaction, or the next one to come. */
  ghost predicate IsXmin(t: Tables, xmin: nat) {
    && (forall x | x in t.running :: xmin <= x)
    && (xmin in t.running || xmin == t.nextXact)
    && xmin <= t.nextXact
  }

  /** Rows below a transaction id, in order. */
  function Below(rows: seq<Entry>, xact: nat): (low: seq<Entry>)
    ensures |low| <= |rows|
  {
    if rows == [] || At(rows[0]).xact >= xact then [] else [rows[0]] + Below(rows[1..], xact)
  }

  /** What a delta read may see. */
  ghost predicate IsSettled(t: Tables, log: seq<Entry>) {
    exists xmin: nat :: IsXmin(t, xmin) && log == Below(t.committed, xmin)
  }

  // ----- steps --------------------------------------------------------------------------------

  /** A transaction writes for the first time and takes its xid. */
  function Begin(t: Tables): Tables {
    t.(nextXact := t.nextXact + 1, running := t.running[t.nextXact := []])
  }

  /** A running transaction records an action; the row takes the next id. */
  function Write(t: Tables, xact: nat, change: Change, visible: bool): Tables
    requires xact in t.running
  {
    var row := Entry(SyncAction(xact, t.nextId, change), visible);
    t.(nextId := t.nextId + 1, running := t.running[xact := t.running[xact] + [row]])
  }

  /** Its rows appear at their place in the order, which may be below rows committed long before. */
  function Commit(t: Tables, xact: nat): Tables
    requires xact in t.running
  {
    var low := Below(t.committed, xact);
    t.(running := t.running - {xact}, committed := low + t.running[xact] + t.committed[|low|..])
  }

  function Abort(t: Tables, xact: nat): Tables
    requires xact in t.running
  {
    t.(running := t.running - {xact})
  }

  /** One delta page of any size, delivered to the client, which moves its cursor to the page's end. */
  ghost predicate DeltaRead(w: World, w': World) {
    exists log, n: nat :: IsSettled(w.server, log) && n <= |After(log, w.client.cursor)| && w' == ReadPage(w, log, n)
  }

  function ReadPage(w: World, log: seq<Entry>, n: nat): World
    requires n <= |After(log, w.client.cursor)|
  {
    var page := After(log, w.client.cursor)[..n];
    w.(client := w.client.(
         cursor := if n == 0 then w.client.cursor else At(page[n - 1]),
         delivered := w.client.delivered + set e | e in page && e.visible))
  }

  /** A bootstrap takes the topmost settled cursor first. */
  ghost predicate BootBegins(w: World, w': World) {
    exists log, xmin: nat ::
      && IsXmin(w.server, xmin) && log == Below(w.server.committed, xmin)
      && w' == w.(client := w.client.(boot := Some(BootCursor(log, xmin))))
  }

  /** It reads the entities later, when more may have been committed; then the client starts from the cursor. */
  ghost predicate BootEnds(w: World, w': World) {
    && w.client.boot.Some?
    && w' == w.(client := Client(w.client.boot.value, (set e | e in w.server.committed && e.visible), None))
  }

  function BootCursor(log: seq<Entry>, xmin: nat): Position {
    if log == [] then Position(if xmin > 0 then xmin - 1 else 0, 0) else At(log[|log| - 1])
  }

  ghost predicate ServerStep(t: Tables, t': Tables) {
    || t' == Begin(t)
    || (exists x, c, v :: x in t.running && t' == Write(t, x, c, v))
    || (exists x :: x in t.running && t' == Commit(t, x))
    || (exists x :: x in t.running && t' == Abort(t, x))
  }

  ghost predicate Next(w: World, w': World) {
    || (ServerStep(w.server, w'.server) && w'.client == w.client)
    || DeltaRead(w, w')
    || BootBegins(w, w')
    || BootEnds(w, w')
  }

  /** Xids and row ids start at one; a client starts before everything. */
  ghost predicate Init(w: World) {
    && w.server == Tables(1, 1, map[], [])
    && w.client == Client(ZERO, {}, None)
  }

  ghost predicate Run(trace: seq<World>) {
    && trace != [] && Init(trace[0])
    && forall i | 0 <= i < |trace| - 1 :: Next(trace[i], trace[i + 1])
  }

  // ----- the invariant ------------------------------------------------------------------------

  /** Rows of one running transaction carry its xid and ids in the order they were written. */
  ghost predicate RunningRows(t: Tables, x: nat) {
    x in t.running ==>
      && 0 < x < t.nextXact
      && (forall e | e in t.running[x] :: e.action.xactId == x && e.action.id < t.nextId)
      && Sorted(t.running[x])
  }

  ghost predicate TablesOk(t: Tables) {
    && 0 < t.nextXact
    && (forall x :: RunningRows(t, x))
    && Sorted(t.committed)
    && (forall e | e in t.committed :: 0 < e.action.xactId < t.nextXact && e.action.xactId !in t.running)
  }

  /** Every committed visible row at or below the cursor has been delivered. */
  ghost predicate NoSkip(w: World) {
    forall e | e in w.server.committed && e.visible && AtMost(At(e), w.client.cursor) :: e in w.client.delivered
  }

  /** Every transaction that can still commit rows lies beyond the cursor, and beyond a pending bootstrap's. */
  ghost predicate FenceHolds(w: World) {
    FencedAt(w.server, w.client.cursor) && (w.client.boot.Some? ==> FencedAt(w.server, w.client.boot.value))
  }

  ghost predicate FencedAt(t: Tables, cursor: Position) {
    (forall x | x in t.running :: cursor.xact < x) && cursor.xact < t.nextXact
  }

  /** Nothing is delivered that was not committed and visible. */
  ghost predicate NoPhantom(w: World) {
    forall e | e in w.client.delivered :: e in w.server.committed && e.visible
  }

  ghost predicate Inv(w: World) {
    TablesOk(w.server) && NoSkip(w) && FenceHolds(w) && NoPhantom(w)
  }

  // ----- tables -------------------------------------------------------------------------------

  lemma {:induction false} BelowSplits(rows: seq<Entry>, xact: nat)
    requires Sorted(rows)
    ensures var n := |Below(rows, xact)|;
            && n <= |rows| && Below(rows, xact) == rows[..n]
            && (forall i | 0 <= i < n :: At(rows[i]).xact < xact)
            && (forall i | n <= i < |rows| :: At(rows[i]).xact >= xact)
  {
    if rows != [] {
      if At(rows[0]).xact < xact {
        var rest := rows[1..];
        assert forall i | 1 <= i < |rows| :: rest[i - 1] == rows[i];
        BelowSplits(rest, xact);
        hide Sorted;
        assert Below(rows, xact) == [rows[0]] + rest[..|Below(rest, xact)|];
      } else {
        assert forall i | 0 < i < |rows| :: Before(At(rows[0]), At(rows[i]));
      }
    }
  }

  lemma SortedConcat(a: seq<Entry>, b: seq<Entry>)
    requires Sorted(a) && Sorted(b)
    requires forall e, f | e in a && f in b :: Before(At(e), At(f))
    ensures Sorted(a + b)
  {
  }

  /** What a step leaves true of the tables, and what it may add to them. */
  ghost predicate Carried(t: Tables, t': Tables) {
    && TablesOk(t')
    && (forall e | e in t.committed :: e in t'.committed)
    && (forall e | e in t'.committed :: e in t.committed || e.action.xactId in t.running)
    && t.nextXact <= t'.nextXact
    && (forall x | x in t'.running :: x in t.running || x >= t.nextXact)
  }

  lemma BeginCarries(t: Tables)
    requires TablesOk(t)
    ensures Carried(t, Begin(t))
  {
    forall y ensures RunningRows(Begin(t), y) {
      assert RunningRows(t, y);
    }
  }

  lemma WriteCarries(t: Tables, x: nat, change: Change, visible: bool)
    requires TablesOk(t) && x in t.running
    ensures Carried(t, Write(t, x, change, visible))
  {
    forall y ensures RunningRows(Write(t, x, change, visible), y) {
      assert RunningRows(t, y);
    }
  }

  lemma AbortCarries(t: Tables, x: nat)
    requires TablesOk(t) && x in t.running
    ensures Carried(t, Abort(t, x))
  {
    forall y ensures RunningRows(Abort(t, x), y) {
      assert RunningRows(t, y);
    }
  }

  lemma CommitMembers(t: Tables, x: nat, e: Entry)
    requires x in t.running && Sorted(t.committed)
    ensures e in Commit(t, x).committed <==> e in t.committed || e in t.running[x]
  {
    BelowSplits(t.committed, x);
    var low := Below(t.committed, x);
    hide Below, Sorted;
    assert t.committed == low + t.committed[|low|..];
  }

  /** Rows of lower transactions, of one transaction, and of higher ones, one after the other. */
  lemma SpliceSorted(low: seq<Entry>, mine: seq<Entry>, high: seq<Entry>, x: nat)
    requires Sorted(low) && Sorted(mine) && Sorted(high)
    requires forall e | e in low :: At(e).xact < x
    requires forall e | e in mine :: At(e).xact == x
    requires forall e | e in high :: At(e).xact > x
    ensures Sorted(low + mine + high)
  {
    hide Sorted;
    SortedConcat(low, mine);
    SortedConcat(low + mine, high);
  }

  /** The commit's rows are spliced in where their xid belongs. */
  lemma CommitSorted(t: Tables, x: nat)
    requires TablesOk(t) && x in t.running
    ensures Sorted(Commit(t, x).committed)
  {
    BelowSplits(t.committed, x);
    CommitIsSplice(t, x);
    hide Below, Commit;
    var low := Below(t.committed, x);
    var mine, high := t.running[x], t.committed[|low|..];
    assert RunningRows(t, x);
    assert Sorted(low) && Sorted(high) && Sorted(mine);
    hide Sorted;
    forall e | e in high ensures At(e).xact > x {
      var i :| 0 <= i < |high| && high[i] == e;
      assert t.committed[|low| + i] == e && e in t.committed;
    }
    SpliceSorted(low, mine, high, x);
  }

  lemma CommitIsSplice(t: Tables, x: nat)
    requires x in t.running
    ensures var low := Below(t.committed, x);
            Commit(t, x) == t.(running := t.running - {x}, committed := low + t.running[x] + t.committed[|low|..])
  {
  }

  lemma CommitCarries(t: Tables, x: nat)
    requires TablesOk(t) && x in t.running
    ensures Carried(t, Commit(t, x))
  {
    CommitSorted(t, x);
    CommitIsSplice(t, x);
    forall e ensures e in Commit(t, x).committed <==> e in t.committed || e in t.running[x] {
      CommitMembers(t, x, e);
    }
    assert RunningRows(t, x);
    hide Below, Sorted, Commit;
    forall y ensures RunningRows(Commit(t, x), y) {
      assert RunningRows(t, y);
    }
  }

  lemma StepCarries(t: Tables, t': Tables)
    requires TablesOk(t) && ServerStep(t, t')
    ensures Carried(t, t')
  {
    hide TablesOk, Carried, Begin, Write, Commit, Abort;
    if t' == Begin(t) {
      BeginCarries(t);
    } else if x, c, v :| x in t.running && t' == Write(t, x, c, v) {
      WriteCarries(t, x, c, v);
    } else if x :| x in t.running && t' == Commit(t, x) {
      CommitCarries(t, x);
    } else {
      var x :| x in t.running && t' == Abort(t, x);
      AbortCarries(t, x);
    }
  }

  // ----- settled rows -------------------------------------------------------------------------

  /** The rows a read may see are the committed ones of transactions older than every running one. */
  lemma SettledRows(t: Tables, xmin: nat, e: Entry)
    requires TablesOk(t) && IsXmin(t, xmin)
    ensures Sorted(Below(t.committed, xmin))
    ensures e in Below(t.committed, xmin) <==> e in t.committed && e.action.xactId < xmin
  {
    BelowSplits(t.committed, xmin);
    var n := |Below(t.committed, xmin)|;
    if e in t.committed && e.action.xactId < xmin {
      var i :| 0 <= i < |t.committed| && t.committed[i] == e;
      assert Below(t.committed, xmin)[i] == e;
    }
  }

  /** A row that is not below a transaction does not get below it by more rows being added after. */
  lemma BelowGrows(rows: seq<Entry>, more: seq<Entry>, xact: nat, later: nat)
    requires Sorted(rows) && Sorted(more) && xact <= later
    requires Below(rows, xact) <= more
    ensures Below(rows, xact) <= Below(more, later)
  {
    BelowSplits(rows, xact);
    BelowSplits(more, later);
    var n, m := |Below(rows, xact)|, |Below(more, later)|;
    hide Sorted, Below;
    var low := Below(rows, xact);
    assert forall i | 0 <= i < n :: more[i] == low[i] && low[i] == rows[i] && At(more[i]).xact < later;
    assert m < |more| ==> At(more[m]).xact >= later;
    assert n <= m;
    assert Below(more, later) == more[..m] && Below(rows, xact) == more[..n];
  }

  /** A commit puts its rows behind everything a read could already see. */
  lemma CommitIsBeyondFence(t: Tables, x: nat, xmin: nat)
    requires TablesOk(t) && IsXmin(t, xmin) && x in t.running
    ensures Below(t.committed, xmin) <= Commit(t, x).committed
  {
    BelowSplits(t.committed, xmin);
    BelowSplits(t.committed, x);
    var n, k := |Below(t.committed, xmin)|, |Below(t.committed, x)|;
    assert xmin <= x;
    assert n <= k by {
      assert k < |t.committed| ==> At(t.committed[k]).xact >= x;
    }
    assert Commit(t, x).committed[..n] == t.committed[..n];
  }

  lemma StepKeepsSettled(t: Tables, t': Tables, xmin: nat)
    requires TablesOk(t) && ServerStep(t, t') && IsXmin(t, xmin)
    ensures Below(t.committed, xmin) <= t'.committed
  {
    hide TablesOk, Commit;
    if x :| x in t.running && t' == Commit(t, x) {
      CommitIsBeyondFence(t, x, xmin);
    } else {
      SortedTables(t);
      BelowSplits(t.committed, xmin);
      hide Below;
      assert t'.committed == t.committed;
    }
  }

  lemma SortedTables(t: Tables)
    requires TablesOk(t)
    ensures Sorted(t.committed)
  {
  }

  /** What a read could see is a prefix of what it can see after any step. */
  lemma SettledOnlyGrows(t: Tables, t': Tables, xmin: nat, xmin': nat)
    requires TablesOk(t) && ServerStep(t, t')
    requires IsXmin(t, xmin) && IsXmin(t', xmin')
    ensures xmin <= xmin'
    ensures Below(t.committed, xmin) <= Below(t'.committed, xmin')
  {
    hide ServerStep, Below, TablesOk;
    StepCarries(t, t');
    StepKeepsSettled(t, t', xmin);
    assert xmin' in t'.running || xmin' == t'.nextXact;
    SortedTables(t);
    SortedTables(t');
    BelowGrows(t.committed, t'.committed, xmin, xmin');
  }

  /** There is always exactly one fence. */
  lemma {:induction false} XminExists(t: Tables) returns (xmin: nat)
    requires forall x | x in t.running :: x < t.nextXact
    ensures IsXmin(t, xmin)
    ensures forall y: nat | IsXmin(t, y) :: y == xmin
    decreases |t.running|
  {
    if t.running == map[] {
      xmin := t.nextXact;
    } else {
      var x :| x in t.running;
      var rest := t.(running := t.running - {x});
      assert rest.running.Keys < t.running.Keys;
      assert |rest.running| == |rest.running.Keys| && |t.running| == |t.running.Keys|;
      assert t.running.Keys == rest.running.Keys + {x};
      var y := XminExists(rest);
      xmin := Min(x, y);
      assert IsXmin(t, xmin);
    }
  }

  // ----- the invariant holds ------------------------------------------------------------------

  lemma ServerStepKeepsInv(w: World, w': World)
    requires Inv(w) && ServerStep(w.server, w'.server) && w'.client == w.client
    ensures Inv(w')
  {
    StepCarries(w.server, w'.server);
    hide ServerStep;
    forall e | e in w'.server.committed && e.visible && AtMost(At(e), w'.client.cursor)
      ensures e in w'.client.delivered
    {
      assert e in w.server.committed;
    }
  }

  /** A row at or below the end of a run is in the run or before it. */
  lemma RunCovers(rows: seq<Entry>, i: nat, j: nat, cursor: Position, e: Entry)
    requires Sorted(rows) && i < j <= |rows|
    requires forall k | 0 <= k < i :: AtMost(At(rows[k]), cursor)
    ensures e in rows[i..j] ==> e in rows
    ensures e in rows && AtMost(At(e), At(rows[j - 1])) ==> e in rows[i..j] || AtMost(At(e), cursor)
  {
    if e in rows && AtMost(At(e), At(rows[j - 1])) {
      var k :| 0 <= k < |rows| && rows[k] == e;
      assert k < j;
      if i <= k {
        assert rows[i..j][k - i] == e;
      }
    }
  }

  /** A page of settled rows: they are committed, and every committed row up to its end is in it or before it. */
  lemma PageCovers(t: Tables, xmin: nat, cursor: Position, n: nat, e: Entry)
    requires TablesOk(t) && IsXmin(t, xmin)
    requires 0 < n <= |After(Below(t.committed, xmin), cursor)|
    ensures var rest := After(Below(t.committed, xmin), cursor);
            && (e in rest[..n] ==> e in t.committed)
            && At(rest[n - 1]).xact < xmin
            && (e in t.committed && AtMost(At(e), At(rest[n - 1])) ==> e in rest[..n] || AtMost(At(e), cursor))
  {
    var log := Below(t.committed, xmin);
    SortedTables(t);
    BelowSplits(t.committed, xmin);
    assert Sorted(log);
    AfterSplits(log, cursor);
    var rest := After(log, cursor);
    var i := |log| - |rest|;
    hide Below, After, TablesOk, Sorted;
    assert forall k | 0 <= k < |log| :: log[k] == t.committed[k];
    assert rest[..n] == t.committed[i..i + n];
    assert rest[n - 1] == t.committed[i + n - 1];
    RunCovers(t.committed, i, i + n, cursor, e);
  }

  lemma DeltaReadKeepsInv(w: World, w': World)
    requires Inv(w) && DeltaRead(w, w')
    ensures Inv(w')
  {
    var log, n: nat :| IsSettled(w.server, log) && n <= |After(log, w.client.cursor)| && w' == ReadPage(w, log, n);
    var xmin: nat :| IsXmin(w.server, xmin) && log == Below(w.server.committed, xmin);
    hide After, Below, TablesOk;
    if n > 0 {
      forall e ensures var rest := After(log, w.client.cursor);
            && (e in rest[..n] ==> e in w.server.committed)
            && At(rest[n - 1]).xact < xmin
            && (e in w.server.committed && AtMost(At(e), At(rest[n - 1])) ==>
               e in rest[..n] || AtMost(At(e), w.client.cursor))
      {
        PageCovers(w.server, xmin, w.client.cursor, n, e);
      }
      assert At(After(log, w.client.cursor)[n - 1]).xact < xmin;
    }
  }

  lemma BootBeginsKeepsInv(w: World, w': World)
    requires Inv(w) && BootBegins(w, w')
    ensures Inv(w')
  {
    var log, xmin: nat :| && IsXmin(w.server, xmin) && log == Below(w.server.committed, xmin)
                          && w' == w.(client := w.client.(boot := Some(BootCursor(log, xmin))));
    BelowSplits(w.server.committed, xmin);
    if log != [] {
      assert log[|log| - 1] == w.server.committed[|log| - 1];
    }
    assert forall x | x in w.server.running :: RunningRows(w.server, x);
    hide Below, TablesOk;
  }

  lemma BootEndsKeepsInv(w: World, w': World)
    requires Inv(w) && BootEnds(w, w')
    ensures Inv(w')
  {
  }

  /** Every step of server or client keeps the invariant. */
  lemma NextKeepsInv(w: World, w': World)
    requires Inv(w) && Next(w, w')
    ensures Inv(w')
  {
    hide Inv, ServerStep, DeltaRead, BootBegins, BootEnds;
    if ServerStep(w.server, w'.server) && w'.client == w.client {
      ServerStepKeepsInv(w, w');
    } else if DeltaRead(w, w') {
      DeltaReadKeepsInv(w, w');
    } else if BootBegins(w, w') {
      BootBeginsKeepsInv(w, w');
    } else {
      BootEndsKeepsInv(w, w');
    }
  }

  /**
   * In every run, whatever the order transactions commit in, no committed visible row is ever left
   * behind the client's cursor, and no transaction that could still commit one is at or below it.
   */
  lemma {:induction false} NoRowIsSkipped(trace: seq<World>, i: nat)
    requires Run(trace) && i < |trace|
    ensures Inv(trace[i])
  {
    if i == 0 {
      assert trace[0].server == Tables(1, 1, map[], []);
    } else {
      NoRowIsSkipped(trace, i - 1);
      hide Inv, Next;
      NextKeepsInv(trace[i - 1], trace[i - 1 + 1]);
    }
  }

  lemma NothingAfterTheLast(log: seq<Entry>)
    requires Sorted(log) && log != []
    ensures After(log, At(log[|log| - 1])) == []
  {
    assert forall i | 0 <= i < |log| :: AtMost(At(log[i]), At(log[|log| - 1]));
    AfterIs(log, At(log[|log| - 1]), |log|);
    hide After;
  }

  lemma SettledIsSorted(t: Tables, xmin: nat)
    requires TablesOk(t)
    ensures Sorted(Below(t.committed, xmin)) && forall e | e in Below(t.committed, xmin) :: At(e).xact < xmin
  {
    assert Sorted(t.committed) by { hide Sorted, Below; }
    BelowSplits(t.committed, xmin);
    hide Below, TablesOk;
  }

  /**
   * A bootstrap's cursor stands right behind what is settled: none of that is read again, all the rest is,
   * and with nothing settled it still is not far behind.
   */
  lemma BootCursorIsTheEnd(w: World, log: seq<Entry>, xmin: nat)
    requires Inv(w) && IsXmin(w.server, xmin) && log == Below(w.server.committed, xmin) && xmin > 0
    ensures After(log, BootCursor(log, xmin)) == []
    ensures forall x: nat, id: nat | x >= xmin :: Before(BootCursor(log, xmin), Position(x, id))
    ensures log == [] ==> AtMost(Position(xmin - 1, 0), BootCursor(log, xmin))
  {
    assert TablesOk(w.server) by { hide TablesOk; }
    SettledIsSorted(w.server, xmin);
    hide Below, IsXmin, Inv, TablesOk, Sorted;
    if log != [] {
      NothingAfterTheLast(log);
      assert log[|log| - 1] in log;
      hide After;
    }
  }

  /** A read takes the rows of its page off what is left, and what it delivers is their visible part. */
  lemma ReadShortensWhatIsLeft(w: World, log: seq<Entry>, n: nat)
    requires Inv(w) && IsSettled(w.server, log) && n <= |After(log, w.client.cursor)|
    ensures var (rest, w') := (After(log, w.client.cursor), ReadPage(w, log, n));
            && After(log, w'.client.cursor) == rest[n..]
            && (n > 0 ==> Before(w.client.cursor, w'.client.cursor))
            && (forall e :: e in w'.client.delivered <==> e in w.client.delivered || (e in rest[..n] && e.visible))
            && w'.server == w.server
  {
    var xmin: nat :| IsXmin(w.server, xmin) && log == Below(w.server.committed, xmin);
    BelowSplits(w.server.committed, xmin);
    hide Inv, Below, After, IsXmin, IsSettled;
    var rest := After(log, w.client.cursor);
    if n > 0 {
      PageEnd(log, w.client.cursor, n);
      AfterPage(log, log, w.client.cursor, n);
      assert rest[..n][n - 1] == rest[n - 1];
    }
  }

  /** With nothing running and the cursor at the end, the client has exactly the visible rows. */
  lemma CaughtUpMeansComplete(w: World)
    requires Inv(w)
    requires forall e | e in w.server.committed :: AtMost(At(e), w.client.cursor)
    ensures w.client.delivered == set e | e in w.server.committed && e.visible
  {
  }

  // ----- the page contract --------------------------------------------------------------------

  ghost predicate ServerRun(tables: nat -> Tables) {
    && TablesOk(tables(0))
    && forall k: nat :: tables(k) == tables(k + 1) || ServerStep(tables(k), tables(k + 1))
  }

  lemma {:induction false} RunKeepsTables(tables: nat -> Tables, k: nat)
    requires ServerRun(tables)
    ensures TablesOk(tables(k))
  {
    if k > 0 {
      RunKeepsTables(tables, k - 1);
      assert tables(k - 1) == tables(k - 1 + 1) || ServerStep(tables(k - 1), tables(k - 1 + 1));
      hide TablesOk, ServerStep;
      if tables(k - 1) != tables(k) { StepCarries(tables(k - 1), tables(k)); }
    }
  }

  /** One step of the run, or none. */
  lemma StutterOnlyGrows(t: Tables, t': Tables, log: seq<Entry>, log': seq<Entry>)
    requires TablesOk(t) && (t == t' || ServerStep(t, t'))
    requires IsSettled(t, log) && IsSettled(t', log')
    ensures log <= log'
  {
    hide TablesOk, ServerStep, Below;
    var y: nat :| IsXmin(t, y) && log == Below(t.committed, y);
    var z: nat :| IsXmin(t', z) && log' == Below(t'.committed, z);
    if t == t' {
      XminIsUnique(t, y, z);
    } else {
      SettledOnlyGrows(t, t', y, z);
    }
  }

  lemma {:induction false} RunOnlyGrows(tables: nat -> Tables, logs: nat -> seq<Entry>, k: nat, m: nat)
    requires ServerRun(tables) && k <= m
    requires forall i: nat :: IsSettled(tables(i), logs(i))
    ensures logs(k) <= logs(m)
    decreases m
  {
    hide TablesOk, ServerStep, IsSettled;
    if k < m {
      RunOnlyGrows(tables, logs, k, m - 1);
      RunKeepsTables(tables, m - 1);
      assert tables(m - 1) == tables(m - 1 + 1) || ServerStep(tables(m - 1), tables(m - 1 + 1));
      StutterOnlyGrows(tables(m - 1), tables(m), logs(m - 1), logs(m));
    }
  }

  lemma XminIsUnique(t: Tables, y: nat, z: nat)
    requires IsXmin(t, y) && IsXmin(t, z)
    ensures y == z
  {
  }

  /**
   * The fence is what makes the page contract true: reads of a running server, at any moments, are
   * reads of one growing log, so the page loop's completeness applies to them.
   */
  lemma FencedServerIsHonest(tables: nat -> Tables, logs: nat -> seq<Entry>, net: Network)
    requires ServerRun(tables)
    requires forall i: nat :: IsSettled(tables(i), logs(i))
    requires forall k: nat, c: Position :: net(k, c) == Serve(logs(k), c)
    ensures Honest(net, logs)
  {
    forall k: nat ensures Sorted(logs(k)) {
      RunKeepsTables(tables, k);
      var y: nat :| IsXmin(tables(k), y) && logs(k) == Below(tables(k).committed, y);
      BelowSplits(tables(k).committed, y);
    }
    forall k: nat, m: nat | k <= m ensures logs(k) <= logs(m) {
      RunOnlyGrows(tables, logs, k, m);
    }
  }

  // ----- live batches -------------------------------------------------------------------------

  /** A pushed action is applied at once and moves the cursor to itself if it is further on. */
  function Push(w: World, e: Entry): World {
    w.(client := w.client.(cursor := Later(w.client.cursor, At(e)), delivered := w.client.delivered + {e}))
  }

  /** A pushed row that jumps over no undelivered row and over no transaction that can still commit. */
  ghost predicate JumpsOverNothing(w: World, e: Entry) {
    && (forall f | f in w.server.committed && f.visible && Before(At(f), At(e)) :: f in w.client.delivered)
    && (Before(w.client.cursor, At(e)) ==> forall x | x in w.server.running :: e.action.xactId < x)
  }

  /** A live push of a committed row keeps both promises exactly in that case. */
  lemma PushKeepsPromisesExactly(w: World, e: Entry)
    requires Inv(w) && e in w.server.committed && e.visible
    ensures NoSkip(Push(w, e)) && FenceHolds(Push(w, e)) <==> JumpsOverNothing(w, e)
  {
  }

  /** A push the client may take: of a row it may see, jumping over nothing. */
  ghost predicate GoodPush(w: World, w': World) {
    exists e :: e in w.server.committed && e.visible && JumpsOverNothing(w, e) && w' == Push(w, e)
  }

  lemma PushKeepsInv(w: World, w': World)
    requires Inv(w) && GoodPush(w, w')
    ensures Inv(w')
  {
    var e :| e in w.server.committed && e.visible && JumpsOverNothing(w, e) && w' == Push(w, e);
    PushKeepsPromisesExactly(w, e);
    hide JumpsOverNothing, TablesOk, FenceHolds;
  }

  ghost predicate RunWithPushes(trace: seq<World>) {
    && trace != [] && Init(trace[0])
    && forall i | 0 <= i < |trace| - 1 :: Next(trace[i], trace[i + 1]) || GoodPush(trace[i], trace[i + 1])
  }

  /** In every run in which pushes jump over nothing, nothing is skipped either. */
  lemma {:induction false} PushesSkipNothing(trace: seq<World>, i: nat)
    requires RunWithPushes(trace) && i < |trace|
    ensures Inv(trace[i])
  {
    if i == 0 {
      assert trace[0].server == Tables(1, 1, map[], []);
    } else {
      PushesSkipNothing(trace, i - 1);
      hide Inv, Next, GoodPush;
      assert Next(trace[i - 1], trace[i - 1 + 1]) || GoodPush(trace[i - 1], trace[i - 1 + 1]);
      if Next(trace[i - 1], trace[i]) {
        NextKeepsInv(trace[i - 1], trace[i]);
      } else {
        PushKeepsInv(trace[i - 1], trace[i]);
      }
    }
  }

  /** Two transactions, the second committed, the first still running with one row written. */
  function SlowAndFast(change: Change): Tables {
    var row, fast := Entry(SyncAction(1, 1, change), true), Entry(SyncAction(2, 2, change), true);
    Tables(3, 3, map[1 := [row]], [fast])
  }

  /** That state is reachable. */
  lemma SlowAndFastIsReached(change: Change)
    ensures SlowAndFast(change) ==
            Commit(Write(Begin(Write(Begin(Tables(1, 1, map[], [])), 1, change, true)), 2, change, true), 2)
  {
    var row, fast := Entry(SyncAction(1, 1, change), true), Entry(SyncAction(2, 2, change), true);
    var none: seq<Entry> := [];
    assert none + [row] == [row] && none + [fast] == [fast];
    var t2 := Write(Begin(Tables(1, 1, map[], [])), 1, change, true);
    assert t2.running == map[1 := [row]];
    assert t2 == Tables(2, 2, map[1 := [row]], []);
    var t4 := Write(Begin(t2), 2, change, true);
    assert t4.running == map[1 := [row], 2 := [fast]];
    assert t4 == Tables(3, 3, map[1 := [row], 2 := [fast]], []);
    assert t4.running - {2} == map[1 := [row]];
  }

  /** What goes wrong otherwise: a slow transaction's row, committed behind a pushed one, is never read. */
  lemma PushCanLoseARow(change: Change)
    ensures var w := World(SlowAndFast(change), Client(ZERO, {}, None));
            var row, fast := Entry(SyncAction(1, 1, change), true), Entry(SyncAction(2, 2, change), true);
            var late := World(Commit(w.server, 1), Push(w, fast).client);
            && Inv(w)
            && row in late.server.committed && row !in late.client.delivered
            && (forall log | Sorted(log) :: row !in After(log, late.client.cursor))
  {
    var t := SlowAndFast(change);
    var row := Entry(SyncAction(1, 1, change), true);
    assert forall y :: RunningRows(t, y);
    CommitMembers(t, 1, row);
    hide Commit;
    forall log | Sorted(log) ensures row !in After(log, Position(2, 2)) {
      AfterSplits(log, Position(2, 2));
    }
  }
}
