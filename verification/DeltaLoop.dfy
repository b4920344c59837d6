/**
 * The delta page loop (src/lib/sync-manager.ts:771-878) against the server's page contract
 * (src/lib/sync-config.ts:12-16 and the comments at src/lib/sync-manager.ts:843-849): rows in
 * cursor order, cut to a page, filtered for visibility after the cut, with `nextCursor` the end of
 * the page before filtering.
 */
module DeltaLoop {
  import opened Common
  import opened Positions
  import opened Rows
  import opened Replica

  const DELTA_PAGE_SIZE: nat := 5000
  const MAX_DELTA_PAGES: nat := 1_000_000 / DELTA_PAGE_SIZE

  // ----- the server's side --------------------------------------------------------------------

  /** A settled row of the action table: the action this client would receive, if it may see it. */
  datatype Entry = Entry(action: SyncAction, visible: bool)

  function At(e: Entry): Position { PositionOf(e.action) }

  /** The settled rows in cursor order. */
  predicate Sorted(log: seq<Entry>) {
    forall i, j | 0 <= i < j < |log| :: Before(At(log[i]), At(log[j]))
  }

  /** The rows beyond a cursor. */
  function After(log: seq<Entry>, cursor: Position): seq<Entry> {
    if log == [] then []
    else if AtMost(At(log[0]), cursor) then After(log[1..], cursor)
    else log
  }

  function Visible(entries: seq<Entry>): seq<SyncAction> {
    if entries == [] then []
    else (if entries[0].visible then [entries[0].action] else []) + Visible(entries[1..])
  }

  datatype Response =
    | Page(actions: seq<SyncAction>, hasMore: bool, nextCursor: Option<Position>)
    | NotOk      // HTTP error
    | Stale      // `staleCursor`: the rows needed have been pruned
    | Threw      // the request or its body failed
    | Stopped    // no request: `stop` came first

  function Serve(log: seq<Entry>, cursor: Position): Response {
    var rest := After(log, cursor);
    var page := rest[..Min(DELTA_PAGE_SIZE, |rest|)];
    Page(Visible(page), |rest| > DELTA_PAGE_SIZE, if page == [] then None else Some(At(page[|page| - 1])))
  }

  // ----- the client's side --------------------------------------------------------------------

  datatype Exit = CaughtUp | PageLimit | FellBack | Failed | Halted

  /** One `deltaSync`: cursors requested, batches handed to `applyActions`, last cursor, way out. */
  datatype Trace = Trace(requests: seq<Position>, handed: seq<seq<SyncAction>>, cursor: Position, exit: Exit)

  function MaxOf(p: Position, o: Option<Position>): Position {
    if o.Some? then Later(p, o.value) else p
  }

  /** The local cursor after a page: its own actions first, then the end of the unfiltered page. */
  function NextCursor(cursor: Position, res: Response): Position
    requires res.Page?
  {
    MaxOf(LaterOf(cursor, PositionsOf(res.actions)), res.nextCursor)
  }

  /** The network: what the server answers to the given page request with the given cursor. */
  type Network = (nat, Position) -> Response

  /** The loop from a page number and a local cursor on. Nothing else enters it. */
  function Loop(net: Network, page: nat, cursor: Position): Trace
    decreases MAX_DELTA_PAGES - page
  {
    if page >= MAX_DELTA_PAGES then Trace([], [], cursor, PageLimit)
    else
      var res := net(page, cursor);
      match res
      case NotOk => Trace([cursor], [], cursor, FellBack)
      case Stale => Trace([cursor], [], cursor, FellBack)
      case Threw => Trace([cursor], [], cursor, Failed)
      case Stopped => Trace([], [], cursor, Halted)
      case Page(actions, hasMore, nextCursor) =>
        var next := NextCursor(cursor, res);
        if actions == [] && nextCursor.None? then Trace([cursor], [], next, CaughtUp)
        else
          var batch := if actions == [] then [] else [actions];
          if !hasMore then Trace([cursor], batch, next, CaughtUp)
          else
            var rest := Loop(net, page + 1, next);
            Trace([cursor] + rest.requests, batch + rest.handed, rest.cursor, rest.exit)
  }

  function Flatten<T>(s: seq<seq<T>>): seq<T> {
    if s == [] then [] else s[0] + Flatten(s[1..])
  }

  lemma {:induction false} FlattenConcat<T>(a: seq<seq<T>>, b: seq<seq<T>>)
    ensures Flatten(a + b) == Flatten(a) + Flatten(b)
  {
    if a == [] {
      assert a + b == b;
    } else {
      assert (a + b)[1..] == a[1..] + b;
      FlattenConcat(a[1..], b);
    }
  }

  // ----- the contract -------------------------------------------------------------------------

  /** The server answers page `k` from the rows settled by then; settled rows only ever grow. */
  ghost predicate Honest(net: Network, logs: nat -> seq<Entry>) {
    && (forall k: nat, c: Position :: net(k, c) == Serve(logs(k), c))
    && (forall k: nat :: Sorted(logs(k)))
    && (forall k: nat, m: nat | k <= m :: logs(k) <= logs(m))
  }

  lemma {:induction false} VisibleConcat(a: seq<Entry>, b: seq<Entry>)
    ensures Visible(a + b) == Visible(a) + Visible(b)
  {
    if a == [] {
      assert a + b == b;
    } else {
      assert (a + b)[1..] == a[1..] + b && (a + b)[0] == a[0];
      VisibleConcat(a[1..], b);
      HeadFirst(if a[0].visible then [a[0].action] else [], Visible(a[1..]), Visible(b));
    }
  }

  lemma HeadFirst<T>(head: seq<T>, a: seq<T>, b: seq<T>)
    ensures head + (a + b) == (head + a) + b
  {
  }

  /** `After` splits a sorted log into the rows at or below the cursor and the rows beyond it. */
  lemma {:induction false} AfterSplits(log: seq<Entry>, cursor: Position)
    requires Sorted(log)
    ensures var n := |log| - |After(log, cursor)|;
            && 0 <= n
            && After(log, cursor) == log[n..]
            && (forall i | 0 <= i < n :: AtMost(At(log[i]), cursor))
            && (forall i | n <= i < |log| :: Before(cursor, At(log[i])))
  {
    if log != [] {
      if AtMost(At(log[0]), cursor) {
        AfterSplits(log[1..], cursor);
        var n := |log| - |After(log, cursor)|;
        assert forall i | 1 <= i < |log| :: log[1..][i - 1] == log[i];
      }
    }
  }

  /** The split point is determined by where the cursor falls. */
  lemma {:induction false} AfterIs(log: seq<Entry>, cursor: Position, n: nat)
    requires Sorted(log) && n <= |log|
    requires forall i | 0 <= i < n :: AtMost(At(log[i]), cursor)
    requires n < |log| ==> Before(cursor, At(log[n]))
    ensures After(log, cursor) == log[n..]
  {
    if n > 0 {
      AfterIs(log[1..], cursor, n - 1);
      assert log[1..][n - 1..] == log[n..];
    }
  }

  /** Cutting the later log at the end of a page of the earlier one leaves what the page did not hold. */
  lemma AfterPage(log: seq<Entry>, grown: seq<Entry>, cursor: Position, n: nat)
    requires Sorted(grown) && log <= grown
    requires 0 < n <= |After(log, cursor)|
    ensures n <= |After(grown, cursor)|
    ensures After(grown, cursor)[..n] == After(log, cursor)[..n]
    ensures After(grown, At(After(log, cursor)[n - 1])) == After(grown, cursor)[n..]
  {
    assert Sorted(log);
    AfterSplits(log, cursor);
    var i := |log| - |After(log, cursor)|;
    assert forall k | 0 <= k < |log| :: grown[k] == log[k];
    AfterIs(grown, cursor, i);
    AfterIs(grown, At(log[i + n - 1]), i + n);
  }

  lemma {:induction false} VisibleIsWithin(entries: seq<Entry>, a: SyncAction)
    requires a in Visible(entries)
    ensures exists e :: e in entries && e.action == a && e.visible
  {
    if entries[0].visible && entries[0].action == a {
      assert entries[0] in entries;
    } else {
      VisibleIsWithin(entries[1..], a);
    }
  }

  lemma PositionsWithin(page: seq<Entry>, last: Position)
    requires forall e | e in page :: AtMost(At(e), last)
    ensures forall q | q in PositionsOf(Visible(page)) :: AtMost(q, last)
  {
    hide Visible;
    var ps := PositionsOf(Visible(page));
    forall q | q in ps ensures AtMost(q, last) {
      var i :| 0 <= i < |ps| && ps[i] == q;
      assert Visible(page)[i] in Visible(page);
      VisibleIsWithin(page, Visible(page)[i]);
    }
  }

  lemma PageEnd(log: seq<Entry>, cursor: Position, n: nat)
    requires Sorted(log) && 0 < n <= |After(log, cursor)|
    ensures var page := After(log, cursor)[..n];
            Before(cursor, At(page[n - 1])) && forall e | e in page :: AtMost(At(e), At(page[n - 1]))
  {
    AfterSplits(log, cursor);
    hide After;
  }

  lemma NextIsEnd(cursor: Position, res: Response, end: Position)
    requires res.Page? && res.nextCursor == Some(end) && Before(cursor, end)
    requires forall q | q in PositionsOf(res.actions) :: AtMost(q, end)
    ensures NextCursor(cursor, res) == end
  {
    hide PositionsOf, LaterOf;
    LaterOfIsMaximum(cursor, PositionsOf(res.actions));
  }

  /** However much of a page is filtered away, the next cursor is the end of the page. */
  lemma HonestNextCursor(log: seq<Entry>, cursor: Position)
    requires Sorted(log)
    ensures var rest := After(log, cursor);
            var n := Min(DELTA_PAGE_SIZE, |rest|);
            NextCursor(cursor, Serve(log, cursor)) == if n == 0 then cursor else At(rest[n - 1])
  {
    var rest := After(log, cursor);
    var n := Min(DELTA_PAGE_SIZE, |rest|);
    if n == 0 {
      assert rest[..0] == [];
    } else {
      hide After, Visible, NextCursor, Sorted, LaterOf;
      PageEnd(log, cursor, n);
      PositionsWithin(rest[..n], At(rest[n - 1]));
      NextIsEnd(cursor, Serve(log, cursor), At(rest[n - 1]));
    }
  }

  // ----- completeness -------------------------------------------------------------------------

  /** Pages left, in rows. */
  function Room(page: nat): nat { if page < MAX_DELTA_PAGES then (MAX_DELTA_PAGES - page) * DELTA_PAGE_SIZE else 0 }

  /** The number of the last page requested. */
  function LastPage(t: Trace, page: nat): nat { if t.requests == [] then page else page + |t.requests| - 1 }

  /**
   * A loop against an honest server never falls back, requests a strictly increasing run of
   * cursors, and hands over, in order and once each, exactly the visible rows between its first
   * cursor and its last. When it stops because there is no more, those are all the visible rows
   * settled by its last request; when it stops at the page limit, they are the rows it had room for.
   */
  ghost predicate Complete(logs: nat -> seq<Entry>, page: nat, cursor: Position, t: Trace) {
    var rows := After(logs(LastPage(t, page)), cursor);
    && (t.exit == CaughtUp || t.exit == PageLimit)
    && t.requests != [] && t.requests[0] == cursor
    && LastPage(t, page) < MAX_DELTA_PAGES
    && Increasing(t.requests)
    && (t.exit == CaughtUp ==>
          && Flatten(t.handed) == Visible(rows)
          && t.cursor == (if rows == [] then cursor else At(rows[|rows| - 1])))
    && (t.exit == PageLimit ==>
          && LastPage(t, page) == MAX_DELTA_PAGES - 1
          && |rows| > Room(page) > 0
          && Flatten(t.handed) == Visible(rows[..Room(page)])
          && t.cursor == At(rows[Room(page) - 1]))
  }

  /** `applyActions` is called for a page only when something in it is visible. */
  function BatchOf(actions: seq<SyncAction>): (b: seq<seq<SyncAction>>)
    ensures Flatten(b) == actions
  {
    if actions == [] then [] else [actions]
  }

  /** One turn of the loop against an honest server. */
  lemma LoopTurn(net: Network, logs: nat -> seq<Entry>, page: nat, cursor: Position)
    requires Honest(net, logs) && page < MAX_DELTA_PAGES
    ensures var rest := After(logs(page), cursor);
            if |rest| <= DELTA_PAGE_SIZE then
              Loop(net, page, cursor) ==
              Trace([cursor], BatchOf(Visible(rest)), if rest == [] then cursor else At(rest[|rest| - 1]), CaughtUp)
            else
              var next := At(rest[DELTA_PAGE_SIZE - 1]);
              var t := Loop(net, page + 1, next);
              && Before(cursor, next)
              && Loop(net, page, cursor) ==
                 Trace([cursor] + t.requests, BatchOf(Visible(rest[..DELTA_PAGE_SIZE])) + t.handed, t.cursor, t.exit)
  {
    var log := logs(page);
    var rest := After(log, cursor);
    var res := net(page, cursor);
    assert res == Serve(log, cursor);
    HonestNextCursor(log, cursor);
    AfterSplits(log, cursor);
    hide After, NextCursor, Visible, Sorted, Honest;
    if |rest| <= DELTA_PAGE_SIZE {
      assert rest[..Min(DELTA_PAGE_SIZE, |rest|)] == rest;
    }
  }

  lemma HonestLogs(net: Network, logs: nat -> seq<Entry>, page: nat, m: nat)
    requires Honest(net, logs) && page <= m
    ensures Sorted(logs(page)) && Sorted(logs(m)) && logs(page) <= logs(m)
  {
  }

  /** The last page of a backlog completes it. */
  lemma LastTurnComplete(logs: nat -> seq<Entry>, page: nat, cursor: Position)
    requires page < MAX_DELTA_PAGES
    ensures var rest := After(logs(page), cursor);
            var end := if rest == [] then cursor else At(rest[|rest| - 1]);
            Complete(logs, page, cursor, Trace([cursor], BatchOf(Visible(rest)), end, CaughtUp))
  {
    hide After, Visible, Flatten;
  }

  /** At the page limit one full page was handed over. */
  lemma LimitTurnComplete(logs: nat -> seq<Entry>, page: nat, cursor: Position)
    requires page == MAX_DELTA_PAGES - 1 && |After(logs(page), cursor)| > DELTA_PAGE_SIZE
    ensures var rest := After(logs(page), cursor);
            var batch := BatchOf(Visible(rest[..DELTA_PAGE_SIZE]));
            Complete(logs, page, cursor, Trace([cursor], batch, At(rest[DELTA_PAGE_SIZE - 1]), PageLimit))
  {
    hide After, Visible, Flatten;
  }

  lemma LoopAtLimit(net: Network, page: nat, cursor: Position)
    requires page >= MAX_DELTA_PAGES
    ensures Loop(net, page, cursor) == Trace([], [], cursor, PageLimit)
  {
  }

  /** A turn that is not the last, in front of a loop that is complete. */
  lemma FullTurnComplete(net: Network, logs: nat -> seq<Entry>, page: nat, cursor: Position)
    requires Honest(net, logs) && page + 1 < MAX_DELTA_PAGES && |After(logs(page), cursor)| > DELTA_PAGE_SIZE
    requires var next := At(After(logs(page), cursor)[DELTA_PAGE_SIZE - 1]);
             Complete(logs, page + 1, next, Loop(net, page + 1, next))
    ensures Complete(logs, page, cursor, Loop(net, page, cursor))
  {
    hide Complete, Increasing, After, Visible, Flatten, Honest, Sorted, Loop;
    var rest := After(logs(page), cursor);
    LoopTurn(net, logs, page, cursor);
    var t := Loop(net, page, cursor);
    HonestLogs(net, logs, page, LastPage(t, page));
    CompleteStep(logs, page, cursor, BatchOf(Visible(rest[..DELTA_PAGE_SIZE])),
                 Loop(net, page + 1, At(rest[DELTA_PAGE_SIZE - 1])), t);
  }

  lemma {:induction false} LoopIsComplete(net: Network, logs: nat -> seq<Entry>, page: nat, cursor: Position)
    requires Honest(net, logs) && page < MAX_DELTA_PAGES
    ensures Complete(logs, page, cursor, Loop(net, page, cursor))
    decreases MAX_DELTA_PAGES - page
  {
    hide Complete, Increasing, After, Visible, Flatten, Honest, Sorted, Loop;
    var rest := After(logs(page), cursor);
    if |rest| > DELTA_PAGE_SIZE && page + 1 < MAX_DELTA_PAGES {
      LoopIsComplete(net, logs, page + 1, At(rest[DELTA_PAGE_SIZE - 1]));
      FullTurnComplete(net, logs, page, cursor);
    } else {
      LoopTurn(net, logs, page, cursor);
      if |rest| <= DELTA_PAGE_SIZE {
        LastTurnComplete(logs, page, cursor);
      } else {
        LoopAtLimit(net, page + 1, At(rest[DELTA_PAGE_SIZE - 1]));
        var batch := BatchOf(Visible(rest[..DELTA_PAGE_SIZE]));
        assert batch + [] == batch && [cursor] + [] == [cursor];
        LimitTurnComplete(logs, page, cursor);
      }
    }
  }

  lemma IncreasingCons(p: Position, ps: seq<Position>)
    requires Increasing(ps) && (ps != [] ==> Before(p, ps[0]))
    ensures Increasing([p] + ps)
  {
  }

  /** A full page in front of a complete rest is complete. */
  lemma CompleteStep(
      logs: nat -> seq<Entry>, page: nat, cursor: Position, batch: seq<seq<SyncAction>>, t': Trace, t: Trace)
    requires page + 1 < MAX_DELTA_PAGES
    requires Sorted(logs(page)) && Sorted(logs(LastPage(t, page))) && logs(page) <= logs(LastPage(t, page))
    requires |After(logs(page), cursor)| > DELTA_PAGE_SIZE
    requires var next := At(After(logs(page), cursor)[DELTA_PAGE_SIZE - 1]);
             && Before(cursor, next)
             && Complete(logs, page + 1, next, t')
    requires Flatten(batch) == Visible(After(logs(page), cursor)[..DELTA_PAGE_SIZE])
    requires t == Trace([cursor] + t'.requests, batch + t'.handed, t'.cursor, t'.exit)
    ensures Complete(logs, page, cursor, t)
  {
    var n := DELTA_PAGE_SIZE;
    var next := At(After(logs(page), cursor)[n - 1]);
    var m := LastPage(t, page);
    assert m == LastPage(t', page + 1);
    AfterPage(logs(page), logs(m), cursor, n);
    var front, rest := After(logs(m), cursor)[..n], After(logs(m), next);
    hide After, Sorted, Flatten, Visible;
    assert After(logs(m), cursor) == front + rest;
    FlattenConcat(batch, t'.handed);
    IncreasingCons(cursor, t'.requests);
    hide Increasing;
    VisibleConcat(front, rest);
    if t.exit == PageLimit {
      assert Room(page) == n + Room(page + 1);
      CutLate(front, rest, Room(page + 1));
      VisibleConcat(front, rest[..Room(page + 1)]);
    }
  }

  lemma CutLate<T>(front: seq<T>, rest: seq<T>, r: nat)
    requires 0 < r < |rest|
    ensures (front + rest)[..|front| + r] == front + rest[..r]
    ensures (front + rest)[|front| + r - 1] == rest[r - 1]
  {
  }

  /** A backlog of at most a million rows, counted up to the last request, always reaches the exit. */
  lemma BacklogIsDrained(net: Network, logs: nat -> seq<Entry>, cursor: Position)
    requires Honest(net, logs)
    requires |After(logs(MAX_DELTA_PAGES - 1), cursor)| <= 1_000_000
    ensures Loop(net, 0, cursor).exit == CaughtUp
  {
    hide Loop, After, Honest, Room, Visible, Flatten, Increasing;
    LoopIsComplete(net, logs, 0, cursor);
    RoomAtStart();
  }

  lemma RoomAtStart()
    ensures Room(0) == 1_000_000
  {
  }
}
