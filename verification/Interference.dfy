/**
 * The page loop while live batches are applied between its awaits (src/lib/sync-manager.ts:779-788
 * and 1331-1336).
 */
module Interference {
  import opened Common
  import opened Positions
  import opened Rows
  import opened Replica
  import opened Flush
  import opened DeltaLoop
  import opened Conflicts

  /**
   * What the socket brings: batch list `2 * p` is applied while request `p` is out, list `2 * p + 1`
   * while page `p` is being applied and flushed.
   */
  type Live = nat -> seq<seq<SyncAction>>

  /** Every batch applied during a loop, in order. */
  function Applied(net: Network, live: Live, page: nat, cursor: Position): seq<seq<SyncAction>>
    decreases MAX_DELTA_PAGES - page
  {
    if page >= MAX_DELTA_PAGES then []
    else
      var res := net(page, cursor);
      if res.Stopped? then []
      else if !res.Page? || (res.actions == [] && res.nextCursor.None?) then live(2 * page)
      else
        var now := live(2 * page) + if res.actions == [] then [] else [res.actions] + live(2 * page + 1);
        if !res.hasMore then now else now + Applied(net, live, page + 1, NextCursor(cursor, res))
  }

  /** Without a socket only the pages are applied. */
  lemma {:induction false} QuietLoop(net: Network, page: nat, cursor: Position)
    ensures Applied(net, _ => [], page, cursor) == Loop(net, page, cursor).handed
    decreases MAX_DELTA_PAGES - page
  {
    if page < MAX_DELTA_PAGES {
      var res := net(page, cursor);
      if res.Page? && !(res.actions == [] && res.nextCursor.None?) && res.hasMore {
        QuietLoop(net, page + 1, NextCursor(cursor, res));
      }
    }
  }

  /**
   * Every live action, when it is applied, is one the loop has yet to be served by its last
   * request, page `m`, or one of `tail`, all of which is to follow the loop. Settled is not enough:
   * an action the loop has been served already is not early any more.
   */
  ghost predicate LiveIsEarly(
      logs: nat -> seq<Entry>, m: nat, live: Live, tail: seq<SyncAction>, page: nat, cursor: Position)
    decreases m - page
  {
    && (forall a | a in Flatten(live(2 * page)) :: a in Visible(After(logs(m), cursor)) + tail)
    && var rest := After(logs(page), cursor);
       if rest == [] then true
       else
         var n := Min(DELTA_PAGE_SIZE, |rest|);
         var next := At(rest[n - 1]);
         && (Visible(rest[..n]) != [] ==>
               forall a | a in Flatten(live(2 * page + 1)) :: a in Visible(After(logs(m), next)) + tail)
         && (page < m ==> LiveIsEarly(logs, m, live, tail, page + 1, next))
  }

  lemma {:induction false} EarlyPrefix(x: seq<SyncAction>, d: seq<SyncAction>, s: seq<SyncAction>)
    requires EarlyDelivery(d, s) && forall a | a in x :: a in s
    ensures EarlyDelivery(x + d, s)
  {
    if x == [] {
      assert x + d == d;
    } else {
      assert (x + d)[1..] == x[1..] + d;
      EarlyPrefix(x[1..], d, s);
    }
  }

  lemma {:induction false} SharedPrefix(p: seq<SyncAction>, d: seq<SyncAction>, s: seq<SyncAction>)
    requires EarlyDelivery(d, s)
    ensures EarlyDelivery(p + d, p + s)
  {
    if p == [] {
      assert p + d == d && p + s == s;
    } else {
      assert (p + d)[1..] == p[1..] + d && (p + s)[1..] == p[1..] + s;
      SharedPrefix(p[1..], d, s);
    }
  }

  /** One turn of `Applied` against an honest server. */
  lemma AppliedTurn(net: Network, logs: nat -> seq<Entry>, live: Live, page: nat, cursor: Position)
    requires Honest(net, logs) && page < MAX_DELTA_PAGES
    ensures var rest := After(logs(page), cursor);
            var n := Min(DELTA_PAGE_SIZE, |rest|);
            var seen := Visible(rest[..n]);
            Applied(net, live, page, cursor) ==
              live(2 * page)
              + (if seen == [] then [] else [seen] + live(2 * page + 1))
              + if |rest| <= DELTA_PAGE_SIZE then [] else Applied(net, live, page + 1, At(rest[n - 1]))
  {
    var log := logs(page);
    var res := net(page, cursor);
    assert res == Serve(log, cursor);
    HonestNextCursor(log, cursor);
    hide After, NextCursor, Visible, Sorted, Honest;
    var rest := After(log, cursor);
    if rest == [] {
      assert rest[..0] == [] && Visible([]) == [] by { NothingVisible(); }
    }
  }

  lemma NothingVisible()
    ensures Visible([]) == []
  {
  }

  /** The actions of one turn, in the order they are applied, in front of those of the next turns. */
  lemma FlatTurn(net: Network, logs: nat -> seq<Entry>, live: Live, page: nat, cursor: Position)
    requires Honest(net, logs) && page < MAX_DELTA_PAGES
    ensures var rest := After(logs(page), cursor);
            var n := Min(DELTA_PAGE_SIZE, |rest|);
            var seen := Visible(rest[..n]);
            var tail := if |rest| <= DELTA_PAGE_SIZE then [] else Applied(net, live, page + 1, At(rest[n - 1]));
            Flatten(Applied(net, live, page, cursor)) ==
            Flatten(live(2 * page)) + (if seen == [] then [] else seen + Flatten(live(2 * page + 1))) + Flatten(tail)
  {
    var rest := After(logs(page), cursor);
    var n := Min(DELTA_PAGE_SIZE, |rest|);
    var seen := Visible(rest[..n]);
    AppliedTurn(net, logs, live, page, cursor);
    var tail := if |rest| <= DELTA_PAGE_SIZE then [] else Applied(net, live, page + 1, At(rest[n - 1]));
    var mid := if seen == [] then [] else [seen] + live(2 * page + 1);
    hide Applied, After, Honest, Visible;
    FlattenConcat(live(2 * page) + mid, tail);
    FlattenConcat(live(2 * page), mid);
  }

  lemma {:induction false} EarlyAlongTheLoop(
      net: Network, logs: nat -> seq<Entry>, live: Live, tail: seq<SyncAction>, page: nat, m: nat, cursor: Position)
    requires Honest(net, logs) && page <= m < MAX_DELTA_PAGES
    requires m == LastPage(Loop(net, page, cursor), page)
    requires Loop(net, page, cursor).exit == CaughtUp
    requires LiveIsEarly(logs, m, live, tail, page, cursor)
    ensures EarlyDelivery(Flatten(Applied(net, live, page, cursor)) + tail, Visible(After(logs(m), cursor)) + tail)
    decreases m - page
  {
    hide Applied, Loop, After, Visible, LiveIsEarly, Flatten, EarlyDelivery, LastPage;
    var rest := After(logs(page), cursor);
    if |rest| > DELTA_PAGE_SIZE {
      var next := At(rest[DELTA_PAGE_SIZE - 1]);
      LoopGoesOn(net, logs, page, cursor);
      LoopIsComplete(net, logs, page + 1, next);
      LastPageAtLeast(Loop(net, page + 1, next), page + 1);
      EarlyTurn(logs, m, live, tail, page, cursor);
      EarlyAlongTheLoop(net, logs, live, tail, page + 1, m, next);
      FlatTurn(net, logs, live, page, cursor);
      StreamSplit(logs(page), logs(m), cursor, DELTA_PAGE_SIZE);
      hide Honest;
      MixIsEarly(Flatten(live(2 * page)), Visible(rest[..DELTA_PAGE_SIZE]), Flatten(live(2 * page + 1)),
                 Flatten(Applied(net, live, page + 1, next)), Visible(After(logs(m), next)), tail);
    } else {
      LastTurn(net, logs, live, tail, page, m, cursor);
    }
  }

  lemma LastPageAtLeast(t: Trace, page: nat)
    ensures LastPage(t, page) >= page
  {
  }

  /** The hypothesis on the socket, for a turn that is not the last. */
  lemma EarlyTurn(logs: nat -> seq<Entry>, m: nat, live: Live, tail: seq<SyncAction>, page: nat, cursor: Position)
    requires LiveIsEarly(logs, m, live, tail, page, cursor)
    requires page < m && |After(logs(page), cursor)| > DELTA_PAGE_SIZE
    ensures var rest := After(logs(page), cursor);
            var next := At(rest[DELTA_PAGE_SIZE - 1]);
            && (forall a | a in Flatten(live(2 * page)) :: a in Visible(After(logs(m), cursor)) + tail)
            && (Visible(rest[..DELTA_PAGE_SIZE]) != [] ==>
                  forall a | a in Flatten(live(2 * page + 1)) :: a in Visible(After(logs(m), next)) + tail)
            && LiveIsEarly(logs, m, live, tail, page + 1, next)
  {
  }

  lemma LastTurn(
      net: Network, logs: nat -> seq<Entry>, live: Live, tail: seq<SyncAction>, page: nat, m: nat, cursor: Position)
    requires Honest(net, logs) && page <= m < MAX_DELTA_PAGES
    requires m == LastPage(Loop(net, page, cursor), page)
    requires LiveIsEarly(logs, m, live, tail, page, cursor)
    requires |After(logs(page), cursor)| <= DELTA_PAGE_SIZE
    ensures EarlyDelivery(Flatten(Applied(net, live, page, cursor)) + tail, Visible(After(logs(m), cursor)) + tail)
  {
    LoopTurn(net, logs, page, cursor);
    assert m == page;
    FlatLast(net, logs, live, page, cursor);
    var rest := After(logs(page), cursor);
    var before, after, seen := Flatten(live(2 * page)), Flatten(live(2 * page + 1)), Visible(rest);
    if rest != [] {
      LastRows(logs(page), cursor);
    }
    assert EarlyDelivery([], []);
    hide After, Applied, Loop, Visible, Flatten, Honest;
    assert seen + [] == seen && [] + tail == tail;
    StreamDeliversItself(tail);
    NothingAfter(before + if seen == [] then [] else seen + after);
    MixIsEarly(before, seen, after, [], [], tail);
  }

  /** What a client sees beyond its cursor: the rest of the page, then what lies beyond the page. */
  lemma StreamSplit(log: seq<Entry>, grown: seq<Entry>, cursor: Position, n: nat)
    requires Sorted(grown) && log <= grown && 0 < n <= |After(log, cursor)|
    ensures Visible(After(grown, cursor)) ==
            Visible(After(log, cursor)[..n]) + Visible(After(grown, At(After(log, cursor)[n - 1])))
  {
    AfterPage(log, grown, cursor, n);
    hide After, Visible;
    var rows := After(grown, cursor);
    VisibleConcat(rows[..n], rows[n..]);
    assert rows[..n] + rows[n..] == rows;
  }

  /** Nothing lies beyond the last row. */
  lemma LastRows(log: seq<Entry>, cursor: Position)
    requires Sorted(log) && After(log, cursor) != []
    ensures var rest := After(log, cursor); Visible(After(log, At(rest[|rest| - 1]))) == []
  {
    var rest := After(log, cursor);
    AfterPage(log, log, cursor, |rest|);
    assert rest[|rest|..] == [];
  }

  /** A loop that has more to fetch ends on the same page as its next turn. */
  lemma LoopGoesOn(net: Network, logs: nat -> seq<Entry>, page: nat, cursor: Position)
    requires Honest(net, logs) && page < MAX_DELTA_PAGES
    requires |After(logs(page), cursor)| > DELTA_PAGE_SIZE
    requires Loop(net, page, cursor).exit == CaughtUp
    ensures var next := At(After(logs(page), cursor)[DELTA_PAGE_SIZE - 1]);
            && page + 1 < MAX_DELTA_PAGES
            && Loop(net, page + 1, next).exit == CaughtUp
            && LastPage(Loop(net, page + 1, next), page + 1) == LastPage(Loop(net, page, cursor), page)
  {
    LoopTurn(net, logs, page, cursor);
    var next := At(After(logs(page), cursor)[DELTA_PAGE_SIZE - 1]);
    if page + 1 < MAX_DELTA_PAGES {
      LoopIsComplete(net, logs, page + 1, next);
    }
  }

  lemma MixIsEarly(
      before: seq<SyncAction>, seen: seq<SyncAction>, after: seq<SyncAction>, rest: seq<SyncAction>,
      remaining: seq<SyncAction>, tail: seq<SyncAction>)
    requires EarlyDelivery(rest + tail, remaining + tail)
    requires forall a | a in before :: a in seen + remaining + tail
    requires seen != [] ==> forall a | a in after :: a in remaining + tail
    ensures EarlyDelivery(before + (if seen == [] then [] else seen + after) + rest + tail, seen + remaining + tail)
  {
    hide EarlyDelivery;
    if seen == [] {
      assert seen + remaining + tail == remaining + tail && before + [] + rest + tail == before + (rest + tail);
      EarlyPrefix(before, rest + tail, remaining + tail);
    } else {
      EarlyPrefix(after, rest + tail, remaining + tail);
      SharedPrefix(seen, after + (rest + tail), remaining + tail);
      assert seen + (remaining + tail) == seen + remaining + tail;
      EarlyPrefix(before, seen + (after + (rest + tail)), seen + remaining + tail);
      assert before + (seen + after) + rest + tail == before + (seen + (after + (rest + tail)));
    }
  }

  /** The rows the loop's last request could see. */
  function Backlog(net: Network, logs: nat -> seq<Entry>, cursor: Position): seq<SyncAction> {
    Visible(After(logs(LastPage(Loop(net, 0, cursor), 0)), cursor))
  }

  /**
   * Live batches that run ahead of the loop cannot make it miss anything: if it has yet to be served
   * all they carry, memory ends exactly where the backlog alone would have taken it. What it will
   * not be served any more may come in between as well, if all of it follows once more.
   */
  lemma LiveBatchesAreAbsorbed(
      me: Option<Id>, s: Memory, net: Network, logs: nat -> seq<Entry>, live: Live, tail: seq<SyncAction>,
      cursor: Position)
    requires Honest(net, logs)
    requires Loop(net, 0, cursor).exit == CaughtUp
    requires LiveIsEarly(logs, LastPage(Loop(net, 0, cursor), 0), live, tail, 0, cursor)
    requires AllWellFormed(Backlog(net, logs, cursor) + tail)
    ensures ApplyAll(me, ApplyAll(me, s, Flatten(Applied(net, live, 0, cursor))), tail)
            == ApplyAll(me, s, Backlog(net, logs, cursor) + tail)
    ensures tail == [] ==>
              ApplyAll(me, s, Flatten(Applied(net, live, 0, cursor))) == ApplyAll(me, s, Backlog(net, logs, cursor))
  {
    LoopIsComplete(net, logs, 0, cursor);
    var m := LastPage(Loop(net, 0, cursor), 0);
    EarlyAlongTheLoop(net, logs, live, tail, 0, m, cursor);
    hide Loop, Applied, After, Visible, LiveIsEarly, Honest, EarlyDelivery;
    var delivered, backlog := Flatten(Applied(net, live, 0, cursor)), Backlog(net, logs, cursor);
    EarlyDeliveryAbsorbed(me, s, delivered + tail, backlog + tail);
    hide Backlog, Flatten;
    ApplyAllConcat(me, s, delivered, tail);
    assert tail == [] ==> delivered + tail == delivered && backlog + tail == backlog;
  }

  // ----- live batches that do not run ahead ---------------------------------------------------

  /** The batches of one turn, handed over and applied, in front of those of the next turns. */
  lemma TurnHands(net: Network, live: Live, page: nat, cursor: Position)
    requires Loop(net, page, cursor).handed != []
    ensures page < MAX_DELTA_PAGES && net(page, cursor).Page?
    ensures var res := net(page, cursor);
            var next := NextCursor(cursor, res);
            var batch := if res.actions == [] then [] else [res.actions];
            var now := live(2 * page) + if res.actions == [] then [] else [res.actions] + live(2 * page + 1);
            if res.hasMore then
              && Loop(net, page, cursor).handed == batch + Loop(net, page + 1, next).handed
              && Applied(net, live, page, cursor) == now + Applied(net, live, page + 1, next)
            else Loop(net, page, cursor).handed == batch && Applied(net, live, page, cursor) == now
  {
    hide NextCursor;
  }

  lemma {:induction false} HandedIsApplied(net: Network, live: Live, page: nat, cursor: Position, a: SyncAction)
    requires a in Flatten(Loop(net, page, cursor).handed)
    ensures a in Flatten(Applied(net, live, page, cursor))
    decreases MAX_DELTA_PAGES - page
  {
    TurnHands(net, live, page, cursor);
    var res := net(page, cursor);
    NowHolds(live(2 * page), res.actions, live(2 * page + 1));
    hide NextCursor, Loop, Applied, Flatten;
    if res.hasMore {
      var next := NextCursor(cursor, res);
      var now := live(2 * page) + if res.actions == [] then [] else [res.actions] + live(2 * page + 1);
      FlattenConcat(if res.actions == [] then [] else [res.actions], Loop(net, page + 1, next).handed);
      FlattenConcat(now, Applied(net, live, page + 1, next));
      if a in Flatten(Loop(net, page + 1, next).handed) {
        HandedIsApplied(net, live, page + 1, next, a);
      }
    }
  }

  lemma NowHolds(before: seq<seq<SyncAction>>, actions: seq<SyncAction>, after: seq<seq<SyncAction>>)
    ensures var batch := if actions == [] then [] else [actions];
            var now := before + if actions == [] then [] else [actions] + after;
            forall a | a in Flatten(batch) :: a in Flatten(now)
  {
    FlattenConcat(before, if actions == [] then [] else [actions] + after);
    FlattenConcat([actions], after);
  }

  /**
   * Whatever the socket brings and whenever: an action ahead of the loop, one it has applied already,
   * one that its last request does not see. `tail` lists the last kind in order. The rows are those
   * of the backlog and the tail exactly if every row has the same last word in both.
   */
  lemma LiveMattersExactly(
      me: Option<Id>, own: Id -> ValueKey, s: Memory, net: Network, logs: nat -> seq<Entry>, live: Live,
      tail: seq<SyncAction>, later: seq<SyncAction>, cursor: Position)
    requires Honest(net, logs) && Loop(net, 0, cursor).exit == CaughtUp
    requires OwnedValues(own, s.values) && GoodBatch(own, Backlog(net, logs, cursor) + tail) && GoodBatch(own, later)
    requires forall a | a in Flatten(Applied(net, live, 0, cursor)) :: a in Backlog(net, logs, cursor) + tail
    requires forall a | a in tail :: a in Flatten(Applied(net, live, 0, cursor))
    ensures ApplyAll(me, s, Flatten(Applied(net, live, 0, cursor)) + later)
            == ApplyAll(me, s, Backlog(net, logs, cursor) + tail + later)
            <==> SameWords(me, Flatten(Applied(net, live, 0, cursor)) + later,
                Backlog(net, logs, cursor) + tail + later)
  {
    LoopIsComplete(net, logs, 0, cursor);
    hide Applied, Loop, After, Visible, Honest, ApplyAll, SameWords, OwnedValues, GoodChange, Flatten;
    var applied, backlog := Flatten(Applied(net, live, 0, cursor)), Backlog(net, logs, cursor);
    forall a | a in backlog ensures a in applied {
      HandedIsApplied(net, live, 0, cursor, a);
    }
    hide Backlog, Complete;
    DeliveryMattersExactly(me, own, s, applied + later, backlog + tail + later);
  }

  /**
   * `echo` repeats actions the loop has applied, before it goes on with `rest`. The rows are right
   * exactly if none goes back: none that the echo leaves otherwise than it was left by what was seen,
   * with nothing after the echo to cover that.
   */
  lemma EchoMattersToTheLoopExactly(
      me: Option<Id>, own: Id -> ValueKey, s: Memory, net: Network, logs: nat -> seq<Entry>, live: Live,
      cursor: Position,
      seen: seq<SyncAction>, echo: seq<SyncAction>, rest: seq<SyncAction>, later: seq<SyncAction>)
    requires Flatten(Applied(net, live, 0, cursor)) == seen + echo + rest && forall a | a in echo :: a in seen
    requires EarlyDelivery(seen + rest, Backlog(net, logs, cursor)) && AllWellFormed(Backlog(net, logs, cursor))
    requires OwnedValues(own, s.values) && GoodBatch(own, seen) && GoodBatch(own, rest) && GoodBatch(own, later)
    ensures ApplyAll(me, s, Flatten(Applied(net, live, 0, cursor)) + later)
            == ApplyAll(me, s, Backlog(net, logs, cursor) + later)
            <==> !GoBack(me, seen, echo, rest + later)
  {
    hide Applied, Flatten, Backlog, ApplyAll, EarlyDelivery, GoBack, GoodChange, OwnedValues, AllWellFormed;
    var backlog := Backlog(net, logs, cursor);
    EarlyDeliveryAbsorbed(me, s, seen + rest, backlog);
    assert seen + echo + rest + later == seen + echo + (rest + later);
    assert seen + rest + later == seen + (rest + later);
    ApplyAllConcat(me, s, seen + rest, later);
    ApplyAllConcat(me, s, backlog, later);
    EchoMattersExactly(me, own, s, seen, echo, rest + later);
  }

  /**
   * `late` was pushed between what the loop applied as `first` and as `rest`; its last request does
   * not see it, so the loop does not bring it again. The rows are right exactly if no row clashes:
   * none on which the older actions applied over it and the push disagree.
   */
  lemma LatePushExactly(
      me: Option<Id>, own: Id -> ValueKey, s: Memory, net: Network, logs: nat -> seq<Entry>, live: Live,
      cursor: Position,
      first: seq<SyncAction>, late: seq<SyncAction>, rest: seq<SyncAction>, later: seq<SyncAction>)
    requires Flatten(Applied(net, live, 0, cursor)) == first + late + rest
    requires forall a | a in late :: a !in Backlog(net, logs, cursor)
    requires EarlyDelivery(first + rest, Backlog(net, logs, cursor)) && AllWellFormed(Backlog(net, logs, cursor))
    requires OwnedValues(own, s.values)
    requires GoodBatch(own, first) && GoodBatch(own, late) && GoodBatch(own, rest) && GoodBatch(own, later)
    ensures ApplyAll(me, s, Flatten(Applied(net, live, 0, cursor)) + later)
            == ApplyAll(me, s, Backlog(net, logs, cursor) + late + later)
            <==> !Clashes(me, rest, late, later)
  {
    hide Applied, Flatten, Backlog, ApplyAll, EarlyDelivery, Clashes, GoodBatch, OwnedValues, AllWellFormed;
    var backlog := Backlog(net, logs, cursor);
    var mid := ApplyAll(me, s, first);
    ValuesStayOwnedAll(me, own, s, first);
    EarlyDeliveryAbsorbed(me, s, first + rest, backlog);
    assert first + late + rest + later == first + (late + rest + later);
    assert backlog + late + later == backlog + (late + later);
    assert rest + late + later == rest + (late + later);
    ApplyAllConcat(me, s, first, late + rest + later);
    ApplyAllConcat(me, s, backlog, late + later);
    ApplyAllConcat(me, s, first, rest);
    ApplyAllConcat(me, mid, rest, late + later);
    OrderMattersExactly(me, own, mid, rest, late, later);
  }

  // ----- two ways to overwrite a newer row ----------------------------------------------------

  /** A server that has settled just these rows, and a socket that pushes one action at one await. */
  function Settled(log: seq<Entry>): nat -> seq<Entry> { (p: nat) => log }

  function Answers(log: seq<Entry>): Network { (p: nat, c: Position) => Serve(log, c) }

  function Pushed(slot: nat, a: SyncAction): Live { (p: nat) => if p == slot then [[a]] else [] }

  lemma SettledIsHonest(log: seq<Entry>)
    requires Sorted(log)
    ensures Honest(Answers(log), Settled(log))
  {
  }

  /** A loop whose one page is the whole log. */
  lemma WholeLog(net: Network, logs: nat -> seq<Entry>, log: seq<Entry>)
    requires Honest(net, logs) && logs(0) == log && 0 < |log| <= DELTA_PAGE_SIZE && After(log, ZERO) == log
    ensures var t := Loop(net, 0, ZERO);
            t.exit == CaughtUp && t.cursor == At(log[|log| - 1]) && Backlog(net, logs, ZERO) == Visible(log)
  {
    LoopTurn(net, logs, 0, ZERO);
    hide Loop, After, Visible, Honest, Sorted;
  }

  /** The actions of a last turn, in the order they are applied. */
  lemma FlatLast(net: Network, logs: nat -> seq<Entry>, live: Live, page: nat, cursor: Position)
    requires Honest(net, logs) && page < MAX_DELTA_PAGES && |After(logs(page), cursor)| <= DELTA_PAGE_SIZE
    ensures var seen := Visible(After(logs(page), cursor));
            Flatten(Applied(net, live, page, cursor)) ==
            Flatten(live(2 * page)) + if seen == [] then [] else seen + Flatten(live(2 * page + 1))
  {
    FlatTurn(net, logs, live, page, cursor);
    WholeOf(After(logs(page), cursor));
    assert Flatten<SyncAction>([]) == [];
    hide *;
    var seen := Visible(After(logs(page), cursor));
    NothingAfter(Flatten(live(2 * page)) + if seen == [] then [] else seen + Flatten(live(2 * page + 1)));
  }

  lemma WholeLogApplied(net: Network, logs: nat -> seq<Entry>, live: Live, log: seq<Entry>)
    requires Honest(net, logs) && logs(0) == log && 0 < |log| <= DELTA_PAGE_SIZE && After(log, ZERO) == log
    requires Visible(log) != []
    ensures Flatten(Applied(net, live, 0, ZERO)) == Flatten(live(0)) + (Visible(log) + Flatten(live(1)))
  {
    hide Applied, After, Visible, Honest, Flatten;
    FlatLast(net, logs, live, 0, ZERO);
  }

  lemma WholeOf<T>(s: seq<T>)
    ensures s[..|s|] == s
  {
  }

  lemma NothingAfter<T>(s: seq<T>)
    ensures s + [] == s
  {
  }

  lemma PushFlattened(log: seq<Entry>, slot: nat, a: SyncAction)
    requires slot < 2
    ensures Flatten(Pushed(slot, a)(0)) + (Visible(log) + Flatten(Pushed(slot, a)(1)))
            == if slot == 0 then [a] + Visible(log) else Visible(log) + [a]
  {
    var live := Pushed(slot, a);
    assert Flatten([[a]]) == [a] + Flatten([]) && Flatten<SyncAction>([]) == [];
    assert Flatten(live(0)) == (if slot == 0 then [a] else []) && Flatten(live(1)) == if slot == 1 then [a] else [];
  }

  lemma PushedAt(log: seq<Entry>, slot: nat, a: SyncAction)
    requires Sorted(log) && slot < 2
    requires 0 < |log| <= DELTA_PAGE_SIZE && Before(ZERO, At(log[0])) && Visible(log) != []
    ensures var (net, logs, live) := (Answers(log), Settled(log), Pushed(slot, a));
            && Honest(net, logs) && Loop(net, 0, ZERO).exit == CaughtUp
            && Loop(net, 0, ZERO).cursor == At(log[|log| - 1])
            && Backlog(net, logs, ZERO) == Visible(log)
            && Flatten(Applied(net, live, 0, ZERO)) == if slot == 0 then [a] + Visible(log) else Visible(log) + [a]
  {
    var (net, logs, live) := (Answers(log), Settled(log), Pushed(slot, a));
    SettledIsHonest(log);
    AfterIs(log, ZERO, 0);
    assert log[0..] == log && logs(0) == log;
    hide *;
    WholeLog(net, logs, log);
    WholeLogApplied(net, logs, live, log);
    PushFlattened(log, slot, a);
  }

  lemma TwoApplied(me: Option<Id>, s: Memory, a: SyncAction, b: SyncAction)
    ensures ApplyAll(me, s, [a, b]) == ApplyChange(me, ApplyChange(me, s, a.change), b.change)
  {
    hide ApplyChange;
    assert [a, b][1..] == [b] && [b][1..] == [];
    assert ApplyAll(me, s, [a, b]) == ApplyAll(me, ApplyChange(me, s, a.change), [b]);
  }

  /** Two writes of one row, the newer one alone in the end, or the older one once more after it. */
  lemma OlderWriteLast(me: Option<Id>, model: string, older: Row, newer: Row, start: Memory)
    requires older.id == newer.id && model !in PERSONAL_MODELS
    ensures var (x, y, k) := (PoolWrite(1, model, older), PoolWrite(2, model, newer), PoolKey(model, newer.id));
            && Cell(ApplyAll(me, start, [y, x]).pools, k) == Some(older)
            && Cell(ApplyAll(me, start, [x, y]).pools, k) == Some(newer)
            && LaterOf(ZERO, PositionsOf([y, x])) == PositionOf(y)
            && LaterOf(ZERO, PositionsOf([x, y, x])) == PositionOf(y)
            && After([Entry(x, true), Entry(y, true)], PositionOf(y)) == []
  {
    var (x, y) := (PoolWrite(1, model, older), PoolWrite(2, model, newer));
    TwoApplied(me, start, y, x);
    TwoApplied(me, start, x, y);
    AfterIs([Entry(x, true), Entry(y, true)], PositionOf(y), 2);
    hide ApplyAll, After;
    assert PositionsOf([y, x]) == [Position(2, 2), Position(1, 1)];
    assert PositionsOf([x, y, x]) == [Position(1, 1)] + PositionsOf([y, x]);
    LaterOfConcat(ZERO, [Position(1, 1)], PositionsOf([y, x]));
    assert [Position(2, 2), Position(1, 1)][1..] == [Position(1, 1)] && [Position(1, 1)][1..] == [];
  }

  /**
   * Such a push is lost: it comes before the page with an older write of its row, while the fence
   * still hides it from the server's answer. The loop ends caught up and hands over what it was
   * asked for, the shared cursor stands on the push, nothing lies beyond it once it settles, and
   * the row keeps the older write.
   */
  lemma LatePushIsLost(me: Option<Id>, model: string, older: Row, newer: Row)
    requires older.id == newer.id && older != newer && model !in PERSONAL_MODELS
    ensures var (x, z, k) := (PoolWrite(1, model, older), PoolWrite(2, model, newer), PoolKey(model, newer.id));
            && (exists net: Network, logs: nat -> seq<Entry>, live: Live ::
                  && Honest(net, logs) && Loop(net, 0, ZERO).exit == CaughtUp
                  && Loop(net, 0, ZERO).cursor == PositionOf(x)
                  && Backlog(net, logs, ZERO) == [x] && Flatten(Applied(net, live, 0, ZERO)) == [z, x])
            && LaterOf(ZERO, PositionsOf([z, x])) == PositionOf(z)
            && After([Entry(x, true), Entry(z, true)], PositionOf(z)) == []
            && Cell(ApplyAll(me, EMPTY, [z, x]).pools, k) == Some(older)
            && Cell(ApplyAll(me, EMPTY, [x, z]).pools, k) == Some(newer)
  {
    var (x, z) := (PoolWrite(1, model, older), PoolWrite(2, model, newer));
    OlderWriteLast(me, model, older, newer, EMPTY);
    var log := [Entry(x, true)];
    assert Visible(log) == [x] && At(log[|log| - 1]) == PositionOf(x) && Before(ZERO, At(log[0])) && Sorted(log);
    hide *;
    PushedAt(log, 0, z);
    assert [z] + [x] == [z, x];
  }

  /**
   * An echo takes a row back: a page brings two writes of it, and a frame with the first of them,
   * applied as it comes, is applied after the page. Both writes are settled, the loop ends caught up
   * at the second, nothing lies beyond it, and the row keeps the first.
   */
  lemma EchoOverwrites(me: Option<Id>, model: string, older: Row, newer: Row)
    requires older.id == newer.id && older != newer && model !in PERSONAL_MODELS
    ensures var (x, y, k) := (PoolWrite(1, model, older), PoolWrite(2, model, newer), PoolKey(model, newer.id));
            && (exists net: Network, logs: nat -> seq<Entry>, live: Live ::
                  && Honest(net, logs) && Loop(net, 0, ZERO).exit == CaughtUp
                  && Loop(net, 0, ZERO).cursor == PositionOf(y)
                  && Backlog(net, logs, ZERO) == [x, y] && Flatten(Applied(net, live, 0, ZERO)) == [x, y, x])
            && LaterOf(ZERO, PositionsOf([x, y, x])) == PositionOf(y)
            && After([Entry(x, true), Entry(y, true)], PositionOf(y)) == []
            && Cell(ApplyAll(me, EMPTY, [x, y, x]).pools, k) == Some(older)
            && Cell(ApplyAll(me, EMPTY, [x, y]).pools, k) == Some(newer)
  {
    var (x, y) := (PoolWrite(1, model, older), PoolWrite(2, model, newer));
    OlderWriteLast(me, model, older, newer, EMPTY);
    OlderWriteLast(me, model, older, newer, ApplyChange(me, EMPTY, x.change));
    assert [x, y, x][1..] == [y, x];
    assert ApplyAll(me, EMPTY, [x, y, x]) == ApplyAll(me, ApplyChange(me, EMPTY, x.change), [y, x]);
    TwoVisible(x, y);
    var log := [Entry(x, true), Entry(y, true)];
    assert At(log[|log| - 1]) == PositionOf(y) && Before(ZERO, At(log[0])) && Sorted(log);
    hide *;
    PushedAt(log, 1, x);
    assert [x, y] + [x] == [x, y, x];
  }

  lemma TwoVisible(x: SyncAction, y: SyncAction)
    ensures Visible([Entry(x, true), Entry(y, true)]) == [x, y]
  {
    assert [Entry(x, true), Entry(y, true)][1..] == [Entry(y, true)];
    assert Visible([Entry(y, true)]) == [y];
  }
}
