/**
 * The action stream as a client reads it: what lies between two cursors, and that a page carries
 * exactly that (src/lib/sync-manager.ts:822-860).
 */
module Stream {
  import opened Common
  import opened Positions
  import opened Rows
  import opened Replica
  import opened Flush
  import opened DeltaLoop

  /** What a client positioned at `p` is sent by the time it stands at `q`. */
  function Seen(log: seq<Entry>, p: Position, q: Position): seq<SyncAction> {
    if log == [] then []
    else
      (if log[0].visible && Before(p, At(log[0])) && AtMost(At(log[0]), q) then [log[0].action] else [])
      + Seen(log[1..], p, q)
  }

  /** The hypotheses on the action stream: sound rows, and no id written again after its deletion. */
  ghost predicate GoodLog(me: Option<Id>, own: Id -> ValueKey, log: seq<Entry>) {
    && Sorted(log)
    && GoodBatch(own, Visible(log))
    && NoReuse(me, Visible(log))
  }

  // ----- facts about the stream ---------------------------------------------------------------

  lemma {:induction false} SeenConcat(a: seq<Entry>, b: seq<Entry>, p: Position, q: Position)
    ensures Seen(a + b, p, q) == Seen(a, p, q) + Seen(b, p, q)
  {
    if a == [] {
      assert a + b == b;
    } else {
      assert (a + b)[1..] == a[1..] + b;
      SeenConcat(a[1..], b, p, q);
    }
  }

  lemma {:induction false} SeenNone(log: seq<Entry>, p: Position, q: Position)
    requires forall e | e in log :: AtMost(At(e), p) || Before(q, At(e))
    ensures Seen(log, p, q) == []
  {
    if log != [] { SeenNone(log[1..], p, q); }
  }

  lemma {:induction false} SeenAll(log: seq<Entry>, p: Position, q: Position)
    requires forall e | e in log :: Before(p, At(e)) && AtMost(At(e), q)
    ensures Seen(log, p, q) == Visible(log)
  {
    if log != [] { SeenAll(log[1..], p, q); }
  }

  /** Nothing seen on a stretch, nothing seen on a part of it. */
  lemma {:induction false} SeenNarrow(log: seq<Entry>, p: Position, q: Position, p': Position, q': Position)
    requires Seen(log, p, q) == [] && AtMost(p, p') && AtMost(q', q)
    ensures Seen(log, p', q') == []
  {
    if log != [] { SeenNarrow(log[1..], p, q, p', q'); }
  }

  lemma {:induction false} SeenSplit(log: seq<Entry>, p: Position, m: Position, q: Position)
    requires Sorted(log) && AtMost(p, m) && AtMost(m, q)
    ensures Seen(log, p, q) == Seen(log, p, m) + Seen(log, m, q)
  {
    if log != [] {
      assert forall i | 1 <= i < |log| :: log[1..][i - 1] == log[i];
      if AtMost(At(log[0]), m) {
        SeenSplit(log[1..], p, m, q);
      } else {
        assert forall e | e in log :: Before(m, At(e));
        SeenNone(log, p, m);
        SeenSame(log, p, m, q);
      }
    }
  }

  lemma {:induction false} SeenSame(log: seq<Entry>, p: Position, m: Position, q: Position)
    requires AtMost(p, m) && forall e | e in log :: Before(m, At(e))
    ensures Seen(log, p, q) == Seen(log, m, q)
  {
    if log != [] { SeenSame(log[1..], p, m, q); }
  }

  lemma {:induction false} SeenBounds(log: seq<Entry>, p: Position, q: Position, a: SyncAction)
    requires a in Seen(log, p, q)
    ensures Before(p, PositionOf(a)) && AtMost(PositionOf(a), q)
    ensures exists e | e in log :: e.action == a
  {
    if a in Seen(log[1..], p, q) {
      SeenBounds(log[1..], p, q, a);
    } else {
      assert log[0].action == a;
    }
  }

  /** Nothing is left to see beyond the last action seen. */
  lemma {:induction false} LastSeen(log: seq<Entry>, p: Position, q: Position)
    requires Sorted(log) && Seen(log, p, q) != []
    ensures var s := Seen(log, p, q); Seen(log, PositionOf(s[|s| - 1]), q) == []
  {
    var s, rest := Seen(log, p, q), Seen(log[1..], p, q);
    var last := s[|s| - 1];
    assert forall e | e in log[1..] :: Before(At(log[0]), At(e));
    if rest != [] {
      LastSeen(log[1..], p, q);
      assert last == rest[|rest| - 1];
      SeenBounds(log[1..], p, q, last);
    } else {
      SeenNarrow(log[1..], p, q, PositionOf(last), q);
    }
  }

  lemma RowsAround(log: seq<Entry>, cursor: Position, i: nat, j: nat)
    requires Sorted(log) && i < j <= |log|
    requires forall k | 0 <= k < i :: AtMost(At(log[k]), cursor)
    requires forall k | i <= k < |log| :: Before(cursor, At(log[k]))
    ensures forall e | e in log[..i] :: AtMost(At(e), cursor)
    ensures forall e | e in log[i..j] :: Before(cursor, At(e)) && AtMost(At(e), At(log[j - 1]))
    ensures forall e | e in log[j..] :: Before(At(log[j - 1]), At(e))
  {
  }

  /** What is seen up to the end of a run of rows that starts beyond the cursor: that run. */
  lemma RunIsSeen(log: seq<Entry>, cursor: Position, i: nat, j: nat)
    requires Sorted(log) && i < j <= |log|
    requires forall k | 0 <= k < i :: AtMost(At(log[k]), cursor)
    requires forall k | i <= k < |log| :: Before(cursor, At(log[k]))
    ensures Seen(log, cursor, At(log[j - 1])) == Visible(log[i..j])
  {
    RowsAround(log, cursor, i, j);
    hide Sorted, Seen, Visible, Before, AtMost;
    var low, page, high := log[..i], log[i..j], log[j..];
    var next := At(log[j - 1]);
    assert log == low + (page + high);
    SeenConcat(low, page + high, cursor, next);
    SeenConcat(page, high, cursor, next);
    SeenNone(low, cursor, next);
    SeenAll(page, cursor, next);
    SeenNone(high, cursor, next);
  }

  lemma VisibleSlice(log: seq<Entry>, i: nat, j: nat)
    requires i <= j <= |log|
    ensures exists x, y :: 0 <= x <= y <= |Visible(log)| && Visible(log[i..j]) == Visible(log)[x..y]
  {
    var low, page, high := log[..i], log[i..j], log[j..];
    assert log == low + (page + high);
    VisibleConcat(low, page + high);
    VisibleConcat(page, high);
    var x, y := |Visible(low)|, |Visible(low)| + |Visible(page)|;
    assert Visible(log)[x..y] == Visible(page);
  }

  /** A page carries exactly what is to be seen between the cursor and the page's end. */
  lemma PageIsSeen(log: seq<Entry>, cursor: Position)
    requires Sorted(log)
    ensures var res := Serve(log, cursor);
            var next := NextCursor(cursor, res);
            && AtMost(cursor, next)
            && res.actions == Seen(log, cursor, next)
            && (res.nextCursor.None? || !res.hasMore ==> After(log, next) == [])
            && (exists i, j :: 0 <= i <= j <= |Visible(log)| && res.actions == Visible(log)[i..j])
            && (next == cursor || exists e | e in log :: At(e) == next)
  {
    var rest := After(log, cursor);
    var n := Min(DELTA_PAGE_SIZE, |rest|);
    HonestNextCursor(log, cursor);
    AfterSplits(log, cursor);
    var i := |log| - |rest|;
    hide After, NextCursor;
    assert rest[..n] == log[i..i + n];
    VisibleSlice(log, i, i + n);
    if n == 0 {
      assert forall k | 0 <= k < |log| :: AtMost(At(log[k]), cursor);
      SeenNone(log, cursor, cursor);
    } else {
      RunIsSeen(log, cursor, i, i + n);
      assert rest[n - 1] == log[i + n - 1];
      AfterIs(log, At(log[i + n - 1]), i + n);
    }
  }

  /** The same for a page cut from an older state of the log: what settled since lies beyond it. */
  lemma EarlierPageIsSeen(log: seq<Entry>, settled: nat, cursor: Position)
    requires Sorted(log) && settled <= |log|
    ensures var res := Serve(log[..settled], cursor);
            var next := NextCursor(cursor, res);
            && res.Page? && AtMost(cursor, next)
            && res.actions == Seen(log, cursor, next)
            && (next == cursor || exists e | e in log :: At(e) == next)
  {
    var low, high := log[..settled], log[settled..];
    PageIsSeen(low, cursor);
    var next := NextCursor(cursor, Serve(low, cursor));
    assert log == low + high;
    hide Seen, Serve, NextCursor, Visible;
    SeenConcat(low, high, cursor, next);
    forall e | e in high ensures AtMost(At(e), cursor) || Before(next, At(e)) {
      if e' :| e' in low && At(e') == next && next != cursor { assert Before(At(e'), At(e)); }
    }
    SeenNone(high, cursor, next);
  }

  /** Whatever is seen is a run of the stream. */
  lemma SeenIsSlice(log: seq<Entry>, p: Position, q: Position)
    requires Sorted(log) && AtMost(p, q)
    ensures exists i, j :: 0 <= i <= j <= |Visible(log)| && Seen(log, p, q) == Visible(log)[i..j]
  {
    if log == [] {
      assert Seen(log, p, q) == Visible(log)[0..0];
    } else {
      var (first, last) := (At(log[0]), At(log[|log| - 1]));
      var lo := Position(Min(p.xact, first.xact) - 1, 0);
      var hi := Later(q, last);
      SeenAll(log, lo, hi);
      SeenSplit(log, lo, q, hi);
      SeenSplit(log, lo, p, q);
      var i, j := |Seen(log, lo, p)|, |Seen(log, lo, q)|;
      assert Visible(log)[i..j] == Seen(log, p, q);
    }
  }

  lemma SeenToTheEnd(log: seq<Entry>, p: Position, q: Position)
    requires Sorted(log) && After(log, q) == []
    ensures Seen(log, p, q) == Visible(After(log, p))
  {
  }

  /** Nothing is seen going nowhere. */
  lemma SeenNothing(log: seq<Entry>, p: Position)
    ensures Seen(log, p, p) == []
  {
    SeenNone(log, p, p);
  }
}
