/** Decoded delta cursors: `(xactId, id)` pairs in lexicographic order. */
module Positions {

  datatype Position = Position(xact: int, id: int)

  const ZERO := Position(0, 0)

  predicate Before(p: Position, q: Position) {
    p.xact < q.xact || (p.xact == q.xact && p.id < q.id)
  }

  predicate AtMost(p: Position, q: Position) { !Before(q, p) }

  function Later(p: Position, q: Position): Position {
    if Before(p, q) then q else p
  }

  /** The maximum of a starting position and a batch. */
  function LaterOf(p: Position, batch: seq<Position>): Position
    decreases batch
  {
    if batch == [] then p else LaterOf(Later(p, batch[0]), batch[1..])
  }

  /** It is an upper bound, it is attained, and it does not depend on how the batch is cut. */
  lemma {:induction false} LaterOfIsMaximum(p: Position, batch: seq<Position>)
    ensures var r := LaterOf(p, batch);
            && AtMost(p, r)
            && (forall q | q in batch :: AtMost(q, r))
            && (r == p || r in batch)
    decreases batch
  {
    if batch != [] {
      LaterOfIsMaximum(Later(p, batch[0]), batch[1..]);
    }
  }

  lemma {:induction false} LaterOfConcat(p: Position, a: seq<Position>, b: seq<Position>)
    ensures LaterOf(p, a + b) == LaterOf(LaterOf(p, a), b)
    decreases a
  {
    if a == [] {
      assert a + b == b;
    } else {
      assert (a + b)[1..] == a[1..] + b;
      LaterOfConcat(Later(p, a[0]), a[1..], b);
    }
  }

  /** Strictly increasing: the order of a delta page. */
  predicate Increasing(ps: seq<Position>) {
    forall i, j | 0 <= i < j < |ps| :: Before(ps[i], ps[j])
  }

  /** On an increasing batch that starts beyond `p`, the maximum is its last element. */
  lemma {:induction false} LaterOfIncreasing(p: Position, batch: seq<Position>)
    requires batch != [] && Increasing(batch) && Before(p, batch[0])
    ensures LaterOf(p, batch) == batch[|batch| - 1]
    decreases batch
  {
    if |batch| > 1 {
      LaterOfIncreasing(batch[0], batch[1..]);
    }
  }
}
