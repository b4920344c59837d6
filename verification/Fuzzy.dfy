/** The greedy subsequence score (src/lib/fuzzy-search.ts:13-55), with scores over the reals. */
module Fuzzy {

  /** Positions at which the query's characters occur in the target, in order. */
  predicate Embedding(at: seq<nat>, query: string, target: string) {
    && |at| == |query|
    && (forall i | 0 <= i < |at| :: at[i] < |target| && target[at[i]] == query[i])
    && (forall i, j | 0 <= i < j < |at| :: at[i] < at[j])
  }

  ghost predicate IsSubsequence(query: string, target: string) {
    exists at :: Embedding(at, query, target)
  }

  /** What the loop has counted after `n` characters of the target. */
  datatype Tally = Tally(matched: nat, run: nat, score: nat)

  function Tallied(target: string, query: string, n: nat): Tally
    requires n <= |target|
  {
    if n == 0 then Tally(0, 0, 0)
    else
      var t := Tallied(target, query, n - 1);
      if t.matched >= |query| then t
      else if target[n - 1] == query[t.matched] then Tally(t.matched + 1, t.run + 1, t.score + t.run + 1)
      else Tally(t.matched, 0, t.score)
  }

  /** `1 + 2 + ... + n`, the score of one unbroken run. */
  function Triangle(n: nat): nat { n * (n + 1) / 2 }

  lemma TriangleStep(n: nat)
    ensures Triangle(n + 1) == Triangle(n) + n + 1
  {
  }

  /** Every match scores at least one and at most what an unbroken run would. */
  lemma {:induction false} TallyBounds(target: string, query: string, n: nat)
    requires n <= |target|
    ensures var t := Tallied(target, query, n);
            t.run <= t.matched <= |query| && t.matched <= t.score <= Triangle(t.matched)
  {
    if n > 0 {
      TallyBounds(target, query, n - 1);
      TriangleStep(Tallied(target, query, n - 1).matched);
      hide Triangle;
    }
  }

  /** How many characters before a match, itself included, are matches in a row. */
  function RunAt(at: seq<nat>, i: nat): nat
    requires i < |at|
  {
    if i == 0 || at[i] != at[i - 1] + 1 then 1 else 1 + RunAt(at, i - 1)
  }

  /** The longer the run a match stands in, the more it is worth. */
  function RunScore(at: seq<nat>): nat {
    if at == [] then 0 else RunScore(at[..|at| - 1]) + RunAt(at, |at| - 1)
  }

  /** Each character is matched at the first place after the one before it. */
  ghost predicate Leftmost(at: seq<nat>, query: string, target: string) {
    && Embedding(at, query, target)
    && forall i, k | 0 <= i < |at| && (if i == 0 then 0 else at[i - 1] + 1) <= k < at[i] :: target[k] != query[i]
  }

  lemma {:induction false} RunAtPrefix(at: seq<nat>, n: nat, i: nat)
    requires i < n <= |at|
    ensures RunAt(at[..n], i) == RunAt(at, i)
  {
    if i > 0 { RunAtPrefix(at, n, i - 1); }
  }

  /** One more match. */
  lemma RunScoreAppended(at: seq<nat>, p: nat)
    ensures RunScore(at + [p]) ==
            RunScore(at) + if at != [] && p == at[|at| - 1] + 1 then 1 + RunAt(at, |at| - 1) else 1
  {
    var longer := at + [p];
    assert longer[..|longer| - 1] == at && longer[|at|] == p;
    assert RunScore(longer) == RunScore(at) + RunAt(longer, |at|);
    hide RunScore;
    if at != [] {
      RunAtPrefix(longer, |at|, |at| - 1);
      assert longer[|at| - 1] == at[|at| - 1] && longer[..|at|] == at;
      assert RunAt(longer, |at|) == if p == at[|at| - 1] + 1 then 1 + RunAt(longer, |at| - 1) else 1;
      hide RunAt;
    }
  }

  /** Where the place after the last match begins. */
  function NextFrom(at: seq<nat>): nat { if at == [] then 0 else at[|at| - 1] + 1 }

  lemma LeftmostAppended(at: seq<nat>, query: string, target: string, p: nat)
    requires |at| < |query| && Leftmost(at, query[..|at|], target)
    requires NextFrom(at) <= p < |target| && target[p] == query[|at|]
    requires forall k | NextFrom(at) <= k < p :: target[k] != query[|at|]
    ensures Leftmost(at + [p], query[..|at| + 1], target)
  {
    var m, longer := |at|, at + [p];
    assert forall i | 0 <= i < m :: longer[i] == at[i] && query[..m + 1][i] == query[..m][i];
    assert query[..m + 1][m] == query[m];
  }

  /** What the loop has counted after `n` characters, as the embedding it has found. */
  ghost predicate Counted(t: Tally, target: string, query: string, n: nat, at: seq<nat>)
    requires n <= |target|
  {
    && t.matched == |at| <= |query| && Leftmost(at, query[..|at|], target)
    && t.score == RunScore(at) && NextFrom(at) <= n
    && (|at| < |query| ==>
          && (forall k | NextFrom(at) <= k < n :: target[k] != query[|at|])
          && t.run == if at != [] && NextFrom(at) == n then RunAt(at, |at| - 1) else 0)
  }

  lemma CountedMatch(t: Tally, target: string, query: string, n: nat, at: seq<nat>)
    requires n < |target| && Counted(t, target, query, n, at) && |at| < |query| && target[n] == query[|at|]
    ensures Counted(Tally(t.matched + 1, t.run + 1, t.score + t.run + 1), target, query, n + 1, at + [n])
  {
    var longer := at + [n];
    LeftmostAppended(at, query, target, n);
    RunScoreAppended(at, n);
    if at != [] {
      RunAtPrefix(longer, |at|, |at| - 1);
      assert longer[..|at|] == at;
    }
    hide Leftmost, RunScore;
  }

  /**
   * The greedy choice is the leftmost embedding of everything it counts, and what it scores are the
   * runs of that embedding.
   */
  lemma {:induction false} GreedyEmbeds(target: string, query: string, n: nat) returns (at: seq<nat>)
    requires n <= |target|
    ensures Counted(Tallied(target, query, n), target, query, n, at)
  {
    if n == 0 {
      at := [];
      assert Counted(Tally(0, 0, 0), target, query, 0, []) by { NothingCounted(target, query); }
    } else {
      at := GreedyEmbeds(target, query, n - 1);
      var t := Tallied(target, query, n - 1);
      CountedSize(t, target, query, n - 1, at);
      hide Counted;
      if t.matched < |query| {
        if target[n - 1] == query[t.matched] {
          CountedMatch(t, target, query, n - 1, at);
          at := at + [n - 1];
        } else {
          CountedMiss(t, target, query, n - 1, at);
        }
      } else {
        CountedAll(t, target, query, n - 1, at);
      }
    }
  }

  lemma NothingCounted(target: string, query: string)
    ensures Counted(Tally(0, 0, 0), target, query, 0, [])
  {
  }

  lemma CountedSize(t: Tally, target: string, query: string, n: nat, at: seq<nat>)
    requires n <= |target| && Counted(t, target, query, n, at)
    ensures t.matched == |at| <= |query|
  {
  }

  lemma CountedMiss(t: Tally, target: string, query: string, n: nat, at: seq<nat>)
    requires n < |target| && Counted(t, target, query, n, at) && |at| < |query| && target[n] != query[|at|]
    ensures Counted(Tally(t.matched, 0, t.score), target, query, n + 1, at)
  {
    hide Leftmost, RunScore;
  }

  lemma CountedAll(t: Tally, target: string, query: string, n: nat, at: seq<nat>)
    requires n < |target| && Counted(t, target, query, n, at) && |at| == |query|
    ensures Counted(t, target, query, n + 1, at)
  {
    hide Leftmost, RunScore;
  }

  /** The score of a target that holds the whole query. */
  lemma ScoreOfRuns(target: string, query: string) returns (at: seq<nat>)
    requires Tallied(target, query, |target|).matched >= |query|
    ensures Leftmost(at, query, target) && RunScore(at) == Tallied(target, query, |target|).score
  {
    at := GreedyEmbeds(target, query, |target|);
    assert query[..|query|] == query;
    hide Leftmost, RunScore, Tallied;
  }

  /** And no embedding of a longer prefix exists: being greedy loses nothing. */
  lemma {:induction false} GreedyIsComplete(target: string, query: string, n: nat, at: seq<nat>)
    requires n <= |target| && |at| <= |query| && Embedding(at, query[..|at|], target)
    requires forall i | 0 <= i < |at| :: at[i] < n
    ensures |at| <= Tallied(target, query, n).matched
    decreases n
  {
    var m := |at|;
    if m > 0 {
      var front := at[..m - 1];
      if at[m - 1] == n - 1 {
        assert query[..m][m - 1] == query[m - 1];
        assert Embedding(front, query[..m - 1], target) by {
          assert forall i | 0 <= i < m - 1 :: query[..m][i] == query[..m - 1][i];
        }
        assert forall i | 0 <= i < m - 1 :: at[i] < at[m - 1];
        GreedyIsComplete(target, query, n - 1, front);
      } else {
        assert forall i | 0 <= i < m :: at[i] < n - 1;
        GreedyIsComplete(target, query, n - 1, at);
      }
    }
  }

  /** The loop matches the whole query exactly when it is a subsequence. */
  lemma GreedyDecides(target: string, query: string)
    ensures Tallied(target, query, |target|).matched == |query| <==> IsSubsequence(query, target)
  {
    var m := Tallied(target, query, |target|).matched;
    var at := GreedyEmbeds(target, query, |target|);
    assert Embedding(at, query[..m], target);
    if m == |query| {
      assert query[..m] == query;
    }
    if IsSubsequence(query, target) {
      var at' :| Embedding(at', query, target);
      assert query[..|at'|] == query;
      GreedyIsComplete(target, query, |target|, at');
    }
  }

  /** A prefix is a subsequence. */
  lemma PrefixIsSubsequence(query: string, target: string)
    requires query <= target
    ensures IsSubsequence(query, target)
  {
    var at := seq(|query|, i requires 0 <= i < |query| => i as nat);
    assert forall i | 0 <= i < |query| :: query[i] == target[i];
    assert Embedding(at, query, target);
  }

  lemma PrefixBand(q: nat, t: nat)
    requires 0 < q < t
    ensures 0.9 < 0.9 + 0.1 * (q as real / t as real) < 1.0
  {
  }

  lemma SubsequenceBand(score: nat, best: nat)
    requires 0 < score <= best
    ensures 0.0 < (score as real / best as real) * 0.8 <= 0.8
  {
  }

  /** `toLowerCase`: any function that is empty on the empty string alone. */
  ghost predicate Lowers(lower: string -> string) {
    forall s :: lower(s) == "" <==> s == ""
  }

  method FuzzyScore(target: string, query: string, lower: string -> string) returns (r: real)
    requires Lowers(lower)
    ensures 0.0 <= r <= 1.0
    ensures query == "" ==> r == 1.0
    ensures query != "" ==>
              var (t, q) := (lower(target), lower(query));
              var unbroken := |q| * (|q| + 1) / 2;
              && (r > 0.0 <==> IsSubsequence(q, t))
              && (t == q ==> r == 1.0)
              && (q < t ==> 0.9 < r < 1.0 && r == 0.9 + 0.1 * (|q| as real / |t| as real))
              && (!(q <= t) ==> r <= 0.8)
              && (!(q <= t) && IsSubsequence(q, t) ==>
                    exists at :: Leftmost(at, q, t) && r == (RunScore(at) as real / unbroken as real) * 0.8)
  {
    if query == "" {
      return 1.0;
    }
    var t, q := lower(target), lower(query);
    if t == q {
      PrefixIsSubsequence(q, t);
      return 1.0;
    }
    if q <= t {
      PrefixIsSubsequence(q, t);
      hide IsSubsequence;
      PrefixBand(|q|, |t|);
      return 0.9 + 0.1 * (|q| as real / |t| as real);
    }
    r := SubsequenceScore(t, q);
  }

  /** Neither equal nor a prefix: the runs of the leftmost embedding, against one unbroken run. */
  method SubsequenceScore(t: string, q: string) returns (r: real)
    requires q != ""
    ensures 0.0 <= r <= 0.8
    ensures r > 0.0 <==> IsSubsequence(q, t)
    ensures IsSubsequence(q, t) ==>
              exists at :: Leftmost(at, q, t) && r == (RunScore(at) as real / (|q| * (|q| + 1) / 2) as real) * 0.8
  {
    var qi, score := CountMatches(t, q);
    GreedyDecides(t, q);
    TallyBounds(t, q, |t|);
    if qi < |q| {
      return 0.0;
    }
    ghost var at := ScoreOfRuns(t, q);
    hide Tallied, Leftmost, RunScore, IsSubsequence;
    SubsequenceBand(score, Triangle(|q|));
    r := (score as real / Triangle(|q|) as real) * 0.8;
  }

  /** The loop over the target. */
  method CountMatches(t: string, q: string) returns (qi: nat, score: nat)
    ensures qi == Tallied(t, q, |t|).matched && score == Tallied(t, q, |t|).score
  {
    var ti, consecutiveRun := 0, 0;
    qi, score := 0, 0;
    while ti < |t| && qi < |q|
      invariant 0 <= ti <= |t|
      invariant Tallied(t, q, ti) == Tally(qi, consecutiveRun, score)
    {
      if t[ti] == q[qi] {
        consecutiveRun := consecutiveRun + 1;
        score := score + consecutiveRun;
        qi := qi + 1;
      } else {
        consecutiveRun := 0;
      }
      ti := ti + 1;
    }
    if qi >= |q| {
      TallyStops(t, q, ti);
    }
  }

  /** Once the query is used up nothing more is counted. */
  lemma {:induction false} TallyStops(target: string, query: string, n: nat)
    requires n <= |target| && Tallied(target, query, n).matched >= |query|
    ensures Tallied(target, query, |target|) == Tallied(target, query, n)
    decreases |target| - n
  {
    if n < |target| { TallyStops(target, query, n + 1); }
  }
}
