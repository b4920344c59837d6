/**
 * The completeness stamp across builds of the client (src/lib/db-collections.ts:13-79,
 * src/lib/sync-manager.ts:423-441). A build knows a set of collections; a bootstrap stamps the set
 * it filled, deltas carry only what changed, and a build skips actions on collections it does not
 * know while its cursor moves past them.
 */
module CacheStamp {
  import opened Common

  /**
   * An image: bootstrapped at `from`, paged up to `cursor`. `holds[c]` are the actions since the
   * bootstrap whose effect table `c` shows.
   */
  datatype Image = Image(from: nat, cursor: nat, stamp: set<string>, holds: map<string, set<nat>>)

  /** `log[i]` is the collection of the i-th settled action; `build` the collections this build requires. */
  datatype World = World(log: seq<string>, build: set<string>, image: Option<Image>)

  datatype Step =
    | Settle(collection: string)
    | Deploy(build: set<string>)   // another build takes over; Dexie adds its new tables empty
    | Bootstrap
    | Delta(upTo: nat)             // pages read by a tab that accepted the image

  predicate Accepts(w: World) { w.image.Some? && w.build <= w.image.value.stamp }

  /** The actions on a collection between two points of the log. */
  function ActionsOn(log: seq<string>, c: string, i: nat, j: nat): set<nat>
    requires j <= |log|
  {
    set k: nat | i <= k < j && log[k] == c
  }

  predicate Enabled(w: World, step: Step) {
    step.Delta? ==> Accepts(w) && w.image.value.cursor <= step.upTo <= |w.log|
  }

  function HeldIn(holds: map<string, set<nat>>, c: string): set<nat> {
    if c in holds then holds[c] else {}
  }

  function Do(w: World, step: Step): World
    requires Enabled(w, step)
  {
    match step
    case Settle(c) => w.(log := w.log + [c])
    case Deploy(build) => w.(build := build)
    case Bootstrap =>
      var kept := if w.image.Some? then w.image.value.holds else map[];
      var filled: map<string, set<nat>> := map c | c in w.build :: {};
      w.(image := Some(Image(|w.log|, |w.log|, w.build, kept + filled)))
    case Delta(n) =>
      var im := w.image.value;
      var paged := map c | c in w.build :: HeldIn(im.holds, c) + ActionsOn(w.log, c, im.cursor, n);
      w.(image := Some(im.(cursor := n, holds := im.holds + paged)))
  }

  ghost predicate Ok(w: World) {
    w.image.Some? ==> w.image.value.from <= w.image.value.cursor <= |w.log|
  }

  /** The table shows every action on its collection since the bootstrap. */
  ghost predicate Complete(w: World, c: string)
    requires Ok(w) && w.image.Some?
  {
    HeldIn(w.image.value.holds, c) == ActionsOn(w.log, c, w.image.value.from, w.image.value.cursor)
  }

  /**
   * Pages keep a complete table complete exactly when the build that read them knows the
   * collection, or they held nothing on it.
   */
  lemma DeltaKeepsCompleteExactly(w: World, n: nat, c: string)
    requires Ok(w) && Enabled(w, Delta(n)) && Complete(w, c)
    ensures Complete(Do(w, Delta(n)), c) <==> c in w.build || ActionsOn(w.log, c, w.image.value.cursor, n) == {}
  {
    var im := w.image.value;
    var (was, paged) := (ActionsOn(w.log, c, im.from, im.cursor), ActionsOn(w.log, c, im.cursor, n));
    var all := ActionsOn(w.log, c, im.from, n);
    assert all == was + paged && was !! paged;
    assert HeldIn(Do(w, Delta(n)).image.value.holds, c) == if c in w.build then was + paged else was;
    hide ActionsOn, Do, HeldIn;
  }

  /** Every collection that all builds since the bootstrap have known is complete. */
  ghost predicate CompleteFor(w: World, kept: set<string>) {
    && Ok(w) && w.build >= kept
    && (w.image.Some? ==> forall c | c in kept && c in w.image.value.stamp :: Complete(w, c))
  }

  lemma StepKeepsComplete(w: World, step: Step, kept: set<string>)
    requires CompleteFor(w, kept) && Enabled(w, step)
    requires step.Deploy? ==> step.build >= kept
    ensures CompleteFor(Do(w, step), kept)
  {
    var w' := Do(w, step);
    if w'.image.Some? {
      forall c | c in kept && c in w'.image.value.stamp ensures Complete(w', c) {
        if step.Settle? {
          var im := w.image.value;
          assert ActionsOn(w'.log, c, im.from, im.cursor) == ActionsOn(w.log, c, im.from, im.cursor);
        } else if step.Delta? {
          DeltaKeepsCompleteExactly(w, step.upTo, c);
        }
      }
    }
  }

  function Run(w: World, steps: seq<Step>): Option<World>
    decreases steps
  {
    if steps == [] then Some(w)
    else if Enabled(w, steps[0]) then Run(Do(w, steps[0]), steps[1..])
    else None
  }

  /** Builds may come and go: an accepted image is complete on what none of them dropped. */
  lemma AcceptedIsComplete(w: World, steps: seq<Step>, kept: set<string>)
    requires w.image.None? && w.build >= kept && Run(w, steps).Some?
    requires forall s | s in steps && s.Deploy? :: s.build >= kept
    ensures var v := Run(w, steps).value;
            Accepts(v) ==>
              && Ok(v)
              && var im := v.image.value;
                 forall c, k: nat | c in kept ::
                   Complete(v, c) && (k in HeldIn(im.holds, c) <==> im.from <= k < im.cursor && v.log[k] == c)
  {
    RunKeepsComplete(w, steps, kept);
  }

  lemma {:induction false} RunKeepsComplete(w: World, steps: seq<Step>, kept: set<string>)
    requires CompleteFor(w, kept) && Run(w, steps).Some?
    requires forall s | s in steps && s.Deploy? :: s.build >= kept
    ensures CompleteFor(Run(w, steps).value, kept)
    decreases steps
  {
    hide CompleteFor, Do, Enabled;
    if steps != [] {
      StepKeepsComplete(w, steps[0], kept);
      RunKeepsComplete(Do(w, steps[0]), steps[1..], kept);
    }
  }

  /** Builds that only ever add collections: every required table of an accepted image is complete. */
  predicate OnlyGrows(build: set<string>, steps: seq<Step>)
    decreases steps
  {
    steps != [] ==>
      if steps[0].Deploy? then steps[0].build >= build && OnlyGrows(steps[0].build, steps[1..])
      else OnlyGrows(build, steps[1..])
  }

  /** All that the stamp names is complete, and the stamp names nothing the build does not know. */
  ghost predicate Sound(w: World) {
    Ok(w) && (w.image.Some? ==> w.image.value.stamp <= w.build && forall c | c in w.image.value.stamp :: Complete(w, c))
  }

  lemma StepKeepsSound(w: World, step: Step)
    requires Sound(w) && Enabled(w, step) && (step.Deploy? ==> step.build >= w.build)
    ensures Sound(Do(w, step))
  {
  }

  lemma {:induction false} GrowingBuildsAreSafe(w: World, steps: seq<Step>)
    requires Sound(w) && Run(w, steps).Some? && OnlyGrows(w.build, steps)
    ensures var v := Run(w, steps).value;
            && Sound(v)
            && (Accepts(v) ==> forall c | c in v.build :: Complete(v, c))
    decreases steps
  {
    if steps != [] {
      StepKeepsSound(w, steps[0]);
      hide Sound;
      GrowingBuildsAreSafe(Do(w, steps[0]), steps[1..]);
    }
  }

  // ----- the exact condition over runs --------------------------------------------------------

  /** A table never shows an action that the cursor has not passed. */
  ghost predicate Within(w: World, c: string) {
    && Ok(w) && w.image.Some?
    && HeldIn(w.image.value.holds, c) <= ActionsOn(w.log, c, w.image.value.from, w.image.value.cursor)
  }

  /** Pages with something on the collection, read by a build that does not know it. */
  predicate Skips(w: World, step: Step, c: string) {
    && step.Delta? && Enabled(w, step) && w.image.value.cursor <= step.upTo <= |w.log|
    && c !in w.build && ActionsOn(w.log, c, w.image.value.cursor, step.upTo) != {}
  }

  predicate NeverSkips(w: World, steps: seq<Step>, c: string)
    decreases steps
  {
    steps != [] ==> Enabled(w, steps[0]) && !Skips(w, steps[0], c) && NeverSkips(Do(w, steps[0]), steps[1..], c)
  }

  lemma StepCompleteExactly(w: World, step: Step, c: string)
    requires Within(w, c) && Enabled(w, step) && !step.Bootstrap?
    ensures Within(Do(w, step), c)
    ensures Complete(Do(w, step), c) <==> Complete(w, c) && !Skips(w, step, c)
  {
    var im := w.image.value;
    if step.Settle? {
      assert ActionsOn(Do(w, step).log, c, im.from, im.cursor) == ActionsOn(w.log, c, im.from, im.cursor);
    } else if step.Delta? {
      var was, paged := ActionsOn(w.log, c, im.from, im.cursor), ActionsOn(w.log, c, im.cursor, step.upTo);
      assert ActionsOn(w.log, c, im.from, step.upTo) == was + paged && was !! paged;
      assert HeldIn(Do(w, step).image.value.holds, c) == HeldIn(im.holds, c) + if c in w.build then paged else {};
      hide ActionsOn, Do, HeldIn;
    }
  }

  /**
   * From one bootstrap to the next a table is complete exactly when it was and no build without the
   * collection has paged an action on it, whatever builds came and went in between.
   */
  lemma {:induction false} CompleteExactly(w: World, steps: seq<Step>, c: string)
    requires Within(w, c) && Run(w, steps).Some? && forall s | s in steps :: !s.Bootstrap?
    ensures Within(Run(w, steps).value, c)
    ensures Complete(Run(w, steps).value, c) <==> Complete(w, c) && NeverSkips(w, steps, c)
    decreases steps
  {
    hide Within, Complete, Do, Enabled, Skips;
    if steps != [] {
      StepCompleteExactly(w, steps[0], c);
      CompleteExactly(Do(w, steps[0]), steps[1..], c);
    }
  }

  /** A bootstrap is where such a stretch begins: every collection of its build is complete. */
  lemma BootstrapIsComplete(w: World, c: string)
    requires c in w.build
    ensures Within(Do(w, Bootstrap), c) && Complete(Do(w, Bootstrap), c)
  {
    assert ActionsOn(w.log, c, |w.log|, |w.log|) == {};
  }

  /**
   * The stamp cannot see a rollback: a build with a collection, one without it that pages an action
   * on it, and the first again. The stamp still covers everything, and the table misses the action.
   */
  lemma RollbackLeavesHole(lesser: set<string>, c: string)
    requires c !in lesser
    ensures var steps := [Bootstrap, Deploy(lesser), Settle(c), Delta(1), Deploy(lesser + {c})];
            var v := Run(World([], lesser + {c}, None), steps);
            v.Some? && Accepts(v.value) && Ok(v.value) && !Complete(v.value, c)
  {
    var w0 := World([], lesser + {c}, None);
    var w1 := Do(w0, Bootstrap);
    var w2 := Do(w1, Deploy(lesser));
    var w3 := Do(w2, Settle(c));
    var w4 := Do(w3, Delta(1));
    var w5 := Do(w4, Deploy(lesser + {c}));
    assert w3.log[0] == c && 0 in ActionsOn(w3.log, c, 0, 1);
    assert Complete(w3, c);
    DeltaKeepsCompleteExactly(w3, 1, c);
    hide Do, Complete;
    var s := [Bootstrap, Deploy(lesser), Settle(c), Delta(1), Deploy(lesser + {c})];
    assert Run(w4, s[4..]) == Run(w5, s[5..]);
    assert Run(w3, s[3..]) == Run(w4, s[4..]);
    assert Run(w2, s[2..]) == Run(w3, s[3..]);
    assert Run(w1, s[1..]) == Run(w2, s[2..]);
  }
}
