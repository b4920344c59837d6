/**
 * The sync manager (src/lib/sync-manager.ts:244-1303) as a class over the stores and the database,
 * its methods proved against the functions of Replica, Flush, Bootstraps, DeltaLoop and Interference. Cursors
 * are held decoded; Cursor proves that the text forms compare and advance the same way.
 */
module SyncManagers {
  import opened Common
  import opened Positions
  import opened Rows
  import opened Replica
  import opened Flush
  import opened Stores
  import opened IssueStores
  import opened Clients
  import opened Bootstraps
  import opened DeltaLoop
  import opened Interference

  /** The batch holds a change of this user's own memberships. */
  predicate MovesUser(me: Option<Id>, batch: seq<SyncAction>) {
    exists i :: 0 <= i < |batch| && OwnMembership(me, batch[i].change)
  }

  /** A signed-in user moves with a batch exactly if some action of it is a membership naming them. */
  lemma MovesUserExactly(me: Option<Id>, batch: seq<SyncAction>)
    ensures MovesUser(me, batch)
            <==> me.Some? && me != Some("") && exists i :: 0 <= i < |batch| && batch[i].change == MembershipChange(me)
  {
    if MovesUser(me, batch) {
      var i :| 0 <= i < |batch| && OwnMembership(me, batch[i].change);
      assert batch[i].change == MembershipChange(me);
    }
    if me.Some? && me != Some("") && exists i :: 0 <= i < |batch| && batch[i].change == MembershipChange(me) {
      var i :| 0 <= i < |batch| && batch[i].change == MembershipChange(me);
      assert OwnMembership(me, batch[i].change);
    }
  }

  /** The number of such batches. */
  function Moves(me: Option<Id>, batches: seq<seq<SyncAction>>): nat {
    if batches == [] then 0 else (if MovesUser(me, batches[0]) then 1 else 0) + Moves(me, batches[1..])
  }

  lemma MovesNone(me: Option<Id>, batch: seq<SyncAction>)
    ensures !MovesUser(me, batch[..0]) && batch[..|batch|] == batch
  {
  }

  lemma MovesNext(me: Option<Id>, batch: seq<SyncAction>, i: nat)
    requires i < |batch|
    ensures MovesUser(me, batch[..i + 1]) <==> MovesUser(me, batch[..i]) || OwnMembership(me, batch[i].change)
  {
    hide OwnMembership;
    assert forall k | 0 <= k < i :: batch[..i + 1][k] == batch[..i][k];
    assert batch[..i + 1][i] == batch[i];
  }

  lemma {:induction false} MovesConcat(me: Option<Id>, a: seq<seq<SyncAction>>, b: seq<seq<SyncAction>>)
    ensures Moves(me, a + b) == Moves(me, a) + Moves(me, b)
  {
    if a == [] {
      assert a + b == b;
    } else {
      assert (a + b)[1..] == a[1..] + b;
      MovesConcat(me, a[1..], b);
    }
  }

  /** A client after a bootstrap: nothing of what it held. */
  function LoadedClient(p: Payload): Client {
    Client(Catalog(SetAll(EMPTY_STORE, p.issues), OrderAfter([], p.issues)), Loaded(p).relations, Loaded(p).definitions,
           Loaded(p).values, Loaded(p).pools)
  }

  lemma LoadedIsServed(p: Payload)
    ensures Served(LoadedClient(p)) == Loaded(p)
  {
  }

  // ----- a batch under way --------------------------------------------------------------------

  /** After `i` actions: what is left to apply, to note and to advance over ends where the whole batch does. */
  ghost predicate BatchPoint(
      me: Option<Id>, c: Client, start: Position, batch: seq<SyncAction>, i: nat, now: Client, b: Buckets,
      maxId: Position)
  {
    && i <= |batch| && Ordered(b)
    && ClientAfter(me, now, batch[i..]) == ClientAfter(me, c, batch)
    && Noted(me, now, b, batch[i..]) == Noted(me, c, NO_WRITES, batch)
    && LaterOf(maxId, PositionsOf(batch)[i..]) == LaterOf(start, PositionsOf(batch))
  }

  lemma BatchStarts(me: Option<Id>, c: Client, start: Position, batch: seq<SyncAction>)
    ensures BatchPoint(me, c, start, batch, 0, c, NO_WRITES, start)
  {
    assert batch[0..] == batch && PositionsOf(batch)[0..] == PositionsOf(batch);
  }

  lemma BatchAdvances(
      me: Option<Id>, c: Client, start: Position, batch: seq<SyncAction>, i: nat, now: Client, b: Buckets,
      maxId: Position)
    requires BatchPoint(me, c, start, batch, i, now, b, maxId) && i < |batch|
    ensures var change := batch[i].change;
            BatchPoint(me, c, start, batch, i + 1, StepClient(me, now, change), Collect(me, Held(now), b, change),
                       Later(maxId, PositionOf(batch[i])))
  {
    CollectStaysOrdered(me, Held(now), b, batch[i].change);
    hide Ordered, StepClient, Collect;
    assert batch[i..][1..] == batch[i + 1..];
    assert PositionsOf(batch)[i..][1..] == PositionsOf(batch)[i + 1..];
  }

  lemma BatchEnds(
      me: Option<Id>, c: Client, start: Position, batch: seq<SyncAction>, now: Client, b: Buckets, maxId: Position)
    requires BatchPoint(me, c, start, batch, |batch|, now, b, maxId)
    ensures now == ClientAfter(me, c, batch) && b == Noted(me, c, NO_WRITES, batch)
    ensures Ordered(b) && maxId == LaterOf(start, PositionsOf(batch))
  {
    hide Ordered;
    assert batch[|batch|..] == [] && PositionsOf(batch)[|batch|..] == [];
  }

  class SyncManager {
    const issueStore: IssueStore
    const relationStore: IssueRelationStore
    const customFieldStore: CustomFieldStore
    const pools: EntityPool<PoolKey, Row>
    const me: Option<Id>
    var lastSyncId: Position
    var database: Disk
    var persistedCursor: Option<Position>
    var isDeltaSyncing: bool
    var isBootstrapping: bool
    var stopped: bool
    /** How often `scheduleRebootstrap` was called. */
    var rebootstraps: nat

    constructor (me: Option<Id>)
      ensures Valid() && Now() == NEW_CLIENT && lastSyncId == ZERO && database == BLANK && persistedCursor == None
      ensures this.me == me && !isDeltaSyncing && !isBootstrapping && !stopped && rebootstraps == 0
      ensures fresh(issueStore) && fresh(relationStore) && fresh(customFieldStore) && fresh(pools)
    {
      issueStore := new IssueStore();
      relationStore := new IssueRelationStore();
      customFieldStore := new CustomFieldStore();
      pools := new EntityPool();
      this.me, lastSyncId, database, persistedCursor := me, ZERO, BLANK, None;
      isDeltaSyncing, isBootstrapping, stopped, rebootstraps := false, false, false, 0;
    }

    ghost predicate Valid()
      reads issueStore
    {
      issueStore.Valid()
    }

    /** What the stores hold. */
    function Now(): Client
      reads issueStore, relationStore, customFieldStore, pools
    {
      Client(issueStore.Listing(), relationStore.pool, customFieldStore.definitions, customFieldStore.values,
          pools.pool)
    }

    /** An issue row: normalized once for both copies. */
    method ApplyIssueRow(verb: Verb, id: Id, data: Option<IssueData>, b: Buckets) returns (b': Buckets)
      requires Valid() && !verb.Delete?
      modifies issueStore
      ensures Valid() && issueStore.Listing() == SyncArm(old(issueStore.Listing()), verb, id, data)
      ensures b' == b.(issues := b.issues + NewIssues(old(Held(Now())), IssueChange(verb, id, data)))
    {
      b' := b;
      if data.Some? && data.value.row.Some? {
        var normalized := NormalizeIssueRow(data.value.row.value, LabelsOf(Cell(issueStore.pool, id)));
        issueStore.ApplySyncAction(verb, id, Some(AsSyncRow(normalized)));
        if normalized.cols.id != "" {
          b' := b'.(issues := b'.issues + [(normalized.cols.id, normalized)]);
        }
      }
    }

    /** The issue arm: row, labels, cascades and the value set that may ride along. */
    method ApplyIssue(verb: Verb, id: Id, data: Option<IssueData>, b: Buckets) returns (b': Buckets)
      requires Valid()
      modifies issueStore, relationStore, customFieldStore
      ensures Valid() && Now() == StepClient(me, old(Now()), IssueChange(verb, id, data))
      ensures b' == Collect(me, old(Held(Now())), b, IssueChange(verb, id, data))
    {
      if verb.Delete? {
        issueStore.ApplySyncAction(verb, id, None);
        b' := b.(deletes := b.deletes + [Deletion(Issues, id)], deletedIssues := b.deletedIssues + [id]);
        customFieldStore.RemoveValuesForIssue(id);
        relationStore.RemoveForIssue(id);
      } else {
        b' := ApplyIssueRow(verb, id, data, b);
      }
      hide SyncIssue, WithoutEdges, NewIssues, NewOrder, NewSets;
      if verb.Delete? {
        RemovedTwice(old(customFieldStore.values), id);
      }
      hide WithoutIssue;
      b' := ApplyIssueValues(verb, id, data, b');
    }

    /** The value set that may ride along, whatever the verb. */
    method ApplyIssueValues(verb: Verb, id: Id, data: Option<IssueData>, b: Buckets) returns (b': Buckets)
      modifies customFieldStore`values
      ensures customFieldStore.values ==
              if data.Some? && data.value.values.Some? then
                ApplyValues(old(customFieldStore.values), IssueChange(verb, id, data))
              else old(customFieldStore.values)
      ensures b' == b.(order := NewOrder(b, IssueChange(verb, id, data)),
              sets := NewSets(b, IssueChange(verb, id, data)))
    {
      b' := b;
      if data.Some? && data.value.values.Some? {
        customFieldStore.ApplyValueSyncAction(verb, id, data.value.values);
        b' := b'.(order := if id in b'.sets then b'.order else b'.order + [id],
                  sets := b'.sets[id := data.value.values.value]);
      }
    }

    /** The arms without an issue: apply the change to its store and note its disk writes. */
    method ApplyOther(c: Change, b: Buckets) returns (b': Buckets)
      requires !c.IssueChange?
      modifies relationStore, customFieldStore, pools
      ensures Now() == StepClient(me, old(Now()), c)
      ensures b' == Collect(me, old(Held(Now())), b, c)
    {
      b' := b;
      match c {
        case RelationChange(verb, id, relation) =>
          relationStore.ApplySyncAction(verb, id, relation);
          if verb.Delete? {
            b' := b'.(deletes := b'.deletes + [Deletion(Relations, id)]);
          } else if relation.Some? {
            b' := b'.(relations := b'.relations + [(relation.value.id, relation.value)]);
          }
        case DefinitionChange(verb, id, definition) =>
          customFieldStore.ApplyDefinitionSyncAction(verb, id, definition);
          if verb.Delete? {
            b' := b'.(deletes := b'.deletes + [Deletion(Definitions, id)]);
          } else if definition.Some? {
            b' := b'.(definitions := b'.definitions + [(definition.value.id, definition.value)]);
          }
        case PoolChange(model, verb, id, row) =>
          if ForMe(me, c) {
            pools.ApplySyncAction(verb, PoolKey(model, id), row);
            if verb.Delete? {
              b' := b'.(deletes := b'.deletes + [Deletion(Pool(model), id)]);
            } else if row.Some? {
              b' := b'.(pools := b'.pools + [(PoolKey(model, row.value.id), row.value)]);
            }
          }
        case _ =>
      }
    }

    /** One arm of the switch. */
    method ApplyOne(c: Change, b: Buckets) returns (b': Buckets)
      requires Valid()
      modifies issueStore, relationStore, customFieldStore, pools
      ensures Valid() && Now() == StepClient(me, old(Now()), c)
      ensures b' == Collect(me, old(Held(Now())), b, c)
    {
      hide StepClient, Collect;
      if c.IssueChange? {
        b' := ApplyIssue(c.verb, c.id, c.data, b);
      } else {
        b' := ApplyOther(c, b);
      }
    }

    /** The memory half of a batch: stores, cursor, and the writes left for the closing transaction. */
    method DoApplyActions(batch: seq<SyncAction>) returns (b: Buckets, maxId: Position, moved: bool)
      requires Valid()
      modifies issueStore, relationStore, customFieldStore, pools, this`lastSyncId
      ensures Valid() && Now() == ClientAfter(me, old(Now()), batch)
      ensures Ordered(b) && b == Noted(me, old(Now()), NO_WRITES, batch)
      ensures lastSyncId == maxId == LaterOf(old(lastSyncId), PositionsOf(batch))
      ensures moved <==> MovesUser(me, batch)
    {
      maxId := lastSyncId;
      b, moved := NO_WRITES, false;
      ghost var c, start := Now(), lastSyncId;
      BatchStarts(me, c, start, batch);
      hide BatchPoint, Ordered, StepClient, Collect, ClientAfter, Noted, LaterOf, MovesUser, OwnMembership;
      MovesNone(me, batch);
      var i := 0;
      while i < |batch|
        invariant 0 <= i <= |batch| && Valid()
        invariant BatchPoint(me, c, start, batch, i, Now(), b, maxId)
        invariant moved == MovesUser(me, batch[..i])
      {
        BatchAdvances(me, c, start, batch, i, Now(), b, maxId);
        b := ApplyOne(batch[i].change, b);
        MovesNext(me, batch, i);
        moved := moved || OwnMembership(me, batch[i].change);
        maxId := Later(maxId, PositionOf(batch[i]));
        i := i + 1;
      }
      BatchEnds(me, c, start, batch, Now(), b, maxId);
      lastSyncId := maxId;
    }

    /** The closing transaction: all of it, or (when it fails) none of it. */
    method FlushBuckets(b: Buckets, maxId: Position)
      requires Ordered(b)
      modifies this`database, this`persistedCursor
      ensures database == FlushTo(old(database), b)
      ensures persistedCursor == Some(maxId)
    {
      var values := database.values;
      var i := 0;
      while i < |b.order|
        invariant 0 <= i <= |b.order|
        invariant values == ReplaceAll(database.values, b.order[..i], b.sets)
      {
        assert b.order[..i + 1][..i] == b.order[..i];
        values := PutById(DropIssue(values, b.order[i]), b.sets[b.order[i]]);
        i := i + 1;
      }
      assert b.order[..i] == b.order;
      database := Disk(
        BulkPut(database.issues, b.issues) - DeletedFrom(b, Issues),
        SweepRelations(BulkPut(database.relations, b.relations), b),
        BulkPut(database.definitions, b.definitions) - DeletedFrom(b, Definitions),
        SweepValuesById(values, b),
        SweepPools(BulkPut(database.pools, b.pools), b));
      persistedCursor := Some(maxId);
    }

    /** One task of the apply chain: both halves of a batch. */
    method ApplyActions(batch: seq<SyncAction>)
      requires Valid()
      modifies issueStore, relationStore, customFieldStore, pools
      modifies this`lastSyncId, this`database, this`persistedCursor, this`rebootstraps
      ensures Valid() && Now() == ClientAfter(me, old(Now()), batch)
      ensures lastSyncId == LaterOf(old(lastSyncId), PositionsOf(batch))
      ensures rebootstraps == old(rebootstraps) + if MovesUser(me, batch) then 1 else 0
      ensures rebootstraps > old(rebootstraps)
              <==> me.Some? && me != Some("")
                   && exists i :: 0 <= i < |batch| && batch[i].change == MembershipChange(me)
      ensures batch == [] ==> persistedCursor == old(persistedCursor) && database == old(database)
      ensures batch != [] ==>
                && persistedCursor == Some(lastSyncId)
                && var b := Noted(me, old(Now()), NO_WRITES, batch);
                   Ordered(b) && database == FlushTo(old(database), b)
    {
      hide FlushTo, Ordered;
      MovesUserExactly(me, batch);
      if |batch| == 0 {
        return;
      }
      hide ClientAfter, Noted, LaterOf, MovesUser;
      var b, maxId, moved := DoApplyActions(batch);
      FlushBuckets(b, maxId);
      if moved {
        rebootstraps := rebootstraps + 1;
      }
    }

    /** A list of batches, one task each. */
    method ApplyEach(batches: seq<seq<SyncAction>>)
      requires Valid()
      modifies issueStore, relationStore, customFieldStore, pools
      modifies this`lastSyncId, this`database, this`persistedCursor, this`rebootstraps
      ensures Valid() && Progress(me, old(Here()), Here(), batches)
    {
      ghost var start := Here();
      var i := 0;
      assert batches[..0] == [];
      NoProgress(me, start);
      hide ClientAfter, Noted, FlushTo, Progress, LaterOf, Ordered;
      while i < |batches|
        invariant 0 <= i <= |batches| && Valid()
        invariant Progress(me, start, Here(), batches[..i])
      {
        ghost var mid := Here();
        ApplyActions(batches[i]);
        assert Progress(me, mid, Here(), [batches[i]]) by { OneBatch(me, mid, Here(), batches[i]); }
        ProgressChains(me, start, mid, Here(), batches[..i], [batches[i]]);
        assert batches[..i + 1] == batches[..i] + [batches[i]];
        i := i + 1;
      }
      assert batches[..i] == batches;
    }

    /** Where the client stands: its cursor, what it holds, and the re-bootstraps it has scheduled. */
    function Here(): Point
      reads this`lastSyncId, this`rebootstraps, issueStore, relationStore, customFieldStore, pools
    {
      Point(lastSyncId, Now(), rebootstraps)
    }

    /**
     * One turn of the page loop: the request is out while the socket delivers, then the local
     * cursor moves, then the page is applied. `exit` is set when the loop is to stop here.
     */
    method FetchPage(net: Network, live: Live, page: nat, from: Position)
      returns (cursor: Position, asked: seq<Position>, handed: seq<seq<SyncAction>>, exit: Option<Exit>,
               ghost applied: seq<seq<SyncAction>>)
      requires page < MAX_DELTA_PAGES
      requires Valid()
      modifies issueStore, relationStore, customFieldStore, pools
      modifies this`lastSyncId, this`database, this`persistedCursor, this`rebootstraps
      ensures Valid() && Progress(me, old(Here()), Here(), applied)
      ensures exit.Some? ==>
                && Loop(net, page, from) == Trace(asked, handed, cursor, exit.value)
                && Applied(net, live, page, from) == applied
                && exit.value != PageLimit
      ensures exit.None? ==>
                && Loop(net, page, from) == Prefixed(asked, handed, Loop(net, page + 1, cursor))
                && Applied(net, live, page, from) == applied + Applied(net, live, page + 1, cursor)
    {
      hide Progress, Loop, Applied, NextCursor;
      Turn(net, live, page, from);
      ghost var start := Here();
      cursor, asked, handed, exit := from, [], [], None;
      var res := net(page, from);
      if res.Stopped? {
        exit, applied := Some(Halted), [];
        NoProgress(me, start);
        return;
      }
      asked := [from];
      ApplyEach(live(2 * page));
      applied := live(2 * page);
      if !res.Page? {
        exit := Some(if res.Threw? then Failed else FellBack);
        return;
      }
      cursor := AdvancePast(from, res);
      if |res.actions| > 0 {
        handed := [res.actions];
        ghost var mid := Here();
        ApplyEach([res.actions]);
        ProgressChains(me, start, mid, Here(), applied, [res.actions]);
        ghost var mid2 := Here();
        ApplyEach(live(2 * page + 1));
        ProgressChains(me, start, mid2, Here(), applied + [res.actions], live(2 * page + 1));
        assert applied + [res.actions] + live(2 * page + 1) == applied + ([res.actions] + live(2 * page + 1));
        applied := applied + [res.actions] + live(2 * page + 1);
      } else if res.nextCursor.None? {
        exit := Some(CaughtUp);
        return;
      }
      if !res.hasMore {
        exit := Some(CaughtUp);
      }
    }

    /** The pages, until one of them is the last or the limit is reached. */
    method RunPages(net: Network, live: Live) returns (t: Trace)
      requires Valid()
      modifies issueStore, relationStore, customFieldStore, pools
      modifies this`lastSyncId, this`database, this`persistedCursor, this`rebootstraps
      ensures Valid() && t == Loop(net, 0, old(lastSyncId))
      ensures Progress(me, old(Here()), Here(), Applied(net, live, 0, old(lastSyncId)))
    {
      ghost var start, applied := Here(), [];
      NoProgress(me, start);
      UnderwayAtStart(net, live, lastSyncId);
      hide Progress, Underway, Now, Loop, Applied;
      t := Trace([], [], lastSyncId, PageLimit);
      var page, running := 0, true;
      while page < MAX_DELTA_PAGES && running
        invariant 0 <= page <= MAX_DELTA_PAGES && Valid()
        invariant running ==> t.exit == PageLimit
        invariant Progress(me, start, Here(), applied)
        invariant Underway(net, live, start.cursor, page, t, running, applied)
        decreases MAX_DELTA_PAGES - page, running
      {
        ghost var mid := Here();
        var next, asked, batch, stop, now := FetchPage(net, live, page, t.cursor);
        ProgressChains(me, start, mid, Here(), applied, now);
        UnderwayStep(net, live, start.cursor, page, t, applied, asked, batch, next, stop, now);
        t := Trace(t.requests + asked, t.handed + batch, next, stop.GetOr(PageLimit));
        applied := applied + now;
        running := stop.None?;
        if running {
          page := page + 1;
        }
      }
      UnderwayAtEnd(net, live, start.cursor, page, t, running, applied);
    }

    /** The write phase of a bootstrap; nothing happens when one is under way or could not be fetched. */
    method FullBootstrap(fetched: Option<Payload>)
      requires Valid()
      modifies issueStore, relationStore, customFieldStore, pools
      modifies this`lastSyncId, this`database, this`persistedCursor, this`isBootstrapping
      ensures Valid() && isBootstrapping == old(isBootstrapping)
      ensures old(isBootstrapping) || fetched.None? ==>
                Here() == old(Here()) && database == old(database) && persistedCursor == old(persistedCursor)
      ensures !old(isBootstrapping) && fetched.Some? ==>
                && Now() == LoadedClient(fetched.value) && Exact(issueStore.State())
                && database == Written(old(database), fetched.value)
                && persistedCursor == Some(lastSyncId) && lastSyncId == fetched.value.lastSyncId
    {
      if isBootstrapping {
        return;
      }
      isBootstrapping := true;
      if fetched.Some? {
        hide LoadedClient, Exact, Written;
        database := Written(database, fetched.value);
        persistedCursor := Some(fetched.value.lastSyncId);
        RefillPools(fetched.value);
        lastSyncId := fetched.value.lastSyncId;
      }
      isBootstrapping := false;
    }

    /** Replace, do not merge: the pools are emptied before they are filled. */
    method RefillPools(p: Payload)
      requires Valid()
      modifies issueStore, relationStore, customFieldStore, pools
      ensures Valid() && Now() == LoadedClient(p) && Exact(issueStore.State())
    {
      issueStore.Clear();
      relationStore.Clear();
      customFieldStore.Clear();
      pools.Clear();
      assert Exact(EMPTY_STORE);
      SetAllKeepsIndex(EMPTY_STORE, p.issues);
      hide Exact, SetAll, OrderAfter, Churn, KeysOf, BulkPut, PutValues;
      var swapped := issueStore.UpsertMany(p.issues);
      relationStore.UpsertMany(RelationPairs(p.relations));
      customFieldStore.UpsertDefinitions(RowPairs(p.definitions));
      customFieldStore.UpsertValues(p.values);
      pools.UpsertMany(ModelPairs(p.rows));
    }

    /**
     * The page loop. `net` is the server and `live` the socket: its batches are applied between
     * the awaits and may move `lastSyncId`, the pools and the disk. The loop's own trace is the
     * socket-free one, and what was applied is the interleaving. At the end the shared cursor is
     * raised to the local one, never lowered. A loop that cannot go on falls back on a bootstrap,
     * `fetched`, unless one is under way; one that was stopped leaves everything as it is.
     */
    method DeltaSync(net: Network, live: Live, fetched: Option<Payload>) returns (ran: Option<Trace>)
      requires Valid()
      modifies issueStore, relationStore, customFieldStore, pools, this`lastSyncId, this`database, this`persistedCursor
      modifies this`rebootstraps, this`isDeltaSyncing, this`isBootstrapping
      ensures Valid() && isDeltaSyncing == old(isDeltaSyncing) && isBootstrapping == old(isBootstrapping)
      ensures old(isDeltaSyncing) || stopped ==>
                && ran == None && Here() == old(Here())
                && database == old(database) && persistedCursor == old(persistedCursor)
      ensures !old(isDeltaSyncing) && !stopped ==>
                && ran == Some(Loop(net, 0, old(lastSyncId)))
                && var t := ran.value;
                   var reached := Reached(old(lastSyncId), Applied(net, live, 0, old(lastSyncId)));
                   if t.exit == FellBack && fetched.Some? && !isBootstrapping then
                     && Now() == LoadedClient(fetched.value)
                        && (exists disk :: database == Written(disk, fetched.value))
                     && persistedCursor == Some(lastSyncId) && lastSyncId == fetched.value.lastSyncId
                   else
                     && Progress(me, old(Here()), Here().(cursor := reached), Applied(net, live, 0, old(lastSyncId)))
                     && lastSyncId ==
                        if t.exit == CaughtUp || t.exit == PageLimit then Later(reached, t.cursor) else reached
    {
      hide Progress, Loop, Applied, Reached, Now, LoadedClient, Written;
      if isDeltaSyncing || stopped {
        return None;
      }
      ghost var start := Here();
      isDeltaSyncing := true;
      var t := RunPages(net, live);
      ProgressReaches(me, start, Here(), Applied(net, live, 0, start.cursor));
      if t.exit == FellBack {
        isDeltaSyncing := false;
        FullBootstrap(fetched);
        return Some(t);
      }
      if t.exit == CaughtUp || t.exit == PageLimit {
        lastSyncId := Later(lastSyncId, t.cursor);
      }
      isDeltaSyncing := false;
      ran := Some(t);
    }

    /** The local cursor moves over the page's own actions, then to the end of the unfiltered page. */
    method AdvancePast(from: Position, res: Response) returns (cursor: Position)
      requires res.Page?
      ensures cursor == NextCursor(from, res)
    {
      cursor := from;
      ghost var ps := PositionsOf(res.actions);
      var i := 0;
      while i < |res.actions|
        invariant 0 <= i <= |res.actions|
        invariant LaterOf(cursor, ps[i..]) == LaterOf(from, ps)
      {
        assert ps[i..][1..] == ps[i + 1..];
        if Before(cursor, PositionOf(res.actions[i])) {
          cursor := PositionOf(res.actions[i]);
        }
        i := i + 1;
      }
      if res.nextCursor.Some? && Before(cursor, res.nextCursor.value) {
        cursor := res.nextCursor.value;
      }
    }
  }

  datatype Point = Point(cursor: Position, client: Client, rebootstraps: nat)

  /** Trace of the turns so far in front of the trace of the turns to come. */
  function Prefixed(requests: seq<Position>, handed: seq<seq<SyncAction>>, t: Trace): Trace {
    Trace(requests + t.requests, handed + t.handed, t.cursor, t.exit)
  }

  /** One turn of the loop and of what is applied along it. */
  lemma Turn(net: Network, live: Live, page: nat, cursor: Position)
    requires page < MAX_DELTA_PAGES
    ensures var res := net(page, cursor);
            if res.Stopped? then
              && Loop(net, page, cursor) == Trace([], [], cursor, Halted)
              && Applied(net, live, page, cursor) == []
            else if !res.Page? then
              && Loop(net, page, cursor) == Trace([cursor], [], cursor, if res.Threw? then Failed else FellBack)
              && Applied(net, live, page, cursor) == live(2 * page)
            else if res.actions == [] && res.nextCursor.None? then
              && Loop(net, page, cursor) == Trace([cursor], [], NextCursor(cursor, res), CaughtUp)
              && Applied(net, live, page, cursor) == live(2 * page)
            else
              var next := NextCursor(cursor, res);
              var batch := if res.actions == [] then [] else [res.actions];
              var now := live(2 * page) + if res.actions == [] then [] else [res.actions] + live(2 * page + 1);
              && Loop(net, page, cursor) ==
                 (if res.hasMore then
                    Prefixed([cursor], batch, Loop(net, page + 1, next))
                  else Trace([cursor], batch, next, CaughtUp))
              && Applied(net, live, page, cursor) ==
                 if res.hasMore then now + Applied(net, live, page + 1, next) else now
  {
  }

  /** What has been requested, handed over and applied so far, against the whole loop. */
  ghost predicate Underway(
      net: Network, live: Live, start: Position, page: nat, t: Trace, running: bool, applied: seq<seq<SyncAction>>)
  {
    if running then
      && Prefixed(t.requests, t.handed, Loop(net, page, t.cursor)) == Loop(net, 0, start)
      && applied + Applied(net, live, page, t.cursor) == Applied(net, live, 0, start)
    else t == Loop(net, 0, start) && applied == Applied(net, live, 0, start)
  }

  lemma UnderwayAtStart(net: Network, live: Live, start: Position)
    ensures Underway(net, live, start, 0, Trace([], [], start, PageLimit), true, [])
  {
  }

  lemma UnderwayStep(net: Network, live: Live, start: Position, page: nat, t: Trace, applied: seq<seq<SyncAction>>,
                     asked: seq<Position>, batch: seq<seq<SyncAction>>, next: Position, stop: Option<Exit>,
                     now: seq<seq<SyncAction>>)
    requires Underway(net, live, start, page, t, true, applied)
    requires if stop.Some? then
               && Loop(net, page, t.cursor) == Trace(asked, batch, next, stop.value)
               && Applied(net, live, page, t.cursor) == now
             else
               && Loop(net, page, t.cursor) == Prefixed(asked, batch, Loop(net, page + 1, next))
               && Applied(net, live, page, t.cursor) == now + Applied(net, live, page + 1, next)
    ensures Underway(net, live, start, if stop.None? then page + 1 else page,
                     Trace(t.requests + asked, t.handed + batch, next, stop.GetOr(PageLimit)), stop.None?,
                         applied + now)
  {
    hide Loop, Applied;
    if stop.None? {
      var rest := Loop(net, page + 1, next);
      assert (t.requests + asked) + rest.requests == t.requests + (asked + rest.requests);
      assert (t.handed + batch) + rest.handed == t.handed + (batch + rest.handed);
      assert (applied + now) + Applied(net, live, page + 1, next)
             == applied + (now + Applied(net, live, page + 1, next));
    }
  }

  lemma UnderwayAtEnd(
      net: Network, live: Live, start: Position, page: nat, t: Trace, running: bool, applied: seq<seq<SyncAction>>)
    requires Underway(net, live, start, page, t, running, applied)
    requires running ==> page == MAX_DELTA_PAGES && t.exit == PageLimit
    ensures t == Loop(net, 0, start) && applied == Applied(net, live, 0, start)
  {
  }

  /** From one point to another by applying these batches: the cursor is their maximum, the rest their fold. */
  ghost predicate Progress(me: Option<Id>, a: Point, b: Point, batches: seq<seq<SyncAction>>) {
    && b.cursor == LaterOf(a.cursor, PositionsOf(Flatten(batches)))
    && b.client == ClientAfter(me, a.client, Flatten(batches))
    && b.rebootstraps == a.rebootstraps + Moves(me, batches)
  }

  /** The maximum of a starting cursor and everything applied. */
  function Reached(from: Position, batches: seq<seq<SyncAction>>): Position {
    LaterOf(from, PositionsOf(Flatten(batches)))
  }

  lemma ProgressReaches(me: Option<Id>, a: Point, b: Point, batches: seq<seq<SyncAction>>)
    requires Progress(me, a, b, batches)
    ensures b.cursor == Reached(a.cursor, batches)
  {
  }

  lemma NoProgress(me: Option<Id>, a: Point)
    ensures Progress(me, a, a, [])
  {
  }

  lemma OneBatch(me: Option<Id>, a: Point, b: Point, batch: seq<SyncAction>)
    requires b.cursor == LaterOf(a.cursor, PositionsOf(batch)) && b.client == ClientAfter(me, a.client, batch)
    requires b.rebootstraps == a.rebootstraps + if MovesUser(me, batch) then 1 else 0
    ensures Progress(me, a, b, [batch])
  {
    assert [batch][1..] == [];
    assert Flatten([batch]) == batch + Flatten([]) == batch;
  }

  lemma ProgressChains(me: Option<Id>, a: Point, b: Point, c: Point, x: seq<seq<SyncAction>>, y: seq<seq<SyncAction>>)
    requires Progress(me, a, b, x) && Progress(me, b, c, y)
    ensures Progress(me, a, c, x + y)
  {
    var p, q := Flatten(x), Flatten(y);
    FlattenConcat(x, y);
    MovesConcat(me, x, y);
    hide Flatten, Moves, LaterOf, ClientAfter;
    LaterOfConcat(a.cursor, PositionsOf(p), PositionsOf(q));
    assert PositionsOf(p + q) == PositionsOf(p) + PositionsOf(q);
    ClientAfterConcat(me, a.client, p, q);
  }

  lemma RemovedTwice(values: map<ValueKey, Value>, id: Id)
    ensures WithoutIssue(WithoutIssue(values, id), id) == WithoutIssue(values, id)
  {
  }
}
