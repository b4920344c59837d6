/**
 * What the tab holds, placeholders included, and what a batch does to it
 * (src/lib/sync-manager.ts:1015-1164 over src/stores/issue-store.ts:264-294); on the server rows
 * this is the replica step as long as no placeholder sits under a server id.
 */
module Clients {
  import opened Common
  import opened Rows
  import opened Replica
  import opened Flush
  import opened IssueStores

  datatype Client = Client(
    issues: Catalog,
    relations: map<Id, Relation>,
    definitions: map<Id, Row>,
    values: map<ValueKey, Value>,
    pools: map<PoolKey, Row>)

  const NEW_CLIENT := Client(EMPTY_CATALOG, map[], map[], map[], map[])

  /** Everything held, placeholders among the issues. */
  function Held(c: Client): Memory {
    Memory(c.issues.store.pool, c.relations, c.definitions, c.values, c.pools)
  }

  /** The server rows only. */
  function Served(c: Client): Memory { Held(c).(issues := ServerRows(c.issues.store.pool)) }

  /** The issue arm: the row is normalized against what is held under its id, then handed to the store. */
  function SyncArm(c: Catalog, verb: Verb, id: Id, data: Option<IssueData>): Catalog {
    if verb.Delete? then SyncIssue(c, verb, id, None)
    else if data.Some? && data.value.row.Some? then
      SyncIssue(c, verb, id, Some(AsSyncRow(NormalizeIssueRow(data.value.row.value, LabelsOf(Cell(c.store.pool, id))))))
    else c
  }

  function StepClient(me: Option<Id>, c: Client, change: Change): Client {
    Client(
      if change.IssueChange? then SyncArm(c.issues, change.verb, change.id, change.data) else c.issues,
      ApplyRelations(c.relations, change),
      ApplyDefinitions(c.definitions, change),
      ApplyValues(c.values, change),
      ApplyPools(me, c.pools, change))
  }

  function ClientAfter(me: Option<Id>, c: Client, batch: seq<SyncAction>): Client
    decreases batch
  {
    if batch == [] then c else ClientAfter(me, StepClient(me, c, batch[0].change), batch[1..])
  }

  /** The writes noted for the closing transaction. */
  function Noted(me: Option<Id>, c: Client, b: Buckets, batch: seq<SyncAction>): Buckets
    decreases batch
  {
    if batch == [] then b
    else Noted(me, StepClient(me, c, batch[0].change), Collect(me, Held(c), b, batch[0].change), batch[1..])
  }

  lemma {:induction false} ClientAfterConcat(me: Option<Id>, c: Client, a: seq<SyncAction>, b: seq<SyncAction>)
    ensures ClientAfter(me, c, a + b) == ClientAfter(me, ClientAfter(me, c, a), b)
    decreases a
  {
    hide StepClient;
    if a == [] {
      assert a + b == b;
    } else {
      assert (a + b)[1..] == a[1..] + b;
      ClientAfterConcat(me, StepClient(me, c, a[0].change), a[1..], b);
    }
  }

  // ----- what is noted was sent ---------------------------------------------------------------

  predicate SentIssue(batch: seq<SyncAction>, cols: IssueColumns) {
    exists i :: 0 <= i < |batch| && var c := batch[i].change;
      c.IssueChange? && !c.verb.Delete? && c.data.Some? && c.data.value.row.Some? && c.data.value.row.value.cols == cols
  }

  predicate SentRelation(batch: seq<SyncAction>, r: Relation) {
    exists i :: 0 <= i < |batch| && var c := batch[i].change;
      c.RelationChange? && !c.verb.Delete? && c.relation == Some(r)
  }

  predicate SentDefinition(batch: seq<SyncAction>, r: Row) {
    exists i :: 0 <= i < |batch| && var c := batch[i].change;
      c.DefinitionChange? && !c.verb.Delete? && c.definition == Some(r)
  }

  predicate SentRow(batch: seq<SyncAction>, model: string, r: Row) {
    exists i :: 0 <= i < |batch| && var c := batch[i].change;
      c.PoolChange? && c.model == model && !c.verb.Delete? && c.row == Some(r)
  }

  /** The puts noted after `was`: each is a row that was sent and not deleted, under its own id. */
  ghost predicate PutsSent(was: Buckets, b: Buckets, batch: seq<SyncAction>) {
    && (forall p | p in b.issues ::
          p in was.issues || (p.0 == p.1.cols.id && p.0 != "" && SentIssue(batch, p.1.cols)))
    && (forall p | p in b.relations :: p in was.relations || (p.0 == p.1.id && SentRelation(batch, p.1)))
    && (forall p | p in b.definitions :: p in was.definitions || (p.0 == p.1.id && SentDefinition(batch, p.1)))
    && (forall p | p in b.pools :: p in was.pools || (p.0.id == p.1.id && SentRow(batch, p.0.model, p.1)))
  }

  lemma OnePutSent(me: Option<Id>, c: Client, b: Buckets, a: SyncAction)
    ensures PutsSent(b, Collect(me, Held(c), b, a.change), [a])
  {
    assert [a][0] == a;
    hide NewDeletes, NewOrder, NewSets, NewDeletedIssues, ForMe, Held;
  }

  lemma PutsSentLater(was: Buckets, mid: Buckets, b: Buckets, batch: seq<SyncAction>)
    requires batch != [] && PutsSent(was, mid, [batch[0]]) && PutsSent(mid, b, batch[1..])
    ensures PutsSent(was, b, batch)
  {
    assert batch == [batch[0]] + batch[1..];
    SentSooner([batch[0]], batch[1..]);
    hide SentIssue, SentRelation, SentDefinition, SentRow;
  }

  lemma SentSooner(a: seq<SyncAction>, b: seq<SyncAction>)
    ensures forall cols :: SentIssue(a, cols) || SentIssue(b, cols) ==> SentIssue(a + b, cols)
    ensures forall r :: SentRelation(a, r) || SentRelation(b, r) ==> SentRelation(a + b, r)
    ensures forall r :: SentDefinition(a, r) || SentDefinition(b, r) ==> SentDefinition(a + b, r)
    ensures forall m, r :: SentRow(a, m, r) || SentRow(b, m, r) ==> SentRow(a + b, m, r)
  {
    assert forall i | 0 <= i < |a| :: (a + b)[i] == a[i];
    assert forall i | 0 <= i < |b| :: (a + b)[|a| + i] == b[i];
  }

  /**
   * Only what a batch sends is put on disk, under its own id: no row of a delete, and no issue without an
   * id, which would abort the whole transaction.
   */
  lemma {:induction false} PutsWereSent(me: Option<Id>, c: Client, b: Buckets, batch: seq<SyncAction>)
    ensures PutsSent(b, Noted(me, c, b, batch), batch)
    decreases batch
  {
    if batch != [] {
      var mid := Collect(me, Held(c), b, batch[0].change);
      OnePutSent(me, c, b, batch[0]);
      PutsWereSent(me, StepClient(me, c, batch[0].change), mid, batch[1..]);
      hide Collect, StepClient, PutsSent;
      PutsSentLater(b, mid, Noted(me, c, b, batch), batch);
    }
  }

  lemma {:induction false} NotedIsOrdered(me: Option<Id>, c: Client, b: Buckets, batch: seq<SyncAction>)
    requires Ordered(b)
    ensures Ordered(Noted(me, c, b, batch))
    decreases batch
  {
    hide Ordered, Collect, StepClient;
    if batch != [] {
      CollectStaysOrdered(me, Held(c), b, batch[0].change);
      NotedIsOrdered(me, StepClient(me, c, batch[0].change), Collect(me, Held(c), b, batch[0].change), batch[1..]);
    }
  }

  // ----- the server rows ----------------------------------------------------------------------

  /** A payload that cannot meet a placeholder: a server row under a server id. */
  predicate MeetsNoPlaceholder(pool: map<Id, DBIssue>, c: Change) {
    && WellFormed(c)
    && (c.IssueChange? ==>
          && NoPlaceholderAt(pool, c.id)
          && (c.data.Some? && c.data.value.row.Some? ==> !IsOptimistic(c.data.value.row.value.cols.identifier)))
  }

  predicate Clean(pool: map<Id, DBIssue>, batch: seq<SyncAction>) {
    forall a | a in batch :: MeetsNoPlaceholder(pool, a.change)
  }

  /** Placeholders only ever go away, so a clean batch stays clean. */
  ghost predicate FewerPlaceholders(was: map<Id, DBIssue>, now: map<Id, DBIssue>) {
    forall k | k in now && IsOptimistic(now[k].cols.identifier) :: k in was && was[k] == now[k]
  }

  lemma StaysClean(was: map<Id, DBIssue>, now: map<Id, DBIssue>, batch: seq<SyncAction>)
    requires Clean(was, batch) && FewerPlaceholders(was, now)
    ensures Clean(now, batch)
  {
  }

  lemma CleanArm(c: Catalog, verb: Verb, id: Id, data: Option<IssueData>)
    requires MeetsNoPlaceholder(c.store.pool, IssueChange(verb, id, data))
    ensures var (was, now) := (c.store.pool, SyncArm(c, verb, id, data).store.pool);
            && ServerRows(now) == ApplyIssues(ServerRows(was), IssueChange(verb, id, data))
            && FewerPlaceholders(was, now)
  {
    var pool := c.store.pool;
    if !verb.Delete? && data.Some? && data.value.row.Some? {
      var row := data.value.row.value;
      NormalizeTwice(row, LabelsOf(Cell(pool, id)), LabelsOf(Cell(pool, id)));
      assert LabelsOf(Cell(pool, id)) == LabelsOf(Cell(ServerRows(pool), id));
      NormalizeTwice(row, LabelsOf(Cell(pool, id)), LabelsOf(Cell(ServerRows(pool), id)));
      SyncedServerRows(c, verb, id, Some(AsSyncRow(NormalizeIssueRow(row, LabelsOf(Cell(pool, id))))),
          data.value.values);
      hide SyncIssue, ServerRows;
    } else if verb.Delete? {
      SyncedServerRows(c, verb, id, None, None);
      hide SyncIssue, ServerRows;
    }
  }

  lemma CleanStep(me: Option<Id>, c: Client, b: Buckets, change: Change)
    requires MeetsNoPlaceholder(c.issues.store.pool, change)
    ensures Served(StepClient(me, c, change)) == ApplyChange(me, Served(c), change)
    ensures Collect(me, Held(c), b, change) == Collect(me, Served(c), b, change)
    ensures FewerPlaceholders(c.issues.store.pool, StepClient(me, c, change).issues.store.pool)
  {
    if change.IssueChange? {
      CleanArm(c.issues, change.verb, change.id, change.data);
      assert LabelsOf(Cell(c.issues.store.pool, change.id)) == LabelsOf(Cell(Served(c).issues, change.id));
    }
    hide SyncArm, ApplyRelations, ApplyValues, NewOrder, NewSets, NewDeletes;
  }

  /** A batch that meets no placeholder is the fold of the replica steps on the server rows. */
  lemma {:induction false} CleanBatch(me: Option<Id>, c: Client, b: Buckets, batch: seq<SyncAction>)
    requires Clean(c.issues.store.pool, batch)
    ensures Served(ClientAfter(me, c, batch)) == ApplyAll(me, Served(c), batch)
    ensures Noted(me, c, b, batch) == CollectAll(me, Served(c), b, batch)
    ensures FewerPlaceholders(c.issues.store.pool, ClientAfter(me, c, batch).issues.store.pool)
    decreases batch
  {
    hide StepClient, Collect, ApplyChange, Served, Held, MeetsNoPlaceholder;
    if batch != [] {
      var change := batch[0].change;
      CleanStep(me, c, b, change);
      var next := StepClient(me, c, change);
      StaysClean(c.issues.store.pool, next.issues.store.pool, batch[1..]);
      CleanBatch(me, next, Collect(me, Held(c), b, change), batch[1..]);
    }
  }
}
