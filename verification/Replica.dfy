/**
 * What one sync action does to the in-memory copy (src/lib/sync-manager.ts:1015-1162 and the
 * stores it calls), as functions on values, and the law that makes two delivery channels safe:
 * an action delivered early is absorbed when the ordered stream delivers it again.
 */
module Replica {
  import opened Common
  import opened Rows

  /** The server rows held in memory. Optimistic placeholders live beside them, see IssueStore. */
  datatype Memory = Memory(
    issues: map<Id, DBIssue>,
    relations: map<Id, Relation>,
    definitions: map<Id, Row>,
    values: map<ValueKey, Value>,
    pools: map<PoolKey, Row>)

  const EMPTY := Memory(map[], map[], map[], map[], map[])

  /** One cell of a map. */
  function Cell<K, V>(m: map<K, V>, k: K): Option<V> {
    if k in m then Some(m[k]) else None
  }

  lemma SameCells<K, V>(a: map<K, V>, b: map<K, V>)
    requires forall k :: Cell(a, k) == Cell(b, k)
    ensures a == b
  {
    forall k ensures k in a <==> k in b {
      assert Cell(a, k) == Cell(b, k);
    }
    forall k | k in a ensures a[k] == b[k] {
      assert Cell(a, k) == Cell(b, k);
    }
  }

  // ----- the stores -------------------------------------------------------------------------

  /** `applyPoolSyncAction`: upserts replace the whole row, bodyless upserts do nothing. */
  function ApplyPool<K, V>(pool: map<K, V>, verb: Verb, key: K, row: Option<V>): map<K, V> {
    if verb.Delete? then pool - {key}
    else if row.Some? then pool[key := row.value]
    else pool
  }

  function WithoutIssue(values: map<ValueKey, Value>, issueId: Id): map<ValueKey, Value> {
    map k | k in values && values[k].issueId != issueId :: values[k]
  }

  function WithoutDefinition(values: map<ValueKey, Value>, definitionId: Id): map<ValueKey, Value> {
    map k | k in values && values[k].definitionId != definitionId :: values[k]
  }

  function PutValues(values: map<ValueKey, Value>, rows: seq<Value>): map<ValueKey, Value>
    decreases rows
  {
    if rows == [] then values
    else PutValues(values[KeyOf(rows[0]) := rows[0]], rows[1..])
  }

  predicate Touches(r: Relation, issueId: Id) { r.issueId == issueId || r.relatedIssueId == issueId }

  function WithoutEdges(relations: map<Id, Relation>, issueId: Id): map<Id, Relation> {
    map k | k in relations && !Touches(relations[k], issueId) :: relations[k]
  }

  // ----- one action, store by store -----------------------------------------------------------

  function LabelsOf(issue: Option<DBIssue>): Option<seq<Id>> {
    if issue.Some? then Some(issue.value.labelIds) else None
  }

  function ApplyIssues(issues: map<Id, DBIssue>, c: Change): map<Id, DBIssue> {
    if !c.IssueChange? then issues
    else if c.verb.Delete? then issues - {c.id}
    else if c.data.Some? && c.data.value.row.Some? then
      var row := NormalizeIssueRow(c.data.value.row.value, LabelsOf(Cell(issues, c.id)));
      issues[row.cols.id := row]
    else issues
  }

  function ApplyRelations(relations: map<Id, Relation>, c: Change): map<Id, Relation> {
    match c
    case IssueChange(Delete, id, _) => WithoutEdges(relations, id)
    case RelationChange(verb, id, relation) => ApplyPool(relations, verb, id, relation)
    case _ => relations
  }

  function ApplyDefinitions(definitions: map<Id, Row>, c: Change): map<Id, Row> {
    if c.DefinitionChange? then ApplyPool(definitions, c.verb, c.id, c.definition) else definitions
  }

  function ApplyValues(values: map<ValueKey, Value>, c: Change): map<ValueKey, Value> {
    match c
    case IssueChange(verb, id, data) =>
      if verb.Delete? then WithoutIssue(values, id)
      else if data.Some? && data.value.values.Some? then PutValues(WithoutIssue(values, id), data.value.values.value)
      else values
    case DefinitionChange(Delete, id, _) => WithoutDefinition(values, id)
    case _ => values
  }

  function ApplyPools(me: Option<Id>, pools: map<PoolKey, Row>, c: Change): map<PoolKey, Row> {
    if c.PoolChange? && ForMe(me, c) then ApplyPool(pools, c.verb, PoolKey(c.model, c.id), c.row) else pools
  }

  function ApplyChange(me: Option<Id>, s: Memory, c: Change): Memory {
    Memory(
      ApplyIssues(s.issues, c),
      ApplyRelations(s.relations, c),
      ApplyDefinitions(s.definitions, c),
      ApplyValues(s.values, c),
      ApplyPools(me, s.pools, c))
  }

  function ApplyAll(me: Option<Id>, s: Memory, batch: seq<SyncAction>): Memory
    decreases batch
  {
    if batch == [] then s else ApplyAll(me, ApplyChange(me, s, batch[0].change), batch[1..])
  }

  lemma {:induction false} ApplyAllConcat(me: Option<Id>, s: Memory, a: seq<SyncAction>, b: seq<SyncAction>)
    ensures ApplyAll(me, s, a + b) == ApplyAll(me, ApplyAll(me, s, a), b)
    decreases a
  {
    if a == [] {
      assert a + b == b;
    } else {
      assert (a + b)[1..] == a[1..] + b;
      ApplyAllConcat(me, ApplyChange(me, s, a[0].change), a[1..], b);
    }
  }

  // ----- cell by cell -------------------------------------------------------------------------

  /** The last row of a value set under a key, which is the one that stays. */
  function LastUnder(rows: seq<Value>, k: ValueKey): (v: Option<Value>)
    ensures v.Some? ==> v.value in rows && KeyOf(v.value) == k
    ensures v.None? ==> forall r | r in rows :: KeyOf(r) != k
  {
    if rows == [] then None
    else
      var later := LastUnder(rows[1..], k);
      if later.Some? then later else if KeyOf(rows[0]) == k then Some(rows[0]) else None
  }

  lemma {:induction false} PutValuesCell(values: map<ValueKey, Value>, rows: seq<Value>, k: ValueKey)
    ensures Cell(PutValues(values, rows), k) ==
            if LastUnder(rows, k).Some? then LastUnder(rows, k) else Cell(values, k)
    decreases rows
  {
    if rows != [] {
      PutValuesCell(values[KeyOf(rows[0]) := rows[0]], rows[1..], k);
    }
  }

  /** The effect of a change on one issue cell: a constant, the identity, or a label-keeping write. */
  function IssueCell(c: Change, k: Id, was: Option<DBIssue>): Option<DBIssue> {
    if !c.IssueChange? || c.id != k then was
    else if c.verb.Delete? then None
    else if c.data.Some? && c.data.value.row.Some? then
      Some(NormalizeIssueRow(c.data.value.row.value, LabelsOf(was)))
    else was
  }

  function PoolCell<K(==), V>(verb: Verb, key: K, row: Option<V>, k: K, was: Option<V>): Option<V> {
    if key != k then was else if verb.Delete? then None else if row.Some? then row else was
  }

  function RelationCell(c: Change, k: Id, was: Option<Relation>): Option<Relation> {
    match c
    case IssueChange(Delete, id, _) => if was.Some? && Touches(was.value, id) then None else was
    case RelationChange(verb, id, relation) => PoolCell(verb, id, relation, k, was)
    case _ => was
  }

  function ValueCell(c: Change, k: ValueKey, was: Option<Value>): Option<Value> {
    match c
    case IssueChange(verb, id, data) =>
      var kept := if was.Some? && was.value.issueId == id then None else was;
      if verb.Delete? then kept
      else if data.Some? && data.value.values.Some? then
        var row := LastUnder(data.value.values.value, k);
        if row.Some? then row else kept
      else was
    case DefinitionChange(Delete, id, _) => if was.Some? && was.value.definitionId == id then None else was
    case _ => was
  }

  lemma IssuesByCell(issues: map<Id, DBIssue>, c: Change, k: Id)
    requires WellFormed(c)
    ensures Cell(ApplyIssues(issues, c), k) == IssueCell(c, k, Cell(issues, k))
  {
  }

  lemma RelationsByCell(relations: map<Id, Relation>, c: Change, k: Id)
    ensures Cell(ApplyRelations(relations, c), k) == RelationCell(c, k, Cell(relations, k))
  {
  }

  lemma ValuesByCell(values: map<ValueKey, Value>, c: Change, k: ValueKey)
    ensures Cell(ApplyValues(values, c), k) == ValueCell(c, k, Cell(values, k))
  {
    if c.IssueChange? && !c.verb.Delete? && c.data.Some? && c.data.value.values.Some? {
      PutValuesCell(WithoutIssue(values, c.id), c.data.value.values.value, k);
    }
  }

  // ----- absorption ---------------------------------------------------------------------------

  /** Applying a change twice in a row is applying it once. */
  lemma Idempotent(me: Option<Id>, s: Memory, c: Change)
    requires WellFormed(c)
    ensures ApplyChange(me, ApplyChange(me, s, c), c) == ApplyChange(me, s, c)
  {
    var once := ApplyChange(me, s, c);
    var twice := ApplyChange(me, once, c);
    forall k ensures Cell(twice.issues, k) == Cell(once.issues, k) {
      IssuesByCell(once.issues, c, k);
      IssuesByCell(s.issues, c, k);
    }
    SameCells(twice.issues, once.issues);
    forall k ensures Cell(twice.relations, k) == Cell(once.relations, k) {
      RelationsByCell(once.relations, c, k);
      RelationsByCell(s.relations, c, k);
    }
    SameCells(twice.relations, once.relations);
    forall k ensures Cell(twice.values, k) == Cell(once.values, k) {
      ValuesByCell(once.values, c, k);
      ValuesByCell(s.values, c, k);
    }
    SameCells(twice.values, once.values);
    assert twice.definitions == once.definitions;
    assert twice.pools == once.pools;
  }

  lemma IssuesStayJoined(a: map<Id, DBIssue>, b: map<Id, DBIssue>, x: Change, y: Change)
    requires WellFormed(x) && WellFormed(y)
    requires ApplyIssues(a, x) == ApplyIssues(b, x)
    ensures ApplyIssues(ApplyIssues(a, y), x) == ApplyIssues(ApplyIssues(b, y), x)
  {
    forall k ensures Cell(ApplyIssues(ApplyIssues(a, y), x), k) == Cell(ApplyIssues(ApplyIssues(b, y), x), k) {
      IssuesByCell(a, x, k);
      IssuesByCell(b, x, k);
      IssuesByCell(a, y, k);
      IssuesByCell(b, y, k);
      IssuesByCell(ApplyIssues(a, y), x, k);
      IssuesByCell(ApplyIssues(b, y), x, k);
      hide ApplyIssues;
    }
    SameCells(ApplyIssues(ApplyIssues(a, y), x), ApplyIssues(ApplyIssues(b, y), x));
  }

  lemma RelationsStayJoined(a: map<Id, Relation>, b: map<Id, Relation>, x: Change, y: Change)
    requires ApplyRelations(a, x) == ApplyRelations(b, x)
    ensures ApplyRelations(ApplyRelations(a, y), x) == ApplyRelations(ApplyRelations(b, y), x)
  {
    forall k ensures Cell(ApplyRelations(ApplyRelations(a, y), x), k)
        == Cell(ApplyRelations(ApplyRelations(b, y), x), k) {
      RelationsByCell(a, x, k);
      RelationsByCell(b, x, k);
      RelationsByCell(a, y, k);
      RelationsByCell(b, y, k);
      RelationsByCell(ApplyRelations(a, y), x, k);
      RelationsByCell(ApplyRelations(b, y), x, k);
      hide ApplyRelations;
    }
    SameCells(ApplyRelations(ApplyRelations(a, y), x), ApplyRelations(ApplyRelations(b, y), x));
  }

  lemma ValuesStayJoined(a: map<ValueKey, Value>, b: map<ValueKey, Value>, x: Change, y: Change)
    requires ApplyValues(a, x) == ApplyValues(b, x)
    ensures ApplyValues(ApplyValues(a, y), x) == ApplyValues(ApplyValues(b, y), x)
  {
    forall k ensures Cell(ApplyValues(ApplyValues(a, y), x), k) == Cell(ApplyValues(ApplyValues(b, y), x), k) {
      ValuesByCell(a, x, k);
      ValuesByCell(b, x, k);
      ValuesByCell(a, y, k);
      ValuesByCell(b, y, k);
      ValuesByCell(ApplyValues(a, y), x, k);
      ValuesByCell(ApplyValues(b, y), x, k);
      hide ApplyValues;
    }
    SameCells(ApplyValues(ApplyValues(a, y), x), ApplyValues(ApplyValues(b, y), x));
  }

  /** Two states a change cannot tell apart are still joined by it after any other change. */
  lemma StayJoined(me: Option<Id>, a: Memory, b: Memory, x: Change, y: Change)
    requires WellFormed(x) && WellFormed(y)
    requires ApplyChange(me, a, x) == ApplyChange(me, b, x)
    ensures ApplyChange(me, ApplyChange(me, a, y), x) == ApplyChange(me, ApplyChange(me, b, y), x)
  {
    IssuesStayJoined(a.issues, b.issues, x, y);
    RelationsStayJoined(a.relations, b.relations, x, y);
    ValuesStayJoined(a.values, b.values, x, y);
    hide ApplyIssues, ApplyRelations, ApplyValues;
    DefinitionsStayJoined(a.definitions, b.definitions, x, y);
    PoolsStayJoined(me, a.pools, b.pools, x, y);
  }

  lemma DefinitionsStayJoined(a: map<Id, Row>, b: map<Id, Row>, x: Change, y: Change)
    requires ApplyDefinitions(a, x) == ApplyDefinitions(b, x)
    ensures ApplyDefinitions(ApplyDefinitions(a, y), x) == ApplyDefinitions(ApplyDefinitions(b, y), x)
  {
    var p, q := ApplyDefinitions(ApplyDefinitions(a, y), x), ApplyDefinitions(ApplyDefinitions(b, y), x);
    forall k ensures Cell(p, k) == Cell(q, k) {
      assert Cell(ApplyDefinitions(a, x), k) == Cell(ApplyDefinitions(b, x), k);
    }
    SameCells(p, q);
  }

  lemma PoolsStayJoined(me: Option<Id>, a: map<PoolKey, Row>, b: map<PoolKey, Row>, x: Change, y: Change)
    requires ApplyPools(me, a, x) == ApplyPools(me, b, x)
    ensures ApplyPools(me, ApplyPools(me, a, y), x) == ApplyPools(me, ApplyPools(me, b, y), x)
  {
    var p, q := ApplyPools(me, ApplyPools(me, a, y), x), ApplyPools(me, ApplyPools(me, b, y), x);
    forall k ensures Cell(p, k) == Cell(q, k) {
      assert Cell(ApplyPools(me, a, x), k) == Cell(ApplyPools(me, b, x), k);
    }
    SameCells(p, q);
  }

  predicate AllWellFormed(batch: seq<SyncAction>) {
    forall a | a in batch :: WellFormed(a.change)
  }

  lemma {:induction false} JoinedUntilRedelivery(
      me: Option<Id>, a: Memory, b: Memory, x: SyncAction, stream: seq<SyncAction>)
    requires AllWellFormed(stream) && x in stream
    requires ApplyChange(me, a, x.change) == ApplyChange(me, b, x.change)
    ensures ApplyAll(me, a, stream) == ApplyAll(me, b, stream)
    decreases stream
  {
    hide ApplyChange;
    var y := stream[0];
    if y != x {
      StayJoined(me, a, b, x.change, y.change);
      JoinedUntilRedelivery(me, ApplyChange(me, a, y.change), ApplyChange(me, b, y.change), x, stream[1..]);
    }
  }

  /** An action already applied makes no difference to a stream that still contains it. */
  lemma EarlyActionAbsorbed(me: Option<Id>, s: Memory, x: SyncAction, stream: seq<SyncAction>)
    requires AllWellFormed(stream) && x in stream
    ensures ApplyAll(me, ApplyChange(me, s, x.change), stream) == ApplyAll(me, s, stream)
  {
    Idempotent(me, s, x.change);
    JoinedUntilRedelivery(me, ApplyChange(me, s, x.change), s, x, stream);
  }

  /**
   * `delivered` is the ordered stream with early deliveries mixed in anywhere: every action is
   * either the next of the stream or one the stream has yet to bring.
   */
  predicate EarlyDelivery(delivered: seq<SyncAction>, stream: seq<SyncAction>) {
    if delivered == [] then stream == []
    else
      || (stream != [] && delivered[0] == stream[0] && EarlyDelivery(delivered[1..], stream[1..]))
      || (delivered[0] in stream && EarlyDelivery(delivered[1..], stream))
  }

  /** Whatever arrives early, in whatever order and however often, the end state is the stream's. */
  lemma {:induction false} EarlyDeliveryAbsorbed(
      me: Option<Id>, s: Memory, delivered: seq<SyncAction>, stream: seq<SyncAction>)
    requires AllWellFormed(stream) && EarlyDelivery(delivered, stream)
    ensures ApplyAll(me, s, delivered) == ApplyAll(me, s, stream)
    decreases delivered
  {
    if delivered != [] {
      var x := delivered[0];
      if stream != [] && x == stream[0] && EarlyDelivery(delivered[1..], stream[1..]) {
        EarlyDeliveryAbsorbed(me, ApplyChange(me, s, x.change), delivered[1..], stream[1..]);
      } else {
        EarlyDeliveryAbsorbed(me, ApplyChange(me, s, x.change), delivered[1..], stream);
        EarlyActionAbsorbed(me, s, x, stream);
      }
    }
  }

  lemma {:induction false} StreamDeliversItself(stream: seq<SyncAction>)
    ensures EarlyDelivery(stream, stream)
  {
    if stream != [] { StreamDeliversItself(stream[1..]); }
  }

  lemma {:induction false} AheadOfStream(ahead: seq<SyncAction>, stream: seq<SyncAction>)
    requires forall x | x in ahead :: x in stream
    ensures EarlyDelivery(ahead + stream, stream)
  {
    if ahead == [] {
      assert ahead + stream == stream;
      StreamDeliversItself(stream);
    } else {
      assert (ahead + stream)[1..] == ahead[1..] + stream;
      AheadOfStream(ahead[1..], stream);
    }
  }

  /**
   * A batch made of actions of the stream, in any order and with repetitions, applied before the
   * whole stream, changes nothing: re-delivery from an earlier cursor is harmless.
   */
  lemma RedeliveryAbsorbed(me: Option<Id>, s: Memory, ahead: seq<SyncAction>, stream: seq<SyncAction>)
    requires AllWellFormed(stream)
    requires forall x | x in ahead :: x in stream
    ensures ApplyAll(me, ApplyAll(me, s, ahead), stream) == ApplyAll(me, s, stream)
  {
    AheadOfStream(ahead, stream);
    EarlyDeliveryAbsorbed(me, s, ahead + stream, stream);
    ApplyAllConcat(me, s, ahead, stream);
  }

  // ----- what an issue row is in the end, column by column ------------------------------------

  /** The labels a payload names, first come first: assignments, labels, ids. */
  predicate LabelsAre(row: IssueSyncRow, was: Option<DBIssue>, labels: seq<Id>) {
    if row.labelAssignments.Some? then labels == row.labelAssignments.value
    else if row.labels.Some? then labels == row.labels.value
    else if row.labelIds.Some? then labels == row.labelIds.value
    else labels == if was.Some? then was.value.labelIds else []
  }

  /** An applied row has the columns that were sent, and labels even if the payload is silent about them. */
  lemma AppliedRow(me: Option<Id>, s: Memory, verb: Verb, row: IssueSyncRow, values: Option<seq<Value>>)
    requires !verb.Delete?
    ensures var id := row.cols.id;
            var t := ApplyChange(me, s, IssueChange(verb, id, Some(IssueData(Some(row), values))));
            && id in t.issues && t.issues[id].cols == row.cols
            && LabelsAre(row, Cell(s.issues, id), t.issues[id].labelIds)
            && forall k | k != id :: Cell(t.issues, k) == Cell(s.issues, k)
  {
  }

  predicate SendsRow(c: Change, id: Id) {
    c.IssueChange? && c.id == id && !c.verb.Delete? && c.data.Some? && c.data.value.row.Some?
  }

  predicate SendsLabels(c: Change, id: Id) {
    && SendsRow(c, id)
    && var row := c.data.value.row.value;
       row.labelAssignments.Some? || row.labels.Some? || row.labelIds.Some?
  }

  predicate RemovesIssue(c: Change, id: Id) { c.IssueChange? && c.id == id && c.verb.Delete? }

  /** Actions that neither delete an issue nor name its labels leave the labels. */
  lemma {:induction false} LabelsStay(me: Option<Id>, s: Memory, batch: seq<SyncAction>, id: Id)
    requires AllWellFormed(batch) && id in s.issues
    requires forall a | a in batch :: !SendsLabels(a.change, id) && !RemovesIssue(a.change, id)
    ensures var t := ApplyAll(me, s, batch).issues; id in t && t[id].labelIds == s.issues[id].labelIds
    decreases batch
  {
    if batch != [] {
      IssuesByCell(s.issues, batch[0].change, id);
      hide ApplyIssues;
      LabelsStay(me, ApplyChange(me, s, batch[0].change), batch[1..], id);
    }
  }

  /** Actions that neither delete an issue nor send its row leave the whole row. */
  lemma {:induction false} RowStays(me: Option<Id>, s: Memory, batch: seq<SyncAction>, id: Id)
    requires AllWellFormed(batch)
    requires forall a | a in batch :: !SendsRow(a.change, id) && !RemovesIssue(a.change, id)
    ensures Cell(ApplyAll(me, s, batch).issues, id) == Cell(s.issues, id)
    decreases batch
  {
    if batch != [] {
      IssuesByCell(s.issues, batch[0].change, id);
      hide ApplyIssues;
      RowStays(me, ApplyChange(me, s, batch[0].change), batch[1..], id);
    }
  }

  /** Cutting a batch at one of its actions. */
  lemma AppliedAround(me: Option<Id>, s: Memory, batch: seq<SyncAction>, i: nat)
    requires i < |batch|
    ensures ApplyAll(me, s, batch)
            == ApplyAll(me, ApplyChange(me, ApplyAll(me, s, batch[..i]), batch[i].change), batch[i + 1..])
  {
    hide ApplyChange;
    assert batch == batch[..i] + batch[i..] && batch[i..][1..] == batch[i + 1..];
    ApplyAllConcat(me, s, batch[..i], batch[i..]);
  }

  /**
   * After a batch the labels of an issue are those of the last row under its id that names labels,
   * if no delete comes after it.
   */
  lemma LabelsAfterAll(me: Option<Id>, s: Memory, batch: seq<SyncAction>, id: Id, i: nat)
    requires AllWellFormed(batch) && i < |batch| && SendsLabels(batch[i].change, id)
    requires forall j | i < j < |batch| :: !SendsLabels(batch[j].change, id) && !RemovesIssue(batch[j].change, id)
    ensures var t := ApplyAll(me, s, batch).issues;
            id in t && LabelsAre(batch[i].change.data.value.row.value, None, t[id].labelIds)
  {
    var c := batch[i].change;
    var before := ApplyAll(me, s, batch[..i]);
    AppliedAround(me, s, batch, i);
    AppliedRow(me, before, c.verb, c.data.value.row.value, c.data.value.values);
    hide ApplyAll, ApplyChange;
    LabelsStay(me, ApplyChange(me, before, c), batch[i + 1..], id);
  }

  /** And its columns are those of the last row under its id. */
  lemma ColumnsAfterAll(me: Option<Id>, s: Memory, batch: seq<SyncAction>, id: Id, i: nat)
    requires AllWellFormed(batch) && i < |batch| && SendsRow(batch[i].change, id)
    requires forall j | i < j < |batch| :: !SendsRow(batch[j].change, id) && !RemovesIssue(batch[j].change, id)
    ensures var t := ApplyAll(me, s, batch).issues; id in t && t[id].cols == batch[i].change.data.value.row.value.cols
  {
    var c := batch[i].change;
    var before := ApplyAll(me, s, batch[..i]);
    AppliedAround(me, s, batch, i);
    AppliedRow(me, before, c.verb, c.data.value.row.value, c.data.value.values);
    hide ApplyAll, ApplyChange;
    RowStays(me, ApplyChange(me, before, c), batch[i + 1..], id);
  }

  /** A deleted issue is gone unless a row comes after the delete. */
  lemma DeletedAfterAll(me: Option<Id>, s: Memory, batch: seq<SyncAction>, id: Id, i: nat)
    requires AllWellFormed(batch) && i < |batch| && RemovesIssue(batch[i].change, id)
    requires forall j | i < j < |batch| :: !SendsRow(batch[j].change, id)
    ensures id !in ApplyAll(me, s, batch).issues
  {
    var before := ApplyAll(me, s, batch[..i]);
    AppliedAround(me, s, batch, i);
    var after := ApplyChange(me, before, batch[i].change);
    assert id !in after.issues;
    hide ApplyAll, ApplyChange;
    StaysGone(me, after, batch[i + 1..], id);
  }

  lemma {:induction false} StaysGone(me: Option<Id>, s: Memory, batch: seq<SyncAction>, id: Id)
    requires AllWellFormed(batch) && id !in s.issues
    requires forall a | a in batch :: !SendsRow(a.change, id)
    ensures id !in ApplyAll(me, s, batch).issues
    decreases batch
  {
    if batch != [] {
      IssuesByCell(s.issues, batch[0].change, id);
      hide ApplyIssues;
      StaysGone(me, ApplyChange(me, s, batch[0].change), batch[1..], id);
    }
  }

  // ----- whose rows are held ------------------------------------------------------------------

  /** A notification or favourite that belongs to somebody else. */
  predicate Foreign(me: Option<Id>, model: string, row: Row) {
    && (model == "Notification" || model == "Favorite")
    && row.owner.Some? && row.owner.value != "" && row.owner != me
  }

  /** No batch brings somebody else's notification or favourite. */
  lemma {:induction false} NobodyElsesRows(me: Option<Id>, s: Memory, batch: seq<SyncAction>)
    requires forall k | k in s.pools :: !Foreign(me, k.model, s.pools[k])
    ensures var t := ApplyAll(me, s, batch).pools; forall k | k in t :: !Foreign(me, k.model, t[k])
    decreases batch
  {
    if batch != [] {
      NobodyElsesRows(me, ApplyChange(me, s, batch[0].change), batch[1..]);
    }
  }

  /** Every other row is taken, and every delete. */
  lemma OwnRowsAreTaken(me: Option<Id>, s: Memory, model: string, verb: Verb, id: Id, row: Option<Row>)
    requires verb.Delete? || (row.Some? && !Foreign(me, model, row.value))
    ensures var t := ApplyChange(me, s, PoolChange(model, verb, id, row)).pools;
            && Cell(t, PoolKey(model, id)) == (if verb.Delete? then None else row)
            && forall k | k != PoolKey(model, id) :: Cell(t, k) == Cell(s.pools, k)
  {
  }
}
