/**
 * The on-disk copy (src/lib/sync-manager.ts:935-1012 and 1167-1298). A batch is applied to memory
 * action by action, but its disk writes are collected into buckets and flushed later in another
 * order: upserts, deletes, value replacements, cascades. This module computes exactly what that
 * reordering does, and says exactly which batches leave the two copies equal.
 */
module Flush {
  import opened Common
  import opened Rows
  import opened Replica

  /** The Dexie tables behind `Memory`. Values are stored by their own id, not by issue and field. */
  datatype Disk = Disk(
    issues: map<Id, DBIssue>,
    relations: map<Id, Relation>,
    definitions: map<Id, Row>,
    values: map<Id, Value>,
    pools: map<PoolKey, Row>)

  const BLANK := Disk(map[], map[], map[], map[], map[])

  datatype Table = Issues | Relations | Definitions | Pool(model: string)

  datatype Deletion = Deletion(table: Table, id: Id)

  /** Writes waiting for the closing transaction; upserts are paired with their primary key. */
  datatype Buckets = Buckets(
    issues: seq<(Id, DBIssue)>,
    relations: seq<(Id, Relation)>,
    definitions: seq<(Id, Row)>,
    pools: seq<(PoolKey, Row)>,
    deletes: seq<Deletion>,
    order: seq<Id>,                   // keys of `sets`, oldest first
    sets: map<Id, seq<Value>>,
    deletedIssues: seq<Id>)

  const NO_WRITES := Buckets([], [], [], [], [], [], map[], [])

  // ----- collecting ---------------------------------------------------------------------------
  // What one action adds to each bucket; `s` is the memory it is about to be applied to.

  function NewIssues(s: Memory, c: Change): seq<(Id, DBIssue)> {
    if c.IssueChange? && !c.verb.Delete? && c.data.Some? && c.data.value.row.Some? then
      var row := NormalizeIssueRow(c.data.value.row.value, LabelsOf(Cell(s.issues, c.id)));
      if row.cols.id != "" then [(row.cols.id, row)] else []
    else []
  }

  function NewRelations(c: Change): seq<(Id, Relation)> {
    if c.RelationChange? && !c.verb.Delete? && c.relation.Some? then [(c.relation.value.id, c.relation.value)] else []
  }

  function NewDefinitions(c: Change): seq<(Id, Row)> {
    if c.DefinitionChange? && !c.verb.Delete? && c.definition.Some? then [(c.definition.value.id, c.definition.value)]
    else []
  }

  function NewPools(me: Option<Id>, c: Change): seq<(PoolKey, Row)> {
    if c.PoolChange? && ForMe(me, c) && !c.verb.Delete? && c.row.Some? then
      [(PoolKey(c.model, c.row.value.id), c.row.value)]
    else []
  }

  function NewDeletes(c: Change): seq<Deletion> {
    match c
    case IssueChange(Delete, id, _) => [Deletion(Issues, id)]
    case RelationChange(Delete, id, _) => [Deletion(Relations, id)]
    case DefinitionChange(Delete, id, _) => [Deletion(Definitions, id)]
    case PoolChange(model, Delete, id, _) => [Deletion(Pool(model), id)]
    case _ => []
  }

  function NewDeletedIssues(c: Change): seq<Id> {
    if c.IssueChange? && c.verb.Delete? then [c.id] else []
  }

  /** The value set an issue action carries, if any. */
  function NewSet(c: Change): Option<seq<Value>> {
    if c.IssueChange? && c.data.Some? then c.data.value.values else None
  }

  /** `customFieldValueReplaces.set`: a key keeps its first place. */
  function NewOrder(b: Buckets, c: Change): seq<Id> {
    if NewSet(c).Some? && c.id !in b.sets then b.order + [c.id] else b.order
  }

  function NewSets(b: Buckets, c: Change): map<Id, seq<Value>> {
    if NewSet(c).Some? then b.sets[c.id := NewSet(c).value] else b.sets
  }

  function Collect(me: Option<Id>, s: Memory, b: Buckets, c: Change): Buckets {
    Buckets(
      b.issues + NewIssues(s, c),
      b.relations + NewRelations(c),
      b.definitions + NewDefinitions(c),
      b.pools + NewPools(me, c),
      b.deletes + NewDeletes(c),
      NewOrder(b, c),
      NewSets(b, c),
      b.deletedIssues + NewDeletedIssues(c))
  }

  function CollectAll(me: Option<Id>, s: Memory, b: Buckets, batch: seq<SyncAction>): Buckets
    decreases batch
  {
    if batch == [] then b
    else CollectAll(me, ApplyChange(me, s, batch[0].change), Collect(me, s, b, batch[0].change), batch[1..])
  }

  // ----- flushing -----------------------------------------------------------------------------

  function BulkPut<K(==), V>(table: map<K, V>, rows: seq<(K, V)>): map<K, V> {
    if rows == [] then table
    else
      var last := rows[|rows| - 1];
      BulkPut(table, rows[..|rows| - 1])[last.0 := last.1]
  }

  function DeletedFrom(b: Buckets, table: Table): set<Id> { DeletedIn(b.deletes, table) }

  function DeletedIn(deletes: seq<Deletion>, table: Table): set<Id> {
    set d | d in deletes && d.table == table :: d.id
  }

  function PutById(table: map<Id, Value>, rows: seq<Value>): map<Id, Value> {
    if rows == [] then table
    else
      var last := rows[|rows| - 1];
      PutById(table, rows[..|rows| - 1])[last.id := last]
  }

  function DropIssue(table: map<Id, Value>, issueId: Id): map<Id, Value> {
    map w | w in table && table[w].issueId != issueId :: table[w]
  }

  /** For each replaced issue: delete its stale rows by index, then put the fresh ones. */
  function ReplaceAll(table: map<Id, Value>, order: seq<Id>, sets: map<Id, seq<Value>>): map<Id, Value>
    requires forall i | i in order :: i in sets
  {
    if order == [] then table
    else
      var issueId := order[|order| - 1];
      PutById(DropIssue(ReplaceAll(table, order[..|order| - 1], sets), issueId), sets[issueId])
  }

  predicate Ordered(b: Buckets) {
    && (forall i | i in b.order :: i in b.sets)
    && (forall i | i in b.sets :: i in b.order)
    && (forall x, y | 0 <= x < y < |b.order| :: b.order[x] != b.order[y])
  }

  function SweepValuesById(table: map<Id, Value>, b: Buckets): map<Id, Value> {
    map w | w in table && table[w].definitionId !in DeletedFrom(b, Definitions) && table[w].issueId !in b.deletedIssues
      :: table[w]
  }

  function SweepRelations(relations: map<Id, Relation>, b: Buckets): map<Id, Relation> {
    map k | k in relations && k !in DeletedFrom(b, Relations)
            && relations[k].issueId !in b.deletedIssues && relations[k].relatedIssueId !in b.deletedIssues
      :: relations[k]
  }

  function SweepPools(pools: map<PoolKey, Row>, b: Buckets): map<PoolKey, Row> {
    map k | k in pools && Deletion(Pool(k.model), k.id) !in b.deletes :: pools[k]
  }

  /** The closing transaction. */
  function FlushTo(disk: Disk, b: Buckets): Disk
    requires Ordered(b)
  {
    Disk(
      BulkPut(disk.issues, b.issues) - DeletedFrom(b, Issues),
      SweepRelations(BulkPut(disk.relations, b.relations), b),
      BulkPut(disk.definitions, b.definitions) - DeletedFrom(b, Definitions),
      SweepValuesById(ReplaceAll(disk.values, b.order, b.sets), b),
      SweepPools(BulkPut(disk.pools, b.pools), b))
  }

  // ----- the two copies -----------------------------------------------------------------------

  /**
   * `own` says which issue and field a value row belongs to: a row id never moves. A server set is
   * good when its rows belong to the issue it is sent for and no field occurs twice.
   */
  ghost predicate GoodSet(own: Id -> ValueKey, issueId: Id, rows: seq<Value>) {
    && (forall v | v in rows :: v.issueId == issueId && own(v.id) == KeyOf(v))
    && (forall x, y | 0 <= x < y < |rows| :: KeyOf(rows[x]) != KeyOf(rows[y]))
  }

  ghost predicate GoodChange(own: Id -> ValueKey, c: Change) {
    && WellFormed(c)
    && (c.IssueChange? && c.data.Some? && c.data.value.values.Some? ==> GoodSet(own, c.id, c.data.value.values.value))
  }

  ghost predicate GoodBatch(own: Id -> ValueKey, batch: seq<SyncAction>) {
    forall a | a in batch :: GoodChange(own, a.change)
  }

  ghost predicate OwnedValues(own: Id -> ValueKey, values: map<ValueKey, Value>) {
    forall k | k in values :: KeyOf(values[k]) == k && own(values[k].id) == k
  }

  ghost predicate OwnedRows(own: Id -> ValueKey, table: map<Id, Value>) {
    forall w | w in table :: table[w].id == w && own(w) == KeyOf(table[w])
  }

  /** The row memory keeps under a row id. */
  ghost function ById(own: Id -> ValueKey, values: map<ValueKey, Value>, w: Id): Option<Value> {
    if own(w) in values && values[own(w)].id == w then Some(values[own(w)]) else None
  }

  ghost predicate SameValues(own: Id -> ValueKey, values: map<ValueKey, Value>, table: map<Id, Value>) {
    && OwnedValues(own, values)
    && OwnedRows(own, table)
    && forall w :: Cell(table, w) == ById(own, values, w)
  }

  /** Memory and disk hold the same rows. */
  ghost predicate Agree(own: Id -> ValueKey, s: Memory, disk: Disk) {
    && s.issues == disk.issues
    && s.relations == disk.relations
    && s.definitions == disk.definitions
    && s.pools == disk.pools
    && SameValues(own, s.values, disk.values)
  }

  function SweepValues(values: map<ValueKey, Value>, b: Buckets): map<ValueKey, Value> {
    map k | k in values && values[k].definitionId !in DeletedFrom(b, Definitions)
        && values[k].issueId !in b.deletedIssues
      :: values[k]
  }

  /** Memory less everything the batch's deletes match, whether or not it was written afterwards. */
  function Sweep(s: Memory, b: Buckets): Memory {
    Memory(
      s.issues - DeletedFrom(b, Issues),
      SweepRelations(s.relations, b),
      s.definitions - DeletedFrom(b, Definitions),
      SweepValues(s.values, b),
      SweepPools(s.pools, b))
  }

  // ----- value sets ---------------------------------------------------------------------------

  function FindById(rows: seq<Value>, w: Id): (v: Option<Value>)
    ensures v.Some? ==> v.value in rows && v.value.id == w
    ensures v.None? ==> forall r | r in rows :: r.id != w
  {
    if rows == [] then None
    else if rows[|rows| - 1].id == w then Some(rows[|rows| - 1])
    else
      assert rows == rows[..|rows| - 1] + [rows[|rows| - 1]];
      FindById(rows[..|rows| - 1], w)
  }

  lemma {:induction false} PutByIdCell(table: map<Id, Value>, rows: seq<Value>, w: Id)
    ensures Cell(PutById(table, rows), w) == if FindById(rows, w).Some? then FindById(rows, w) else Cell(table, w)
  {
    if rows != [] {
      PutByIdCell(table, rows[..|rows| - 1], w);
    }
  }

  /** In a good set the row under a field and the row under its id are the same row. */
  lemma GoodSetLookups(own: Id -> ValueKey, issueId: Id, rows: seq<Value>, w: Id)
    requires GoodSet(own, issueId, rows)
    ensures FindById(rows, w) ==
            var v := LastUnder(rows, own(w)); if v.Some? && v.value.id == w then v else None
  {
  }

  ghost predicate GoodSets(own: Id -> ValueKey, sets: map<Id, seq<Value>>) {
    forall i | i in sets :: GoodSet(own, i, sets[i])
  }

  /** Replacing touches each issue's rows independently of the order the issues are taken in. */
  lemma {:induction false} ReplaceAllCell(
      own: Id -> ValueKey, table: map<Id, Value>, order: seq<Id>, sets: map<Id, seq<Value>>, w: Id)
    requires forall i | i in order :: i in sets
    requires OwnedRows(own, table) && GoodSets(own, sets)
    ensures OwnedRows(own, ReplaceAll(table, order, sets))
    ensures Cell(ReplaceAll(table, order, sets), w) ==
            if own(w).issueId in order then FindById(sets[own(w).issueId], w) else Cell(table, w)
  {
    if order != [] {
      var n := |order| - 1;
      var issueId := order[n];
      assert order == order[..n] + [issueId];
      var before := ReplaceAll(table, order[..n], sets);
      ReplaceAllCell(own, table, order[..n], sets, w);
      var dropped, rows := DropIssue(before, issueId), sets[issueId];
      assert GoodSet(own, issueId, rows);
      PutByIdCell(dropped, rows, w);
      forall x | x in PutById(dropped, rows)
        ensures PutById(dropped, rows)[x].id == x && own(x) == KeyOf(PutById(dropped, rows)[x])
      {
        PutByIdCell(dropped, rows, x);
      }
    }
  }

  // ----- one action ---------------------------------------------------------------------------

  /** What holds between the disk before the batch, the memory now, and the buckets so far. */
  ghost predicate Tracks(own: Id -> ValueKey, disk: Disk, s: Memory, b: Buckets) {
    && Ordered(b)
    && GoodSets(own, b.sets)
    && OwnedRows(own, disk.values)
    && OwnedValues(own, s.values)
    && var flushed, swept := FlushTo(disk, b), Sweep(s, b);
       && flushed.issues == swept.issues
       && flushed.relations == swept.relations
       && flushed.definitions == swept.definitions
       && flushed.pools == swept.pools
       && forall w :: Cell(flushed.values, w) == ById(own, swept.values, w)
  }

  lemma TracksAtStart(own: Id -> ValueKey, s: Memory, disk: Disk)
    requires Agree(own, s, disk)
    ensures Tracks(own, disk, s, NO_WRITES)
  {
    var flushed, swept := FlushTo(disk, NO_WRITES), Sweep(s, NO_WRITES);
    assert flushed.relations == disk.relations && swept.relations == s.relations;
    assert flushed.pools == disk.pools && swept.pools == s.pools;
    assert flushed.values == disk.values && swept.values == s.values;
  }

  lemma {:induction false} BulkPutSnoc<K, V>(table: map<K, V>, rows: seq<(K, V)>, row: (K, V))
    ensures BulkPut(table, rows + [row]) == BulkPut(table, rows)[row.0 := row.1]
  {
  }

  lemma DeletedInConcat(a: seq<Deletion>, b: seq<Deletion>, table: Table)
    ensures DeletedIn(a + b, table) == DeletedIn(a, table) + DeletedIn(b, table)
  {
  }

  lemma IssuesTracked(table: map<Id, DBIssue>, s: Memory, b: Buckets, me: Option<Id>, c: Change)
    requires WellFormed(c)
    requires BulkPut(table, b.issues) - DeletedFrom(b, Issues) == s.issues - DeletedFrom(b, Issues)
    ensures var b' := Collect(me, s, b, c);
            BulkPut(table, b'.issues) - DeletedFrom(b', Issues) == ApplyIssues(s.issues, c) - DeletedFrom(b', Issues)
  {
    var b' := Collect(me, s, b, c);
    DeletedInConcat(b.deletes, NewDeletes(c), Issues);
    if NewIssues(s, c) == [] {
      assert b'.issues == b.issues;
    } else {
      BulkPutSnoc(table, b.issues, NewIssues(s, c)[0]);
    }
    var before, after := BulkPut(table, b.issues), BulkPut(table, b'.issues);
    var p, q := after - DeletedFrom(b', Issues), ApplyIssues(s.issues, c) - DeletedFrom(b', Issues);
    forall k ensures Cell(p, k) == Cell(q, k) {
      assert Cell(before - DeletedFrom(b, Issues), k) == Cell(s.issues - DeletedFrom(b, Issues), k);
      IssuesByCell(s.issues, c, k);
    }
    SameCells(p, q);
  }

  /** A table after at most one more put. */
  function Put<K, V>(table: map<K, V>, put: seq<(K, V)>): map<K, V> {
    if put == [] then table else table[put[0].0 := put[0].1]
  }

  lemma PutsMatch<K, V>(table: map<K, V>, rows: seq<(K, V)>, put: seq<(K, V)>)
    requires |put| <= 1
    ensures BulkPut(table, rows + put) == Put(BulkPut(table, rows), put)
  {
    if put == [] {
      assert rows + put == rows;
    } else {
      assert put == [put[0]];
      BulkPutSnoc(table, rows, put[0]);
    }
  }

  /** One definition, before and after the change, on both sides. */
  lemma DefinitionTracked(me: Option<Id>, s: Memory, b: Buckets, c: Change, before: map<Id, Row>, k: Id)
    requires WellFormed(c)
    requires Cell(before - DeletedFrom(b, Definitions), k) == Cell(s.definitions - DeletedFrom(b, Definitions), k)
    ensures var b' := Collect(me, s, b, c);
            Cell(Put(before, NewDefinitions(c)) - DeletedFrom(b', Definitions), k)
            == Cell(ApplyDefinitions(s.definitions, c) - DeletedFrom(b', Definitions), k)
  {
    DeletedInConcat(b.deletes, NewDeletes(c), Definitions);
    hide NewIssues, NewRelations, NewPools, NewOrder, NewSets;
  }

  lemma DefinitionsTracked(table: map<Id, Row>, s: Memory, b: Buckets, me: Option<Id>, c: Change)
    requires WellFormed(c)
    requires BulkPut(table, b.definitions) - DeletedFrom(b, Definitions) == s.definitions - DeletedFrom(b, Definitions)
    ensures var b' := Collect(me, s, b, c);
            BulkPut(table, b'.definitions) - DeletedFrom(b', Definitions)
            == ApplyDefinitions(s.definitions, c) - DeletedFrom(b', Definitions)
  {
    var b' := Collect(me, s, b, c);
    assert |NewDefinitions(c)| <= 1 && b'.definitions == b.definitions + NewDefinitions(c);
    hide DeletedFrom, ApplyDefinitions, BulkPut, Put, Collect, NewDefinitions;
    PutsMatch(table, b.definitions, NewDefinitions(c));
    forall k {
      DefinitionTracked(me, s, b, c, BulkPut(table, b.definitions), k);
    }
    SameCells(BulkPut(table, b'.definitions) - DeletedFrom(b', Definitions),
              ApplyDefinitions(s.definitions, c) - DeletedFrom(b', Definitions));
  }

  /** One pool row, before and after the change, on both sides. */
  lemma PoolTracked(me: Option<Id>, s: Memory, b: Buckets, c: Change, before: map<PoolKey, Row>, k: PoolKey)
    requires WellFormed(c)
    requires Cell(SweepPools(before, b), k) == Cell(SweepPools(s.pools, b), k)
    ensures var b' := Collect(me, s, b, c);
            Cell(SweepPools(Put(before, NewPools(me, c)), b'), k) == Cell(SweepPools(ApplyPools(me, s.pools, c), b'), k)
  {
  }

  lemma PoolsTracked(table: map<PoolKey, Row>, s: Memory, b: Buckets, me: Option<Id>, c: Change)
    requires WellFormed(c)
    requires SweepPools(BulkPut(table, b.pools), b) == SweepPools(s.pools, b)
    ensures var b' := Collect(me, s, b, c);
            SweepPools(BulkPut(table, b'.pools), b') == SweepPools(ApplyPools(me, s.pools, c), b')
  {
    var b' := Collect(me, s, b, c);
    assert |NewPools(me, c)| <= 1 && b'.pools == b.pools + NewPools(me, c);
    hide SweepPools, ApplyPools, BulkPut, Put, Collect, NewPools;
    PutsMatch(table, b.pools, NewPools(me, c));
    var before := BulkPut(table, b.pools);
    forall k {
      PoolTracked(me, s, b, c, before, k);
    }
    SameCells(SweepPools(BulkPut(table, b'.pools), b'), SweepPools(ApplyPools(me, s.pools, c), b'));
  }

  /** A relation unless the deletes of the batch match it. */
  function SweptRelation(v: Option<Relation>, b: Buckets, k: Id): Option<Relation> {
    if v.Some? && k !in DeletedFrom(b, Relations)
       && v.value.issueId !in b.deletedIssues && v.value.relatedIssueId !in b.deletedIssues then v
    else None
  }

  lemma SweptRelationCell(relations: map<Id, Relation>, b: Buckets, k: Id)
    ensures Cell(SweepRelations(relations, b), k) == SweptRelation(Cell(relations, k), b, k)
  {
  }

  /** Relations equal once swept before a change are equal once swept after it. */
  lemma RelationSweptAlike(
      me: Option<Id>, s: Memory, b: Buckets, c: Change, x: Option<Relation>, v: Option<Relation>, k: Id)
    requires WellFormed(c) && SweptRelation(x, b, k) == SweptRelation(v, b, k)
    ensures var put := NewRelations(c);
            var x' := if put != [] && put[0].0 == k then Some(put[0].1) else x;
            SweptRelation(x', Collect(me, s, b, c), k) == SweptRelation(RelationCell(c, k, v), Collect(me, s, b, c), k)
  {
    DeletedInConcat(b.deletes, NewDeletes(c), Relations);
    hide NewIssues, NewDefinitions, NewPools, NewOrder, NewSets;
  }

  /** One relation, before and after the change, on both sides. */
  lemma RelationTracked(me: Option<Id>, s: Memory, b: Buckets, c: Change, before: map<Id, Relation>, k: Id)
    requires WellFormed(c)
    requires Cell(SweepRelations(before, b), k) == Cell(SweepRelations(s.relations, b), k)
    ensures Cell(SweepRelations(Put(before, NewRelations(c)), Collect(me, s, b, c)), k)
            == Cell(SweepRelations(ApplyRelations(s.relations, c), Collect(me, s, b, c)), k)
  {
    var put := NewRelations(c);
    var after := Put(before, put);
    assert Cell(after, k) == if put != [] && put[0].0 == k then Some(put[0].1) else Cell(before, k);
    hide SweepRelations, ApplyRelations, RelationCell, NewRelations, Collect, SweptRelation, Put;
    SweptRelationCell(before, b, k);
    SweptRelationCell(s.relations, b, k);
    SweptRelationCell(after, Collect(me, s, b, c), k);
    SweptRelationCell(ApplyRelations(s.relations, c), Collect(me, s, b, c), k);
    RelationsByCell(s.relations, c, k);
    RelationSweptAlike(me, s, b, c, Cell(before, k), Cell(s.relations, k), k);
  }

  lemma RelationsTracked(table: map<Id, Relation>, s: Memory, b: Buckets, me: Option<Id>, c: Change)
    requires WellFormed(c)
    requires SweepRelations(BulkPut(table, b.relations), b) == SweepRelations(s.relations, b)
    ensures var b' := Collect(me, s, b, c);
            SweepRelations(BulkPut(table, b'.relations), b') == SweepRelations(ApplyRelations(s.relations, c), b')
  {
    var b' := Collect(me, s, b, c);
    assert |NewRelations(c)| <= 1 && b'.relations == b.relations + NewRelations(c);
    hide SweepRelations, ApplyRelations, BulkPut, Put, Collect, NewRelations;
    PutsMatch(table, b.relations, NewRelations(c));
    var before := BulkPut(table, b.relations);
    forall k {
      RelationTracked(me, s, b, c, before, k);
    }
    SameCells(SweepRelations(BulkPut(table, b'.relations), b'), SweepRelations(ApplyRelations(s.relations, c), b'));
  }

  /** The order list and the set map stay in step whatever is collected. */
  lemma CollectStaysOrdered(me: Option<Id>, s: Memory, b: Buckets, c: Change)
    requires Ordered(b)
    ensures Ordered(Collect(me, s, b, c))
  {
  }

  lemma OrderKept(own: Id -> ValueKey, me: Option<Id>, s: Memory, b: Buckets, c: Change)
    requires Ordered(b) && GoodSets(own, b.sets) && GoodChange(own, c)
    ensures Ordered(Collect(me, s, b, c)) && GoodSets(own, Collect(me, s, b, c).sets)
  {
  }

  /** Values keep their keys: what a good change writes sits where its key says. */
  lemma ValuesStayOwned(own: Id -> ValueKey, values: map<ValueKey, Value>, c: Change)
    requires OwnedValues(own, values) && GoodChange(own, c)
    ensures OwnedValues(own, ApplyValues(values, c))
  {
    forall k | k in ApplyValues(values, c)
      ensures KeyOf(ApplyValues(values, c)[k]) == k && own(ApplyValues(values, c)[k].id) == k
    {
      ValuesByCell(values, c, k);
    }
  }

  /** A row unless the deletes of the batch match it. */
  function Swept(v: Option<Value>, b: Buckets): Option<Value> {
    if v.Some? && v.value.definitionId !in DeletedFrom(b, Definitions) && v.value.issueId !in b.deletedIssues then v
    else None
  }

  lemma SweptCells(own: Id -> ValueKey, table: map<Id, Value>, values: map<ValueKey, Value>, b: Buckets, w: Id)
    ensures Cell(SweepValuesById(table, b), w) == Swept(Cell(table, w), b)
    ensures ById(own, SweepValues(values, b), w) == Swept(ById(own, values, w), b)
  {
  }

  /** The row under one id, before the sweep, as the value set being collected changes it. */
  lemma ReplacedCell(
      own: Id -> ValueKey, table: map<Id, Value>, b: Buckets, me: Option<Id>, s: Memory, c: Change, w: Id)
    requires Ordered(b) && GoodSets(own, b.sets) && GoodChange(own, c) && OwnedRows(own, table)
    ensures var b' := Collect(me, s, b, c);
            && Ordered(b')
            && Cell(ReplaceAll(table, b'.order, b'.sets), w)
               == if NewSet(c).Some? && own(w).issueId == c.id then FindById(NewSet(c).value, w)
                  else Cell(ReplaceAll(table, b.order, b.sets), w)
  {
    var b' := Collect(me, s, b, c);
    OrderKept(own, me, s, b, c);
    ReplaceAllCell(own, table, b.order, b.sets, w);
    ReplaceAllCell(own, table, b'.order, b'.sets, w);
    hide ReplaceAll, FindById;
  }

  /** What memory keeps under one row id after a change. */
  lemma ByIdAfter(own: Id -> ValueKey, values: map<ValueKey, Value>, c: Change, w: Id)
    requires OwnedValues(own, values) && GoodChange(own, c)
    ensures var v := ById(own, values, w);
            ById(own, ApplyValues(values, c), w) ==
            if NewSet(c).Some? && own(w).issueId == c.id && !c.verb.Delete? then FindById(NewSet(c).value, w)
            else if c.IssueChange? && c.verb.Delete? && own(w).issueId == c.id then None
            else if c.DefinitionChange? && c.verb.Delete? && own(w).definitionId == c.id then None
            else v
  {
    ValuesByCell(values, c, own(w));
    hide ApplyValues;
    if NewSet(c).Some? {
      GoodSetLookups(own, c.id, NewSet(c).value, w);
    }
  }

  lemma KeysMatch(own: Id -> ValueKey, table: map<Id, Value>, values: map<ValueKey, Value>, w: Id)
    requires OwnedRows(own, table) && OwnedValues(own, values)
    ensures Cell(table, w).Some? ==> KeyOf(Cell(table, w).value) == own(w)
    ensures ById(own, values, w).Some? ==> KeyOf(ById(own, values, w).value) == own(w)
  {
  }

  lemma ValueTracked(own: Id -> ValueKey, disk: Disk, s: Memory, b: Buckets, me: Option<Id>, c: Change, w: Id)
    requires Ordered(b) && GoodSets(own, b.sets) && GoodChange(own, c)
    requires OwnedRows(own, disk.values) && OwnedValues(own, s.values)
    requires Cell(SweepValuesById(ReplaceAll(disk.values, b.order, b.sets), b), w)
             == ById(own, SweepValues(s.values, b), w)
    ensures var b' := Collect(me, s, b, c);
            && Ordered(b')
            && Cell(SweepValuesById(ReplaceAll(disk.values, b'.order, b'.sets), b'), w)
               == ById(own, SweepValues(ApplyValues(s.values, c), b'), w)
  {
    var b' := Collect(me, s, b, c);
    ReplacedCell(own, disk.values, b, me, s, c, w);
    ByIdAfter(own, s.values, c, w);
    var before, after := ReplaceAll(disk.values, b.order, b.sets), ReplaceAll(disk.values, b'.order, b'.sets);
    ReplaceAllCell(own, disk.values, b.order, b.sets, w);
    hide ReplaceAll, ApplyValues;
    SweptCells(own, before, s.values, b, w);
    SweptCells(own, after, ApplyValues(s.values, c), b', w);
    var x, v := Cell(before, w), ById(own, s.values, w);
    KeysMatch(own, before, s.values, w);
    hide SweepValues, SweepValuesById, ById, OwnedRows, OwnedValues, GoodSets, Ordered, Collect;
    SweepsAlike(own(w), me, s, b, c, x, v, FindById(if NewSet(c).Some? then NewSet(c).value else [], w));
  }

  /** Equal once swept before a change, equal once swept after it: the deletes of the change catch the rest. */
  lemma SweepsAlike(
      k: ValueKey, me: Option<Id>, s: Memory, b: Buckets, c: Change, x: Option<Value>, v: Option<Value>,
      rewritten: Option<Value>)
    requires Swept(x, b) == Swept(v, b)
    requires x.Some? ==> KeyOf(x.value) == k
    requires v.Some? ==> KeyOf(v.value) == k
    requires rewritten.Some? && NewSet(c).Some? && k.issueId == c.id ==> rewritten.value.issueId == c.id
    ensures var x' := if NewSet(c).Some? && k.issueId == c.id then rewritten else x;
            var v' := if NewSet(c).Some? && k.issueId == c.id && !c.verb.Delete? then rewritten
                      else if c.IssueChange? && c.verb.Delete? && k.issueId == c.id then None
                      else if c.DefinitionChange? && c.verb.Delete? && k.definitionId == c.id then None
                      else v;
            Swept(x', Collect(me, s, b, c)) == Swept(v', Collect(me, s, b, c))
  {
  }

  lemma CollectTracks(me: Option<Id>, own: Id -> ValueKey, disk: Disk, s: Memory, b: Buckets, c: Change)
    requires Tracks(own, disk, s, b) && GoodChange(own, c)
    ensures Tracks(own, disk, ApplyChange(me, s, c), Collect(me, s, b, c))
  {
    OrderKept(own, me, s, b, c);
    ValuesStayOwned(own, s.values, c);
    IssuesTracked(disk.issues, s, b, me, c);
    RelationsTracked(disk.relations, s, b, me, c);
    DefinitionsTracked(disk.definitions, s, b, me, c);
    PoolsTracked(disk.pools, s, b, me, c);
    forall w ensures Cell(FlushTo(disk, Collect(me, s, b, c)).values, w)
                     == ById(own, Sweep(ApplyChange(me, s, c), Collect(me, s, b, c)).values, w)
    {
      assert Cell(FlushTo(disk, b).values, w) == ById(own, Sweep(s, b).values, w);
      ValueTracked(own, disk, s, b, me, c, w);
    }
  }

  lemma {:induction false} CollectAllTracks(
      me: Option<Id>, own: Id -> ValueKey, disk: Disk, s: Memory, b: Buckets, batch: seq<SyncAction>)
    requires Tracks(own, disk, s, b) && GoodBatch(own, batch)
    ensures Tracks(own, disk, ApplyAll(me, s, batch), CollectAll(me, s, b, batch))
    decreases batch
  {
    hide Tracks, ApplyChange, Collect;
    if batch != [] {
      var c := batch[0].change;
      CollectTracks(me, own, disk, s, b, c);
      CollectAllTracks(me, own, disk, ApplyChange(me, s, c), Collect(me, s, b, c), batch[1..]);
    }
  }

  /** Everything a batch leaves to be flushed. */
  function Pending(me: Option<Id>, s: Memory, batch: seq<SyncAction>): Buckets {
    CollectAll(me, s, NO_WRITES, batch)
  }

  /**
   * What the reordered flush computes, for every batch: memory after the batch, less every row that
   * any delete of the batch matches, even a delete that came before the row was written.
   */
  lemma FlushIsSweptMemory(me: Option<Id>, own: Id -> ValueKey, s: Memory, disk: Disk, batch: seq<SyncAction>)
    requires Agree(own, s, disk) && GoodBatch(own, batch)
    ensures var b := Pending(me, s, batch);
            && Ordered(b)
            && Agree(own, Sweep(ApplyAll(me, s, batch), b), FlushTo(disk, b))
  {
    var b := Pending(me, s, batch);
    TracksAtStart(own, s, disk);
    CollectAllTracks(me, own, disk, s, NO_WRITES, batch);
    forall w | w in ReplaceAll(disk.values, b.order, b.sets)
      ensures ReplaceAll(disk.values, b.order, b.sets)[w].id == w
              && own(w) == KeyOf(ReplaceAll(disk.values, b.order, b.sets)[w])
    {
      ReplaceAllCell(own, disk.values, b.order, b.sets, w);
    }
  }

  // ----- which batches keep the copies equal --------------------------------------------------

  /** One row held in memory; issues, definitions and pool rows are told apart by id alone. */
  datatype Fact =
    | IssueFact(id: Id)
    | RelationFact(id: Id, relation: Relation)
    | DefinitionFact(id: Id)
    | ValueFact(value: Value)
    | PoolFact(key: PoolKey)

  predicate Holds(s: Memory, f: Fact) {
    match f
    case IssueFact(id) => id in s.issues
    case RelationFact(id, relation) => Cell(s.relations, id) == Some(relation)
    case DefinitionFact(id) => id in s.definitions
    case ValueFact(v) => Cell(s.values, KeyOf(v)) == Some(v)
    case PoolFact(key) => key in s.pools
  }

  /** The action deletes the row, by its id or through a cascade. */
  predicate Erases(c: Change, f: Fact) {
    match c
    case IssueChange(Delete, id, _) =>
      (match f
       case IssueFact(i) => i == id
       case RelationFact(_, relation) => Touches(relation, id)
       case ValueFact(v) => v.issueId == id
       case _ => false)
    case RelationChange(Delete, id, _) => f.RelationFact? && f.id == id
    case DefinitionChange(Delete, id, _) =>
      (match f
       case DefinitionFact(i) => i == id
       case ValueFact(v) => v.definitionId == id
       case _ => false)
    case PoolChange(model, Delete, id, _) => f.PoolFact? && f.key == PoolKey(model, id)
    case _ => false
  }

  /** The action leaves exactly this row behind. */
  predicate Writes(me: Option<Id>, c: Change, f: Fact) {
    match c
    case IssueChange(verb, id, data) =>
      && !verb.Delete? && data.Some?
      && ((f == IssueFact(id) && data.value.row.Some?)
          || (f.ValueFact? && data.value.values.Some?
             && LastUnder(data.value.values.value, KeyOf(f.value)) == Some(f.value)))
    case RelationChange(verb, id, relation) => !verb.Delete? && relation.Some? && f == RelationFact(id, relation.value)
    case DefinitionChange(verb, id, definition) => !verb.Delete? && definition.Some? && f == DefinitionFact(id)
    case PoolChange(model, verb, id, row) =>
      ForMe(me, c) && !verb.Delete? && row.Some? && f == PoolFact(PoolKey(model, id))
    case _ => false
  }

  /** The action removes the row or puts another in its place. */
  predicate Displaces(me: Option<Id>, c: Change, f: Fact) {
    || Erases(c, f)
    || (!Writes(me, c, f) &&
        match c
        case IssueChange(verb, id, data) =>
          f.ValueFact? && !verb.Delete? && data.Some? && data.value.values.Some?
          && (f.value.issueId == id || LastUnder(data.value.values.value, KeyOf(f.value)).Some?)
        case RelationChange(verb, id, relation) => relation.Some? && f.RelationFact? && f.id == id
        case _ => false)
  }

  /** A row is in memory after an action exactly if the action wrote it or let it stand. */
  lemma HoldsAfter(me: Option<Id>, s: Memory, c: Change, f: Fact)
    requires WellFormed(c)
    ensures Holds(ApplyChange(me, s, c), f) <==> Writes(me, c, f) || (Holds(s, f) && !Displaces(me, c, f))
    ensures Erases(c, f) ==> !Writes(me, c, f)
  {
    match f
    case IssueFact(id) => IssuesByCell(s.issues, c, id);
    case RelationFact(id, relation) => RelationsByCell(s.relations, c, id);
    case DefinitionFact(id) =>
    case ValueFact(v) => ValuesByCell(s.values, c, KeyOf(v));
    case PoolFact(key) =>
  }

  /** The deletes waiting in the buckets match the row. */
  predicate Marked(b: Buckets, f: Fact) {
    match f
    case IssueFact(id) => id in DeletedFrom(b, Issues)
    case RelationFact(id, relation) =>
      id in DeletedFrom(b, Relations) || relation.issueId in b.deletedIssues
          || relation.relatedIssueId in b.deletedIssues
    case DefinitionFact(id) => id in DeletedFrom(b, Definitions)
    case ValueFact(v) => v.definitionId in DeletedFrom(b, Definitions) || v.issueId in b.deletedIssues
    case PoolFact(key) => Deletion(Pool(key.model), key.id) in b.deletes
  }

  lemma MarkedAfter(me: Option<Id>, s: Memory, b: Buckets, c: Change, f: Fact)
    ensures Marked(Collect(me, s, b, c), f) <==> Marked(b, f) || Erases(c, f)
  {
    DeletedInConcat(b.deletes, NewDeletes(c), Issues);
    DeletedInConcat(b.deletes, NewDeletes(c), Relations);
    DeletedInConcat(b.deletes, NewDeletes(c), Definitions);
  }

  lemma {:induction false} MarkedAll(me: Option<Id>, s: Memory, b: Buckets, batch: seq<SyncAction>, f: Fact)
    ensures Marked(CollectAll(me, s, b, batch), f)
            <==> Marked(b, f) || exists p :: 0 <= p < |batch| && Erases(batch[p].change, f)
    decreases batch
  {
    hide Marked, Erases, Collect, ApplyChange;
    if batch != [] {
      var c, rest := batch[0].change, batch[1..];
      MarkedAfter(me, s, b, c, f);
      MarkedAll(me, ApplyChange(me, s, c), Collect(me, s, b, c), rest, f);
      if p :| 0 <= p < |rest| && Erases(rest[p].change, f) {
        assert Erases(batch[p + 1].change, f);
      }
      if p :| 0 <= p < |batch| && Erases(batch[p].change, f) {
        assert p == 0 || Erases(rest[p - 1].change, f);
      }
    }
  }

  /** No action of the batch displaces the row. */
  predicate Undisturbed(me: Option<Id>, batch: seq<SyncAction>, f: Fact) {
    forall r | 0 <= r < |batch| :: !Displaces(me, batch[r].change, f)
  }

  /** Action `q` of the batch writes the row, and nothing after it displaces it. */
  predicate StandsFrom(me: Option<Id>, batch: seq<SyncAction>, q: int, f: Fact) {
    && 0 <= q < |batch|
    && Writes(me, batch[q].change, f)
    && Undisturbed(me, batch[q + 1..], f)
  }

  /** The rows in memory after a batch, read off the batch. */
  lemma {:induction false} HoldsAfterAll(me: Option<Id>, s: Memory, batch: seq<SyncAction>, f: Fact)
    requires AllWellFormed(batch)
    ensures Holds(ApplyAll(me, s, batch), f) <==>
            (exists q :: StandsFrom(me, batch, q, f)) || (Holds(s, f) && Undisturbed(me, batch, f))
    decreases batch
  {
    hide Holds, Writes, Displaces, ApplyChange;
    if batch == [] {
    } else {
      var c, rest := batch[0].change, batch[1..];
      HoldsAfter(me, s, c, f);
      HoldsAfterAll(me, ApplyChange(me, s, c), rest, f);
      assert Undisturbed(me, batch, f) <==> !Displaces(me, c, f) && Undisturbed(me, rest, f) by {
        assert forall r | 0 < r < |batch| :: batch[r] == rest[r - 1];
        assert forall r | 0 <= r < |rest| :: rest[r] == batch[r + 1];
      }
      forall q | 0 <= q ensures StandsFrom(me, batch, q + 1, f) <==> StandsFrom(me, rest, q, f) {
        if 0 <= q < |rest| { assert batch[q + 2..] == rest[q + 1..]; }
      }
      assert batch[1..] == rest;
      if q :| StandsFrom(me, batch, q, f) {
        assert q == 0 || StandsFrom(me, rest, q - 1, f);
      }
      if q :| StandsFrom(me, rest, q, f) {
        assert StandsFrom(me, batch, q + 1, f);
      }
      assert Writes(me, c, f) && Undisturbed(me, rest, f) ==> StandsFrom(me, batch, 0, f);
    }
  }

  /** Action `p` deletes the row, and action `q` writes it afterwards for good. */
  predicate Revives(me: Option<Id>, batch: seq<SyncAction>, p: int, q: int, f: Fact) {
    0 <= p < q && StandsFrom(me, batch, q, f) && Erases(batch[p].change, f)
  }

  /** The batch revives a row it deleted before. */
  ghost predicate Resurrects(me: Option<Id>, batch: seq<SyncAction>) {
    exists p, q, f :: Revives(me, batch, p, q, f)
  }

  /** Nothing deletes the row after the write that stands. */
  lemma DeletedBefore(me: Option<Id>, s: Memory, batch: seq<SyncAction>, p: nat, q: int, f: Fact)
    requires AllWellFormed(batch)
    requires p < |batch| && Erases(batch[p].change, f) && StandsFrom(me, batch, q, f)
    ensures Revives(me, batch, p, q, f)
  {
  }

  /** In memory after the batch, and yet matched by one of its deletes: exactly the revived rows. */
  lemma MarkedRowsAreRevived(me: Option<Id>, s: Memory, batch: seq<SyncAction>, f: Fact)
    requires AllWellFormed(batch)
    ensures Holds(ApplyAll(me, s, batch), f) && Marked(Pending(me, s, batch), f) <==>
            exists p, q :: Revives(me, batch, p, q, f)
  {
    HoldsAfterAll(me, s, batch, f);
    MarkedAll(me, s, NO_WRITES, batch, f);
    assert !Marked(NO_WRITES, f);
    hide Displaces, Writes, Erases, Holds, Marked, Undisturbed, ApplyAll, CollectAll;
    if Holds(ApplyAll(me, s, batch), f) && Marked(Pending(me, s, batch), f) {
      var p :| 0 <= p < |batch| && Erases(batch[p].change, f);
      if q :| StandsFrom(me, batch, q, f) {
        DeletedBefore(me, s, batch, p, q, f);
      } else {
        DeletedNotUndisturbed(me, batch, p, f);
      }
    }
    if p, q :| Revives(me, batch, p, q, f) {
      assert StandsFrom(me, batch, q, f) && 0 <= p < |batch| && Erases(batch[p].change, f);
    }
  }

  lemma DeletedNotUndisturbed(me: Option<Id>, batch: seq<SyncAction>, p: nat, f: Fact)
    requires p < |batch| && Erases(batch[p].change, f)
    ensures !Undisturbed(me, batch, f)
  {
  }

  /** Sweeping changes nothing exactly when no row in memory is marked. */
  lemma SweepIsIdentity(s: Memory, b: Buckets)
    requires forall k | k in s.values :: KeyOf(s.values[k]) == k
    ensures Sweep(s, b) == s <==> forall f :: Holds(s, f) ==> !Marked(b, f)
  {
    if forall f :: Holds(s, f) ==> !Marked(b, f) {
      forall k | k in s.issues ensures k !in DeletedFrom(b, Issues) { assert Holds(s, IssueFact(k)); }
      forall k | k in s.relations ensures k in SweepRelations(s.relations, b) {
        assert Holds(s, RelationFact(k, s.relations[k]));
      }
      forall k | k in s.definitions ensures k !in DeletedFrom(b, Definitions) { assert Holds(s, DefinitionFact(k)); }
      forall k | k in s.pools ensures k in SweepPools(s.pools, b) { assert Holds(s, PoolFact(k)); }
      forall k | k in s.values ensures k in SweepValues(s.values, b) { assert Holds(s, ValueFact(s.values[k])); }
      assert Sweep(s, b).relations == s.relations && Sweep(s, b).pools == s.pools && Sweep(s, b).values == s.values;
    }
    if Sweep(s, b) == s {
      forall f | Holds(s, f) ensures !Marked(b, f) {
        match f
        case RelationFact(id, relation) => assert id in SweepRelations(s.relations, b);
        case ValueFact(v) => assert KeyOf(v) in SweepValues(s.values, b);
        case PoolFact(key) => assert key in SweepPools(s.pools, b);
        case IssueFact(id) => assert id in Sweep(s, b).issues;
        case DefinitionFact(id) => assert id in Sweep(s, b).definitions;
      }
    }
  }

  /** Disk contents determine memory contents, so agreeing with one disk is being equal. */
  lemma AgreementIsUnique(own: Id -> ValueKey, s: Memory, t: Memory, disk: Disk)
    requires Agree(own, t, disk) && OwnedValues(own, s.values)
    ensures Agree(own, s, disk) <==> s == t
  {
    if Agree(own, s, disk) {
      forall k ensures Cell(s.values, k) == Cell(t.values, k) {
        if k in s.values {
          assert Cell(disk.values, s.values[k].id) == ById(own, s.values, s.values[k].id);
          assert Cell(disk.values, s.values[k].id) == ById(own, t.values, s.values[k].id);
        }
        if k in t.values {
          assert Cell(disk.values, t.values[k].id) == ById(own, s.values, t.values[k].id);
          assert Cell(disk.values, t.values[k].id) == ById(own, t.values, t.values[k].id);
        }
      }
      SameCells(s.values, t.values);
    }
  }

  lemma {:induction false} ValuesStayOwnedAll(me: Option<Id>, own: Id -> ValueKey, s: Memory, batch: seq<SyncAction>)
    requires OwnedValues(own, s.values) && GoodBatch(own, batch)
    ensures OwnedValues(own, ApplyAll(me, s, batch).values)
    decreases batch
  {
    if batch != [] {
      ValuesStayOwned(own, s.values, batch[0].change);
      ValuesStayOwnedAll(me, own, ApplyChange(me, s, batch[0].change), batch[1..]);
    }
  }

  lemma RevivedMeansMarked(me: Option<Id>, s: Memory, batch: seq<SyncAction>)
    requires AllWellFormed(batch)
    ensures Resurrects(me, batch) <==>
            exists f :: Holds(ApplyAll(me, s, batch), f) && Marked(Pending(me, s, batch), f)
  {
    hide Holds, Marked, Revives, ApplyAll, Pending;
    if p, q, f :| Revives(me, batch, p, q, f) {
      MarkedRowsAreRevived(me, s, batch, f);
    }
    if f :| Holds(ApplyAll(me, s, batch), f) && Marked(Pending(me, s, batch), f) {
      MarkedRowsAreRevived(me, s, batch, f);
    }
  }

  /**
   * If the copies agree before a batch, they agree after it exactly when the batch revives no row
   * it deleted. The condition reads the batch alone.
   */
  lemma CopiesAgreeExactly(me: Option<Id>, own: Id -> ValueKey, s: Memory, disk: Disk, batch: seq<SyncAction>)
    requires Agree(own, s, disk) && GoodBatch(own, batch)
    ensures Ordered(Pending(me, s, batch))
    ensures Agree(own, ApplyAll(me, s, batch), FlushTo(disk, Pending(me, s, batch))) <==> !Resurrects(me, batch)
  {
    var b, t := Pending(me, s, batch), ApplyAll(me, s, batch);
    assert OwnedValues(own, s.values) && AllWellFormed(batch);
    hide Agree, Sweep, FlushTo, Holds, Marked, Pending, ApplyAll, Resurrects, GoodBatch, AllWellFormed;
    FlushIsSweptMemory(me, own, s, disk, batch);
    ValuesStayOwnedAll(me, own, s, batch);
    AgreementIsUnique(own, t, Sweep(t, b), FlushTo(disk, b));
    SweepIsIdentity(t, b);
    RevivedMeansMarked(me, s, batch);
  }

  /** Nothing is written under an id once it has been deleted: how the server uses its ids. */
  ghost predicate NoReuse(me: Option<Id>, stream: seq<SyncAction>) {
    forall p, q, f | 0 <= p < q < |stream| && Erases(stream[p].change, f) :: !Writes(me, stream[q].change, f)
  }

  /** On such a stream every batch cut out of it is safe. */
  lemma NoReuseIsSafe(me: Option<Id>, stream: seq<SyncAction>, i: nat, j: nat)
    requires NoReuse(me, stream) && i <= j <= |stream|
    ensures !Resurrects(me, stream[i..j])
  {
  }

  /** The smallest batch that breaks it: a delete of an issue followed by a new row for its id. */
  lemma WriteAfterDeleteDiverges(me: Option<Id>, own: Id -> ValueKey, s: Memory, disk: Disk, row: IssueSyncRow)
    requires Agree(own, s, disk) && row.cols.id != ""
    ensures var id := row.cols.id;
            var batch := [SyncAction(1, 1, IssueChange(Delete, id, None)),
                          SyncAction(2, 2, IssueChange(Insert, id, Some(IssueData(Some(row), None))))];
            && id in ApplyAll(me, s, batch).issues
            && Ordered(Pending(me, s, batch))
            && id !in FlushTo(disk, Pending(me, s, batch)).issues
  {
    var id := row.cols.id;
    var batch := [SyncAction(1, 1, IssueChange(Delete, id, None)),
                  SyncAction(2, 2, IssueChange(Insert, id, Some(IssueData(Some(row), None))))];
    FlushIsSweptMemory(me, own, s, disk, batch);
    HoldsAfterAll(me, s, batch, IssueFact(id));
    MarkedAll(me, s, NO_WRITES, batch, IssueFact(id));
    assert batch[2..] == [] && StandsFrom(me, batch, 1, IssueFact(id));
    assert Erases(batch[0].change, IssueFact(id));
  }
}
