/**
 * The write phase of a bootstrap (src/lib/sync-manager.ts:581-756): tables and pools are emptied
 * and filled from one payload, and exactly when the two copies then hold the same rows.
 */
module Bootstraps {
  import opened Common
  import opened Positions
  import opened Rows
  import opened Replica
  import opened Flush
  import opened IssueStores

  /** The parsed lines of a bootstrap response. */
  datatype Payload = Payload(
    issues: seq<DBIssue>,
    relations: seq<Relation>,
    definitions: seq<Row>,
    values: seq<Value>,
    rows: seq<(string, Row)>,                                        // with their models
    lastSyncId: Position)

  function IssuePairs(rows: seq<DBIssue>): seq<(Id, DBIssue)> {
    seq(|rows|, i requires 0 <= i < |rows| => (rows[i].cols.id, rows[i]))
  }

  function RelationPairs(rows: seq<Relation>): seq<(Id, Relation)> {
    seq(|rows|, i requires 0 <= i < |rows| => (rows[i].id, rows[i]))
  }

  function RowPairs(rows: seq<Row>): seq<(Id, Row)> {
    seq(|rows|, i requires 0 <= i < |rows| => (rows[i].id, rows[i]))
  }

  function ModelPairs(rows: seq<(string, Row)>): seq<(PoolKey, Row)> {
    seq(|rows|, i requires 0 <= i < |rows| => (PoolKey(rows[i].0, rows[i].1.id), rows[i].1))
  }

  /** The pools after a bootstrap: nothing of what they held. */
  function Loaded(p: Payload): Memory {
    Memory(
      ServerRows(SetAll(EMPTY_STORE, p.issues).pool),
      BulkPut(map[], RelationPairs(p.relations)),
      BulkPut(map[], RowPairs(p.definitions)),
      PutValues(map[], p.values),
      BulkPut(map[], ModelPairs(p.rows)))
  }

  /** The one table the bootstrap's transaction does not clear. */
  const KEPT_TABLE := "Favorite"

  function KeptRows(pools: map<PoolKey, Row>): map<PoolKey, Row> {
    map k | k in pools && k.model == KEPT_TABLE :: pools[k]
  }

  function Written(disk: Disk, p: Payload): Disk {
    Disk(
      BulkPut(map[], IssuePairs(p.issues)),
      BulkPut(map[], RelationPairs(p.relations)),
      BulkPut(map[], RowPairs(p.definitions)),
      PutById(map[], p.values),
      BulkPut(KeptRows(disk.pools), ModelPairs(p.rows)))
  }

  /** A payload as the server sends it: no placeholders, one row a field, and no favourites. */
  ghost predicate GoodPayload(own: Id -> ValueKey, p: Payload) {
    && (forall issue | issue in p.issues :: !IsOptimistic(issue.cols.identifier))
    && (forall v | v in p.values :: own(v.id) == KeyOf(v))
    && (forall x, y | 0 <= x < y < |p.values| :: KeyOf(p.values[x]) != KeyOf(p.values[y]))
    && (forall r | r in p.rows :: r.0 != KEPT_TABLE)
  }

  lemma {:induction false} PutsCommute<K, V>(table: map<K, V>, first: (K, V), rest: seq<(K, V)>)
    ensures BulkPut(table, [first] + rest) == BulkPut(table[first.0 := first.1], rest)
  {
    if rest == [] {
      assert [first] + rest == [first] && [first][..0] == [];
    } else {
      var n := |rest| - 1;
      assert ([first] + rest)[..|[first] + rest| - 1] == [first] + rest[..n];
      PutsCommute(table, first, rest[..n]);
    }
  }

  /** One write at a time, the store's map ends like the table. */
  lemma {:induction false} SameIssues(s: Store, issues: seq<DBIssue>)
    ensures SetAll(s, issues).pool == BulkPut(s.pool, IssuePairs(issues))
    decreases issues
  {
    if issues != [] {
      SameIssues(SetIssue(s, issues[0]), issues[1..]);
      PutsCommute(s.pool, (issues[0].cols.id, issues[0]), IssuePairs(issues[1..]));
      assert IssuePairs(issues) == [(issues[0].cols.id, issues[0])] + IssuePairs(issues[1..]);
    }
  }

  lemma {:induction false} PutCell<K, V>(table: map<K, V>, rows: seq<(K, V)>, k: K)
    ensures k in BulkPut(table, rows) <==> k in table || exists r :: r in rows && r.0 == k
    ensures (forall r | r in rows :: r.0 != k) ==> Cell(BulkPut(table, rows), k) == Cell(table, k)
  {
    if rows != [] {
      var n := |rows| - 1;
      PutCell(table, rows[..n], k);
      assert rows == rows[..n] + [rows[n]];
    }
  }

  /** Values are keyed by issue and field in memory and by row id on disk; one row a field makes them agree. */
  lemma ValuesAgree(own: Id -> ValueKey, rows: seq<Value>)
    requires forall v | v in rows :: own(v.id) == KeyOf(v)
    requires forall x, y | 0 <= x < y < |rows| :: KeyOf(rows[x]) != KeyOf(rows[y])
    ensures SameValues(own, PutValues(map[], rows), PutById(map[], rows))
  {
    var values, table := PutValues(map[], rows), PutById(map[], rows);
    forall k ensures Cell(values, k) == LastUnder(rows, k) { PutValuesCell(map[], rows, k); }
    forall w ensures Cell(table, w) == FindById(rows, w) { PutByIdCell(map[], rows, w); }
    hide PutValues, PutById;
    forall k | k in values ensures KeyOf(values[k]) == k && own(values[k].id) == k {
      assert Cell(values, k) == LastUnder(rows, k);
    }
    forall w | w in table ensures table[w].id == w && own(w) == KeyOf(table[w]) {
      assert Cell(table, w) == FindById(rows, w);
    }
    forall w ensures Cell(table, w) == ById(own, values, w) {
      assert Cell(table, w) == FindById(rows, w);
      assert Cell(values, own(w)) == LastUnder(rows, own(w));
    }
  }

  lemma {:induction false} PutRowsAreRows<K, V>(rows: seq<(K, V)>)
    ensures forall k | k in BulkPut(map[], rows) :: (k, BulkPut(map[], rows)[k]) in rows
  {
    if rows != [] {
      PutRowsAreRows(rows[..|rows| - 1]);
    }
  }

  /** Server rows are all of the pool when no row is a placeholder. */
  lemma NoPlaceholders(issues: seq<DBIssue>)
    requires forall issue | issue in issues :: !IsOptimistic(issue.cols.identifier)
    ensures ServerRows(BulkPut(map[], IssuePairs(issues))) == BulkPut(map[], IssuePairs(issues))
  {
    PutRowsAreRows(IssuePairs(issues));
    var pool := BulkPut(map[], IssuePairs(issues));
    forall k | k in pool ensures !IsOptimistic(pool[k].cols.identifier) {
      var i :| 0 <= i < |issues| && IssuePairs(issues)[i] == (k, pool[k]);
      assert issues[i] in issues;
    }
  }

  /** After a bootstrap the copies agree exactly if the kept table was empty. */
  lemma BootstrapAgreesExactly(own: Id -> ValueKey, disk: Disk, p: Payload)
    requires GoodPayload(own, p)
    ensures Agree(own, Loaded(p), Written(disk, p)) <==> KeptRows(disk.pools) == map[]
  {
    SameIssues(EMPTY_STORE, p.issues);
    NoPlaceholders(p.issues);
    ValuesAgree(own, p.values);
    hide SameValues, SetAll, PutById, PutValues;
    var kept := KeptRows(disk.pools);
    if kept != map[] {
      var k :| k in kept;
      PutCell(kept, ModelPairs(p.rows), k);
      PutCell(map[], ModelPairs(p.rows), k);
    }
  }

  // ----- what the tables hold, row by row -----------------------------------------------------

  /** After a run of puts a key holds the last value put under it. */
  lemma {:induction false} LastPut<K, V>(table: map<K, V>, rows: seq<(K, V)>, i: nat)
    requires i < |rows| && forall j | i < j < |rows| :: rows[j].0 != rows[i].0
    ensures Cell(BulkPut(table, rows), rows[i].0) == Some(rows[i].1)
  {
    if i < |rows| - 1 {
      LastPut(table, rows[..|rows| - 1], i);
    }
  }

  /** The table holds a payload's last row under each id, and nothing else. */
  ghost predicate HoldsRelations(table: map<Id, Relation>, rows: seq<Relation>) {
    && (forall id :: id in table <==> exists i :: 0 <= i < |rows| && rows[i].id == id)
    && (forall i | 0 <= i < |rows| && (forall j | i < j < |rows| :: rows[j].id != rows[i].id) ::
          rows[i].id in table && table[rows[i].id] == rows[i])
  }

  ghost predicate HoldsDefinitions(table: map<Id, Row>, rows: seq<Row>) {
    && (forall id :: id in table <==> exists i :: 0 <= i < |rows| && rows[i].id == id)
    && (forall i | 0 <= i < |rows| && (forall j | i < j < |rows| :: rows[j].id != rows[i].id) ::
          rows[i].id in table && table[rows[i].id] == rows[i])
  }

  ghost predicate HoldsIssues(table: map<Id, DBIssue>, rows: seq<DBIssue>) {
    && (forall id :: id in table <==> exists i :: 0 <= i < |rows| && rows[i].cols.id == id)
    && (forall i | 0 <= i < |rows| && (forall j | i < j < |rows| :: rows[j].cols.id != rows[i].cols.id) ::
          rows[i].cols.id in table && table[rows[i].cols.id] == rows[i])
  }

  /** Under a model and an id; `kept` says which rows of the table were there before. */
  ghost predicate HoldsRows(table: map<PoolKey, Row>, rows: seq<(string, Row)>, kept: map<PoolKey, Row>) {
    && (forall k :: k in table <==> k in kept || exists i :: 0 <= i < |rows| && PoolKey(rows[i].0, rows[i].1.id) == k)
    && (forall i | 0 <= i < |rows| && NoLaterRow(rows, i) ::
          var k := PoolKey(rows[i].0, rows[i].1.id); k in table && table[k] == rows[i].1)
    && (forall k | k in kept && (forall i | 0 <= i < |rows| :: PoolKey(rows[i].0, rows[i].1.id) != k) ::
          k in table && table[k] == kept[k])
  }

  predicate NoLaterRow(rows: seq<(string, Row)>, i: nat)
    requires i < |rows|
  {
    forall j | i < j < |rows| :: rows[j].0 != rows[i].0 || rows[j].1.id != rows[i].1.id
  }

  lemma RelationsHeld(rows: seq<Relation>)
    ensures HoldsRelations(BulkPut(map[], RelationPairs(rows)), rows)
  {
    var pairs := RelationPairs(rows);
    forall id ensures id in BulkPut(map[], pairs) <==> exists i :: 0 <= i < |rows| && rows[i].id == id {
      PutCell(map[], pairs, id);
      assert forall i | 0 <= i < |rows| :: pairs[i] in pairs && pairs[i].0 == rows[i].id;
    }
    forall i | 0 <= i < |rows| && (forall j | i < j < |rows| :: rows[j].id != rows[i].id)
      ensures Cell(BulkPut(map[], pairs), rows[i].id) == Some(rows[i])
    {
      LastPut(map[], pairs, i);
      assert pairs[i].0 == rows[i].id;
    }
  }

  lemma DefinitionsHeld(rows: seq<Row>)
    ensures HoldsDefinitions(BulkPut(map[], RowPairs(rows)), rows)
  {
    var pairs := RowPairs(rows);
    forall id ensures id in BulkPut(map[], pairs) <==> exists i :: 0 <= i < |rows| && rows[i].id == id {
      PutCell(map[], pairs, id);
      assert forall i | 0 <= i < |rows| :: pairs[i] in pairs && pairs[i].0 == rows[i].id;
    }
    forall i | 0 <= i < |rows| && (forall j | i < j < |rows| :: rows[j].id != rows[i].id)
      ensures Cell(BulkPut(map[], pairs), rows[i].id) == Some(rows[i])
    {
      LastPut(map[], pairs, i);
      assert pairs[i].0 == rows[i].id;
    }
  }

  lemma IssuesHeld(rows: seq<DBIssue>)
    ensures HoldsIssues(BulkPut(map[], IssuePairs(rows)), rows)
  {
    var pairs := IssuePairs(rows);
    forall id ensures id in BulkPut(map[], pairs) <==> exists i :: 0 <= i < |rows| && rows[i].cols.id == id {
      PutCell(map[], pairs, id);
      assert forall i | 0 <= i < |rows| :: pairs[i] in pairs && pairs[i].0 == rows[i].cols.id;
    }
    forall i | 0 <= i < |rows| && (forall j | i < j < |rows| :: rows[j].cols.id != rows[i].cols.id)
      ensures Cell(BulkPut(map[], pairs), rows[i].cols.id) == Some(rows[i])
    {
      LastPut(map[], pairs, i);
      assert pairs[i].0 == rows[i].cols.id;
    }
  }

  lemma RowsHeld(rows: seq<(string, Row)>, kept: map<PoolKey, Row>)
    ensures HoldsRows(BulkPut(kept, ModelPairs(rows)), rows, kept)
  {
    var pairs := ModelPairs(rows);
    assert forall i | 0 <= i < |rows| :: pairs[i] in pairs && pairs[i].0 == PoolKey(rows[i].0, rows[i].1.id);
    forall k {
      PutCell(kept, pairs, k);
    }
    forall i | 0 <= i < |rows| && NoLaterRow(rows, i)
      ensures Cell(BulkPut(kept, pairs), PoolKey(rows[i].0, rows[i].1.id)) == Some(rows[i].1)
    {
      LastPut(kept, pairs, i);
    }
  }

  /** In memory values are held by issue and field. */
  ghost predicate HoldsFields(values: map<ValueKey, Value>, rows: seq<Value>) {
    && (forall k :: k in values <==>
          exists i :: 0 <= i < |rows| && rows[i].issueId == k.issueId && rows[i].definitionId == k.definitionId)
    && (forall i | 0 <= i < |rows| && NoLaterValue(rows, i) ::
          var k := ValueKey(rows[i].issueId, rows[i].definitionId); k in values && values[k] == rows[i])
  }

  /** On disk they are held by row id. */
  ghost predicate HoldsValues(table: map<Id, Value>, rows: seq<Value>) {
    && (forall id :: id in table <==> exists i :: 0 <= i < |rows| && rows[i].id == id)
    && (forall i | 0 <= i < |rows| && (forall j | i < j < |rows| :: rows[j].id != rows[i].id) ::
          rows[i].id in table && table[rows[i].id] == rows[i])
  }

  predicate NoLaterValue(rows: seq<Value>, i: nat)
    requires i < |rows|
  {
    forall j | i < j < |rows| :: rows[j].issueId != rows[i].issueId || rows[j].definitionId != rows[i].definitionId
  }

  lemma {:induction false} LastUnderIs(rows: seq<Value>, i: nat)
    requires i < |rows| && NoLaterValue(rows, i)
    ensures LastUnder(rows, ValueKey(rows[i].issueId, rows[i].definitionId)) == Some(rows[i])
  {
    if i > 0 {
      LastUnderIs(rows[1..], i - 1);
    }
  }

  lemma {:induction false} FoundById(rows: seq<Value>, i: nat)
    requires i < |rows| && forall j | i < j < |rows| :: rows[j].id != rows[i].id
    ensures FindById(rows, rows[i].id) == Some(rows[i])
  {
    if i < |rows| - 1 {
      FoundById(rows[..|rows| - 1], i);
    }
  }

  lemma FieldsHeld(rows: seq<Value>)
    ensures HoldsFields(PutValues(map[], rows), rows)
  {
    var values := PutValues(map[], rows);
    forall k ensures Cell(values, k) == LastUnder(rows, k) { PutValuesCell(map[], rows, k); }
    hide PutValues, LastUnder;
    forall k ensures k in values <==>
        exists i :: 0 <= i < |rows| && rows[i].issueId == k.issueId && rows[i].definitionId == k.definitionId
    {
      assert Cell(values, k) == LastUnder(rows, k);
      if i :| 0 <= i < |rows| && rows[i].issueId == k.issueId && rows[i].definitionId == k.definitionId {
        assert rows[i] in rows && KeyOf(rows[i]) == k;
      }
    }
    forall i | 0 <= i < |rows| && NoLaterValue(rows, i)
      ensures Cell(values, ValueKey(rows[i].issueId, rows[i].definitionId)) == Some(rows[i])
    {
      LastUnderIs(rows, i);
      hide NoLaterValue;
    }
  }

  lemma ValuesHeld(rows: seq<Value>)
    ensures HoldsValues(PutById(map[], rows), rows)
  {
    var table := PutById(map[], rows);
    forall w ensures Cell(table, w) == FindById(rows, w) { PutByIdCell(map[], rows, w); }
    hide PutById, FindById;
    forall w ensures w in table <==> exists i :: 0 <= i < |rows| && rows[i].id == w {
      assert Cell(table, w) == FindById(rows, w);
    }
    forall i | 0 <= i < |rows| && (forall j | i < j < |rows| :: rows[j].id != rows[i].id)
      ensures Cell(table, rows[i].id) == Some(rows[i])
    {
      FoundById(rows, i);
    }
  }

  lemma PoolsAfterBootstrap(p: Payload)
    ensures var s := Loaded(p);
            && HoldsIssues(SetAll(EMPTY_STORE, p.issues).pool, p.issues)
            && HoldsRelations(s.relations, p.relations)
            && HoldsDefinitions(s.definitions, p.definitions)
            && HoldsFields(s.values, p.values)
            && HoldsRows(s.pools, p.rows, map[])
  {
    hide HoldsIssues, HoldsRelations, HoldsDefinitions, HoldsFields, HoldsRows, BulkPut, PutValues, SetAll;
    SameIssues(EMPTY_STORE, p.issues);
    IssuesHeld(p.issues);
    RelationsHeld(p.relations);
    DefinitionsHeld(p.definitions);
    FieldsHeld(p.values);
    RowsHeld(p.rows, map[]);
  }

  /**
   * After a bootstrap every table, in memory and on disk, holds exactly the payload's rows, the last
   * one under each key, and on disk the favourites that were there.
   */
  lemma TablesAfterBootstrap(disk: Disk, p: Payload)
    ensures var (s, d) := (Loaded(p), Written(disk, p));
            && HoldsIssues(SetAll(EMPTY_STORE, p.issues).pool, p.issues) && HoldsIssues(d.issues, p.issues)
            && HoldsRelations(s.relations, p.relations) && HoldsRelations(d.relations, p.relations)
            && HoldsDefinitions(s.definitions, p.definitions) && HoldsDefinitions(d.definitions, p.definitions)
            && HoldsFields(s.values, p.values) && HoldsValues(d.values, p.values)
            && HoldsRows(s.pools, p.rows, map[])
            && HoldsRows(d.pools, p.rows, map k | k in disk.pools && k.model == "Favorite" :: disk.pools[k])
  {
    var kept := map k | k in disk.pools && k.model == "Favorite" :: disk.pools[k];
    assert kept == KeptRows(disk.pools);
    hide HoldsIssues, HoldsRelations, HoldsDefinitions, HoldsFields, HoldsValues, HoldsRows, BulkPut, PutById, SetAll;
    PoolsAfterBootstrap(p);
    IssuesHeld(p.issues);
    RelationsHeld(p.relations);
    DefinitionsHeld(p.definitions);
    ValuesHeld(p.values);
    RowsHeld(p.rows, kept);
  }
}
