/**
 * The stores the sync manager writes through: the uniform pool
 * (src/stores/apply-pool-sync-action.ts), the relation store (src/stores/issue-relation-store.ts)
 * and the custom field store (src/stores/custom-field-store.ts), updated in place and proved
 * against the functions of Replica.
 */
module Stores {
  import opened Common
  import opened Rows
  import opened Replica
  import opened Flush

  /** One map of rows and the shared `applyPoolSyncAction` on it. */
  class EntityPool<K(==), V> {
    var pool: map<K, V>

    constructor ()
      ensures pool == map[]
    {
      pool := map[];
    }

    method ApplySyncAction(verb: Verb, key: K, row: Option<V>)
      modifies this
      ensures pool == ApplyPool(old(pool), verb, key, row)
    {
      if !verb.Delete? {
        if row.Some? {
          pool := pool[key := row.value];
        }
      } else {
        pool := pool - {key};
      }
    }

    method Clear()
      modifies this
      ensures pool == map[]
    {
      pool := map[];
    }

    method UpsertMany(rows: seq<(K, V)>)
      modifies this
      ensures pool == BulkPut(old(pool), rows)
    {
      for i := 0 to |rows|
        invariant pool == BulkPut(old(pool), rows[..i])
      {
        assert rows[..i + 1][..i] == rows[..i];
        pool := pool[rows[i].0 := rows[i].1];
      }
      assert rows[..|rows|] == rows;
    }
  }

  class IssueRelationStore {
    var pool: map<Id, Relation>

    constructor ()
      ensures pool == map[]
    {
      pool := map[];
    }

    /** Drop every edge touching the issue, one entry at a time. */
    method RemoveForIssue(issueId: Id)
      modifies this
      ensures pool == WithoutEdges(old(pool), issueId)
    {
      var pending := pool.Keys;
      while pending != {}
        invariant pending <= pool.Keys <= old(pool).Keys
        invariant forall k | k in pool :: pool[k] == old(pool)[k]
        invariant forall k | k in old(pool) :: k !in pool ==> Touches(old(pool)[k], issueId)
        invariant forall k | k in pool && k !in pending :: !Touches(pool[k], issueId)
        decreases pending
      {
        var id :| id in pending;
        pending := pending - {id};
        if pool[id].issueId == issueId || pool[id].relatedIssueId == issueId {
          pool := pool - {id};
        }
      }
    }

    method ApplySyncAction(verb: Verb, id: Id, row: Option<Relation>)
      modifies this
      ensures pool == ApplyRelations(old(pool), RelationChange(verb, id, row))
    {
      if !verb.Delete? {
        if row.Some? {
          pool := pool[id := row.value];
        }
      } else {
        pool := pool - {id};
      }
    }

    method Clear()
      modifies this
      ensures pool == map[]
    {
      pool := map[];
    }

    method UpsertMany(rows: seq<(Id, Relation)>)
      modifies this
      ensures pool == BulkPut(old(pool), rows)
    {
      for i := 0 to |rows|
        invariant pool == BulkPut(old(pool), rows[..i])
      {
        assert rows[..i + 1][..i] == rows[..i];
        pool := pool[rows[i].0 := rows[i].1];
      }
      assert rows[..|rows|] == rows;
    }
  }

  class CustomFieldStore {
    var definitions: map<Id, Row>
    var values: map<ValueKey, Value>

    constructor ()
      ensures definitions == map[] && values == map[]
    {
      definitions, values := map[], map[];
    }

    method RemoveValuesForIssue(issueId: Id)
      modifies this`values
      ensures values == WithoutIssue(old(values), issueId)
    {
      var pending := values.Keys;
      while pending != {}
        invariant pending <= values.Keys <= old(values).Keys
        invariant forall k | k in values :: values[k] == old(values)[k]
        invariant forall k | k in old(values) :: k !in values ==> old(values)[k].issueId == issueId
        invariant forall k | k in values && k !in pending :: values[k].issueId != issueId
        decreases pending
      {
        var key :| key in pending;
        pending := pending - {key};
        if values[key].issueId == issueId {
          values := values - {key};
        }
      }
    }

    method UpsertValues(rows: seq<Value>)
      modifies this`values
      ensures values == PutValues(old(values), rows)
    {
      var i := 0;
      while i < |rows|
        invariant 0 <= i <= |rows|
        invariant PutValues(values, rows[i..]) == PutValues(old(values), rows)
      {
        assert rows[i..][1..] == rows[i + 1..];
        values := values[KeyOf(rows[i]) := rows[i]];
        i := i + 1;
      }
    }

    method Clear()
      modifies this
      ensures definitions == map[] && values == map[]
    {
      definitions, values := map[], map[];
    }

    method UpsertDefinitions(rows: seq<(Id, Row)>)
      modifies this`definitions
      ensures definitions == BulkPut(old(definitions), rows)
    {
      for i := 0 to |rows|
        invariant definitions == BulkPut(old(definitions), rows[..i])
      {
        assert rows[..i + 1][..i] == rows[..i];
        definitions := definitions[rows[i].0 := rows[i].1];
      }
      assert rows[..|rows|] == rows;
    }

    method ApplyDefinitionSyncAction(verb: Verb, id: Id, row: Option<Row>)
      modifies this
      ensures definitions == ApplyDefinitions(old(definitions), DefinitionChange(verb, id, row))
      ensures values == ApplyValues(old(values), DefinitionChange(verb, id, row))
    {
      if !verb.Delete? {
        if row.Some? {
          definitions := definitions[id := row.value];
        }
      } else {
        definitions := definitions - {id};
        var pending := values.Keys;
        while pending != {}
          invariant definitions == old(definitions) - {id}
          invariant pending <= values.Keys <= old(values).Keys
          invariant forall k | k in values :: values[k] == old(values)[k]
          invariant forall k | k in old(values) :: k !in values ==> old(values)[k].definitionId == id
          invariant forall k | k in values && k !in pending :: values[k].definitionId != id
          decreases pending
        {
          var key :| key in pending;
          pending := pending - {key};
          if values[key].definitionId == id {
            values := values - {key};
          }
        }
      }
    }

    /** The value half of an issue action: the payload replaces the issue's whole set. */
    method ApplyValueSyncAction(verb: Verb, issueId: Id, rows: Option<seq<Value>>)
      modifies this`values
      ensures values == ApplyValues(old(values), IssueChange(verb, issueId, Some(IssueData(None, rows))))
    {
      if verb.Delete? {
        RemoveValuesForIssue(issueId);
        return;
      }
      if rows.None? {
        return;
      }
      RemoveValuesForIssue(issueId);
      UpsertValues(rows.value);
    }
  }
}
