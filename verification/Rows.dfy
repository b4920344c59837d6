/**
 * The rows the client replicates and the sync actions that carry them. Columns the model never
 * looks at are gathered in `other`.
 */
module Rows {
  import opened Common
  import opened Positions

  datatype Verb = Insert | Update | Archive | Delete

  /** The issue columns, without the labels. */
  datatype IssueColumns = IssueColumns(
    id: Id, teamId: Id, identifier: string, title: string, trashed: bool, archived: bool, other: string)

  /** An issue as pool and disk hold it (`DBIssue`). */
  datatype DBIssue = DBIssue(cols: IssueColumns, labelIds: seq<Id>)

  /** An issue as the server may send it: labels in up to three shapes, or in none of them. */
  datatype IssueSyncRow = IssueSyncRow(
    cols: IssueColumns,
    labelAssignments: Option<seq<Id>>,
    labels: Option<seq<Id>>,
    labelIds: Option<seq<Id>>)

  datatype Relation = Relation(id: Id, issueId: Id, relatedIssueId: Id, other: string)

  datatype Value = Value(id: Id, issueId: Id, definitionId: Id, other: string)

  datatype ValueKey = ValueKey(issueId: Id, definitionId: Id)

  /** A row of a uniformly handled model; `owner` is its `userId`, where it has one. */
  datatype Row = Row(id: Id, owner: Option<Id>, other: string)

  datatype PoolKey = PoolKey(model: string, id: Id)

  /** The two payload shapes of the issue stream, alone or together. */
  datatype IssueData = IssueData(row: Option<IssueSyncRow>, values: Option<seq<Value>>)

  datatype Change =
    | IssueChange(verb: Verb, id: Id, data: Option<IssueData>)
    | RelationChange(verb: Verb, id: Id, relation: Option<Relation>)
    | DefinitionChange(verb: Verb, id: Id, definition: Option<Row>)
    | PoolChange(model: string, verb: Verb, id: Id, row: Option<Row>)
    | MembershipChange(member: Option<Id>)      // of a team: moves no row, see `OwnMembership`
    | UncachedChange

  datatype SyncAction = SyncAction(xactId: nat, id: nat, change: Change)

  /** The write of a whole row of a uniformly handled model. */
  function PoolWrite(n: nat, model: string, row: Row): SyncAction {
    SyncAction(n, n, PoolChange(model, Update, row.id, Some(row)))
  }

  function PositionOf(a: SyncAction): Position { Position(a.xactId, a.id) }

  function PositionsOf(batch: seq<SyncAction>): seq<Position> {
    seq(|batch|, i requires 0 <= i < |batch| => PositionOf(batch[i]))
  }

  function KeyOf(v: Value): ValueKey { ValueKey(v.issueId, v.definitionId) }

  /**
   * `normalizeIssueRow` (src/stores/issue-store.ts:24-32): a payload silent about labels keeps the
   * labels the issue had.
   */
  function NormalizeIssueRow(data: IssueSyncRow, previous: Option<seq<Id>>): DBIssue {
    DBIssue(data.cols,
      if data.labelAssignments.Some? then data.labelAssignments.value
      else if data.labels.Some? then data.labels.value
      else if data.labelIds.Some? then data.labelIds.value
      else previous.GetOr([]))
  }

  /** A normalized row read back as a payload. */
  function AsSyncRow(issue: DBIssue): IssueSyncRow {
    IssueSyncRow(issue.cols, None, None, Some(issue.labelIds))
  }

  /** The store normalizes what the sync manager already normalized; nothing changes the second time. */
  lemma NormalizeTwice(data: IssueSyncRow, previous: Option<seq<Id>>, later: Option<seq<Id>>)
    ensures NormalizeIssueRow(AsSyncRow(NormalizeIssueRow(data, previous)), later) == NormalizeIssueRow(data, previous)
  {
  }

  /** Models broadcast to the whole organization whose rows belong to one user. */
  const PERSONAL_MODELS := {"Notification", "Favorite"}

  /** False when a personal row belongs to somebody else; both sinks then skip the action. */
  predicate ForMe(me: Option<Id>, c: Change) {
    c.PoolChange? && c.model in PERSONAL_MODELS && !c.verb.Delete? && c.row.Some?
    && c.row.value.owner.Some? && c.row.value.owner.value != ""
    ==> c.row.value.owner == me
  }

  /** This user joined or left a team, so what the server lets them see has changed. */
  predicate OwnMembership(me: Option<Id>, c: Change) {
    c.MembershipChange? && c.member.Some? && c.member.value != "" && c.member == me
  }

  /** The server names a row by its own id, and no issue has the empty id. */
  predicate WellFormed(c: Change) {
    match c
    case IssueChange(_, id, data) =>
      data.Some? && data.value.row.Some? ==> data.value.row.value.cols.id == id && id != ""
    case RelationChange(_, id, relation) => relation.Some? ==> relation.value.id == id
    case DefinitionChange(_, id, definition) => definition.Some? ==> definition.value.id == id
    case PoolChange(_, _, id, row) => row.Some? ==> row.value.id == id
    case _ => true
  }
}
