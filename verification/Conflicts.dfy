/**
 * What a batch does to each row, as one effect read off the batch alone, and exactly when two
 * batches applied in the wrong order leave other rows than in the right one
 * (src/lib/sync-manager.ts:1015-1162 for what an action does to a row).
 */
module Conflicts {
  import opened Common
  import opened Rows
  import opened Replica
  import opened Flush

  datatype Key =
    | IssueKey(issue: Id)
    | RelationKey(relation: Id)
    | DefinitionKey(definition: Id)
    | FieldKey(field: ValueKey)
    | RowKey(row: PoolKey)

  datatype Content =
    | Nothing
    | AnIssue(issueRow: DBIssue)
    | ARelation(relationRow: Relation)
    | ARow(poolRow: Row)
    | AValue(valueRow: Value)

  function Look(s: Memory, k: Key): Content {
    match k
    case IssueKey(id) => if id in s.issues then AnIssue(s.issues[id]) else Nothing
    case RelationKey(id) => if id in s.relations then ARelation(s.relations[id]) else Nothing
    case DefinitionKey(id) => if id in s.definitions then ARow(s.definitions[id]) else Nothing
    case FieldKey(key) => if key in s.values then AValue(s.values[key]) else Nothing
    case RowKey(key) => if key in s.pools then ARow(s.pools[key]) else Nothing
  }

  /**
   * `Puts` says what the row is afterwards, whatever it was. `Keeps` builds on what it was: new
   * columns under the old labels, and gone if it is a relation that touches a deleted issue.
   */
  datatype Effect = Puts(content: Content) | Keeps(columns: Option<IssueColumns>, deleted: set<Id>)

  const SILENT := Keeps(None, {})

  function LabelsIn(was: Content): seq<Id> {
    if was.AnIssue? then was.issueRow.labelIds else []
  }

  predicate Cuts(deleted: set<Id>, x: Content) {
    x.ARelation? && (x.relationRow.issueId in deleted || x.relationRow.relatedIssueId in deleted)
  }

  function Act(e: Effect, was: Content): Content {
    match e
    case Puts(content) => content
    case Keeps(columns, deleted) =>
      if columns.Some? then AnIssue(DBIssue(columns.value, LabelsIn(was)))
      else if Cuts(deleted, was) then Nothing
      else was
  }

  /** One effect after another. */
  function Followed(e: Effect, f: Effect): (r: Effect)
    ensures forall x :: Act(r, x) == Act(f, Act(e, x))
  {
    if f.Puts? then f
    else if e.Puts? then Puts(Act(f, e.content))
    else Keeps(if f.columns.Some? then f.columns else e.columns, e.deleted + f.deleted)
  }

  function AsContent(verb: Verb, row: Option<Row>): Effect {
    if verb.Delete? then Puts(Nothing) else if row.Some? then Puts(ARow(row.value)) else SILENT
  }

  predicate NamesLabels(row: IssueSyncRow) {
    row.labelAssignments.Some? || row.labels.Some? || row.labelIds.Some?
  }

  function IssueEffect(verb: Verb, data: Option<IssueData>): Effect {
    if verb.Delete? then Puts(Nothing)
    else if data.Some? && data.value.row.Some? then
      var row := data.value.row.value;
      if NamesLabels(row) then Puts(AnIssue(NormalizeIssueRow(row, None))) else Keeps(Some(row.cols), {})
    else SILENT
  }

  function FieldEffect(verb: Verb, data: Option<IssueData>, key: ValueKey): Effect {
    if verb.Delete? then Puts(Nothing)
    else if data.Some? && data.value.values.Some? then
      var v := LastUnder(data.value.values.value, key);
      Puts(if v.Some? then AValue(v.value) else Nothing)
    else SILENT
  }

  /** What one change does to one row. */
  function EffectOf(me: Option<Id>, c: Change, k: Key): Effect {
    match k
    case IssueKey(id) => if c.IssueChange? && c.id == id then IssueEffect(c.verb, c.data) else SILENT
    case RelationKey(id) =>
      (match c
       case IssueChange(Delete, i, _) => Keeps(None, {i})
       case RelationChange(verb, i, relation) =>
         if i != id then SILENT
         else if verb.Delete? then Puts(Nothing)
         else if relation.Some? then Puts(ARelation(relation.value)) else SILENT
       case _ => SILENT)
    case DefinitionKey(id) => if c.DefinitionChange? && c.id == id then AsContent(c.verb, c.definition) else SILENT
    case FieldKey(key) =>
      (match c
       case IssueChange(verb, i, data) => if i == key.issueId then FieldEffect(verb, data, key) else SILENT
       case DefinitionChange(Delete, d, _) => if d == key.definitionId then Puts(Nothing) else SILENT
       case _ => SILENT)
    case RowKey(key) =>
      if c.PoolChange? && ForMe(me, c) && PoolKey(c.model, c.id) == key then AsContent(c.verb, c.row) else SILENT
  }

  /** The net effect of a batch on one row. */
  function Net(me: Option<Id>, batch: seq<SyncAction>, k: Key): Effect {
    if batch == [] then SILENT
    else Followed(EffectOf(me, batch[0].change, k), Net(me, batch[1..], k))
  }

  // ----- the effects are what the store does --------------------------------------------------

  lemma IssueActs(me: Option<Id>, s: Memory, c: Change, id: Id)
    requires WellFormed(c)
    ensures Look(ApplyChange(me, s, c), IssueKey(id)) == Act(EffectOf(me, c, IssueKey(id)), Look(s, IssueKey(id)))
  {
    IssuesByCell(s.issues, c, id);
    hide ApplyIssues;
  }

  lemma RelationActs(me: Option<Id>, s: Memory, c: Change, id: Id)
    ensures Look(ApplyChange(me, s, c), RelationKey(id))
            == Act(EffectOf(me, c, RelationKey(id)), Look(s, RelationKey(id)))
  {
    RelationsByCell(s.relations, c, id);
    hide ApplyRelations;
  }

  lemma FieldActs(me: Option<Id>, own: Id -> ValueKey, s: Memory, c: Change, key: ValueKey)
    requires OwnedValues(own, s.values) && GoodChange(own, c)
    ensures Look(ApplyChange(me, s, c), FieldKey(key)) == Act(EffectOf(me, c, FieldKey(key)), Look(s, FieldKey(key)))
  {
    ValuesByCell(s.values, c, key);
    hide ApplyValues;
  }

  lemma RowActs(me: Option<Id>, s: Memory, c: Change, k: Key)
    requires WellFormed(c) && (k.DefinitionKey? || k.RowKey?)
    ensures Look(ApplyChange(me, s, c), k) == Act(EffectOf(me, c, k), Look(s, k))
  {
  }

  lemma ChangeActs(me: Option<Id>, own: Id -> ValueKey, s: Memory, c: Change, k: Key)
    requires OwnedValues(own, s.values) && GoodChange(own, c)
    ensures Look(ApplyChange(me, s, c), k) == Act(EffectOf(me, c, k), Look(s, k))
  {
    hide ApplyChange, EffectOf, Act, Look;
    match k
    case IssueKey(id) => IssueActs(me, s, c, id);
    case RelationKey(id) => RelationActs(me, s, c, id);
    case FieldKey(key) => FieldActs(me, own, s, c, key);
    case _ => RowActs(me, s, c, k);
  }

  lemma SilentKeeps(x: Content)
    ensures Act(SILENT, x) == x
  {
  }

  lemma ChangedValues(me: Option<Id>, s: Memory, c: Change)
    ensures ApplyChange(me, s, c).values == ApplyValues(s.values, c)
  {
  }

  lemma {:induction false} BatchActs(me: Option<Id>, own: Id -> ValueKey, s: Memory, batch: seq<SyncAction>, k: Key)
    requires OwnedValues(own, s.values) && GoodBatch(own, batch)
    ensures Look(ApplyAll(me, s, batch), k) == Act(Net(me, batch, k), Look(s, k))
    decreases batch
  {
    hide ApplyChange, Look, EffectOf, Act, Followed, OwnedValues, GoodChange;
    if batch == [] {
      assert Act(SILENT, Look(s, k)) == Look(s, k) by { SilentKeeps(Look(s, k)); }
    } else {
      var c := batch[0].change;
      ChangeActs(me, own, s, c, k);
      ValuesStayOwned(own, s.values, c);
      assert OwnedValues(own, ApplyChange(me, s, c).values) by { ChangedValues(me, s, c); }
      BatchActs(me, own, ApplyChange(me, s, c), batch[1..], k);
    }
  }

  lemma SameLooks(a: Memory, b: Memory)
    ensures a == b <==> forall k :: Look(a, k) == Look(b, k)
  {
    if forall k :: Look(a, k) == Look(b, k) {
      forall k ensures Cell(a.issues, k) == Cell(b.issues, k) { assert Look(a, IssueKey(k)) == Look(b, IssueKey(k)); }
      forall k ensures Cell(a.relations, k) == Cell(b.relations, k) {
        assert Look(a, RelationKey(k)) == Look(b, RelationKey(k));
      }
      forall k ensures Cell(a.definitions, k) == Cell(b.definitions, k) {
        assert Look(a, DefinitionKey(k)) == Look(b, DefinitionKey(k));
      }
      forall k ensures Cell(a.values, k) == Cell(b.values, k) { assert Look(a, FieldKey(k)) == Look(b, FieldKey(k)); }
      forall k ensures Cell(a.pools, k) == Cell(b.pools, k) { assert Look(a, RowKey(k)) == Look(b, RowKey(k)); }
      SameCells(a.issues, b.issues);
      SameCells(a.relations, b.relations);
      SameCells(a.definitions, b.definitions);
      SameCells(a.values, b.values);
      SameCells(a.pools, b.pools);
    }
  }

  lemma {:induction false} NetConcat(me: Option<Id>, a: seq<SyncAction>, b: seq<SyncAction>, k: Key, x: Content)
    ensures Act(Net(me, a + b, k), x) == Act(Net(me, b, k), Act(Net(me, a, k), x))
  {
    hide EffectOf;
    if a == [] {
      assert a + b == b;
    } else {
      assert (a + b)[1..] == a[1..] + b;
      NetConcat(me, a[1..], b, k, Act(EffectOf(me, a[0].change, k), x));
    }
  }

  // ----- two batches in the wrong order -------------------------------------------------------

  /**
   * On one row: the newer batch came first and the older one over it, and `later` followed. The
   * row is wrong exactly if the two disagree about it and nothing later settles the matter.
   */
  predicate Clash(older: Effect, newer: Effect, later: Effect) {
    && !later.Puts?
    && match (older, newer)
       case (Puts(x), Puts(y)) => Act(later, x) != Act(later, y)
       case (Puts(x), Keeps(_, _)) => Act(later, Act(newer, x)) != Act(later, x)
       case (Keeps(_, _), Puts(y)) => Act(later, Act(older, y)) != Act(later, y)
       case (Keeps(p, _), Keeps(q, _)) => p.Some? && q.Some? && p != q && later.columns.None?
  }

  ghost predicate Clashes(me: Option<Id>, older: seq<SyncAction>, newer: seq<SyncAction>, later: seq<SyncAction>) {
    exists k :: Clash(Net(me, older, k), Net(me, newer, k), Net(me, later, k))
  }

  lemma ClashExactly(older: Effect, newer: Effect, later: Effect, x: Content)
    ensures Act(later, Act(newer, Act(older, x))) == Act(later, Act(older, Act(newer, x)))
            <==> !Clash(older, newer, later)
  {
  }

  lemma ThreeActs(
      me: Option<Id>, own: Id -> ValueKey, s: Memory, a: seq<SyncAction>, b: seq<SyncAction>, c: seq<SyncAction>,
      k: Key)
    requires OwnedValues(own, s.values) && GoodBatch(own, a) && GoodBatch(own, b) && GoodBatch(own, c)
    ensures Look(ApplyAll(me, s, a + b + c), k)
            == Act(Net(me, c, k), Act(Net(me, b, k), Act(Net(me, a, k), Look(s, k))))
  {
    BatchActs(me, own, s, a + b + c, k);
    hide OwnedValues, GoodBatch, ApplyAll, Net, Act, Look;
    NetConcat(me, a + b, c, k, Look(s, k));
    NetConcat(me, a, b, k, Look(s, k));
  }

  /** The order of two batches matters exactly if some row clashes; the condition reads only them. */
  lemma OrderMattersExactly(
      me: Option<Id>, own: Id -> ValueKey, s: Memory, older: seq<SyncAction>, newer: seq<SyncAction>,
      later: seq<SyncAction>)
    requires OwnedValues(own, s.values) && GoodBatch(own, older) && GoodBatch(own, newer) && GoodBatch(own, later)
    ensures ApplyAll(me, s, newer + older + later) == ApplyAll(me, s, older + newer + later)
            <==> !Clashes(me, older, newer, later)
  {
    var right, wrong := ApplyAll(me, s, older + newer + later), ApplyAll(me, s, newer + older + later);
    hide ApplyAll, Look, Net, Clash, Act, OwnedValues, GoodBatch;
    SameLooks(wrong, right);
    forall k ensures Look(wrong, k) == Look(right, k)
        <==> !Clash(Net(me, older, k), Net(me, newer, k), Net(me, later, k)) {
      ThreeActs(me, own, s, older, newer, later, k);
      ThreeActs(me, own, s, newer, older, later, k);
      ClashExactly(Net(me, older, k), Net(me, newer, k), Net(me, later, k), Look(s, k));
    }
  }

  // ----- a batch that never arrives -----------------------------------------------------------

  predicate Gone(deleted: set<Id>, x: Content) { x.Nothing? || Cuts(deleted, x) }

  /**
   * On one row, which was `x` before: `gap` was left out and `later` followed. The row is lost if
   * nothing later puts it and one of these holds. The gap put a row: under new columns its labels
   * show, otherwise all of it does, unless both rows are gone in the end. The gap wrote columns: no
   * later columns cover them, and they are not those of `x`. The gap deleted an issue that `x`
   * touches: nothing later does.
   */
  predicate Lost(gap: Effect, later: Effect, x: Content) {
    && later.Keeps?
    && match gap
       case Puts(y) =>
         if later.columns.Some? then LabelsIn(y) != LabelsIn(x)
         else y != x && !(Gone(later.deleted, y) && Gone(later.deleted, x))
       case Keeps(columns, deleted) =>
         && later.columns.None?
         && if columns.Some? then !x.AnIssue? || x.issueRow.cols != columns.value
            else Cuts(deleted, x) && !Cuts(later.deleted, x)
  }

  ghost predicate Loses(me: Option<Id>, s: Memory, gap: seq<SyncAction>, later: seq<SyncAction>) {
    exists k :: Lost(Net(me, gap, k), Net(me, later, k), Look(s, k))
  }

  lemma LostExactly(gap: Effect, later: Effect, x: Content)
    ensures Act(later, x) == Act(later, Act(gap, x)) <==> !Lost(gap, later, x)
  {
  }

  /** Leaving a batch out makes no difference exactly if no row is lost. */
  lemma GapMattersExactly(me: Option<Id>, own: Id -> ValueKey, s: Memory, gap: seq<SyncAction>, later: seq<SyncAction>)
    requires OwnedValues(own, s.values) && GoodBatch(own, gap) && GoodBatch(own, later)
    ensures ApplyAll(me, s, later) == ApplyAll(me, s, gap + later) <==> !Loses(me, s, gap, later)
  {
    var right, wrong := ApplyAll(me, s, gap + later), ApplyAll(me, s, later);
    SameLooks(wrong, right);
    forall k ensures Look(wrong, k) == Look(right, k) <==> !Lost(Net(me, gap, k), Net(me, later, k), Look(s, k)) {
      BatchActs(me, own, s, gap + later, k);
      BatchActs(me, own, s, later, k);
      hide ApplyAll, Look, Net, OwnedValues, GoodBatch, Act, Lost;
      NetConcat(me, gap, later, k, Look(s, k));
      LostExactly(Net(me, gap, k), Net(me, later, k), Look(s, k));
    }
  }

  // ----- a batch that arrives again -----------------------------------------------------------

  /**
   * On one row: `echo` repeats actions of `seen` and `later` follows. The row goes back if what
   * was seen put it otherwise than the echo leaves it, or last wrote other columns than the echo,
   * and nothing later covers that.
   */
  predicate GoesBack(seen: Effect, echo: Effect, later: Effect) {
    match seen
    case Puts(x) => Lost(echo, later, x)
    case Keeps(columns, _) =>
      && later.Keeps? && later.columns.None?
      && echo.Keeps? && echo.columns.Some? && echo.columns != columns
  }

  ghost predicate GoBack(me: Option<Id>, seen: seq<SyncAction>, echo: seq<SyncAction>, later: seq<SyncAction>) {
    exists k :: GoesBack(Net(me, seen, k), Net(me, echo, k), Net(me, later, k))
  }

  /** What one effect can do another one could have done already. */
  predicate Covered(echo: Effect, seen: Effect) {
    seen.Keeps? ==> echo.Keeps? && echo.deleted <= seen.deleted && (echo.columns.Some? ==> seen.columns.Some?)
  }

  lemma GoesBackExactly(seen: Effect, echo: Effect, later: Effect, x: Content)
    requires Covered(echo, seen)
    ensures Act(later, Act(echo, Act(seen, x))) == Act(later, Act(seen, x)) <==> !GoesBack(seen, echo, later)
  {
    LostExactly(echo, later, Act(seen, x));
  }

  predicate WritesColumns(e: Effect) { e.Keeps? && e.columns.Some? }

  predicate DeletesAround(e: Effect, d: Id) { e.Keeps? && d in e.deleted }

  /** Whether a batch puts a row, writes its columns or deletes around it is up to its actions, not their order. */
  lemma {:induction false} NetKind(me: Option<Id>, batch: seq<SyncAction>, k: Key)
    ensures Net(me, batch, k).Puts? <==> exists a :: a in batch && EffectOf(me, a.change, k).Puts?
    ensures Net(me, batch, k).Keeps? ==>
              && (Net(me, batch, k).columns.Some? <==>
                    exists a :: a in batch && WritesColumns(EffectOf(me, a.change, k)))
              && (forall d :: d in Net(me, batch, k).deleted <==>
                    exists a :: a in batch && DeletesAround(EffectOf(me, a.change, k), d))
  {
    hide EffectOf;
    if batch != [] {
      NetKind(me, batch[1..], k);
      assert batch == [batch[0]] + batch[1..];
      assert forall a :: a in batch <==> a == batch[0] || a in batch[1..];
    }
  }

  lemma RepeatedIsCovered(me: Option<Id>, seen: seq<SyncAction>, echo: seq<SyncAction>, k: Key)
    requires forall a | a in echo :: a in seen
    ensures Covered(Net(me, echo, k), Net(me, seen, k))
  {
    NetKind(me, seen, k);
    NetKind(me, echo, k);
    hide Net, EffectOf;
  }

  /** Applying again what was applied before makes no difference exactly if no row goes back. */
  lemma EchoMattersExactly(
      me: Option<Id>, own: Id -> ValueKey, s: Memory, seen: seq<SyncAction>, echo: seq<SyncAction>,
      later: seq<SyncAction>)
    requires OwnedValues(own, s.values) && GoodBatch(own, seen) && GoodBatch(own, later)
    requires forall a | a in echo :: a in seen
    ensures ApplyAll(me, s, seen + echo + later) == ApplyAll(me, s, seen + later) <==> !GoBack(me, seen, echo, later)
  {
    var right, wrong := ApplyAll(me, s, seen + later), ApplyAll(me, s, seen + echo + later);
    SameLooks(wrong, right);
    hide ApplyAll, Look, Net, Act, OwnedValues, GoodChange, GoesBack;
    forall k ensures Look(wrong, k) == Look(right, k)
        <==> !GoesBack(Net(me, seen, k), Net(me, echo, k), Net(me, later, k)) {
      ThreeActs(me, own, s, seen, echo, later, k);
      BatchActs(me, own, s, seen + later, k);
      NetConcat(me, seen, later, k, Look(s, k));
      RepeatedIsCovered(me, seen, echo, k);
      GoesBackExactly(Net(me, seen, k), Net(me, echo, k), Net(me, later, k), Look(s, k));
    }
  }

  // ----- the same actions in any order, any number of times -----------------------------------

  /** The last word of a batch on a row: what the last put makes of it, or else the last columns. */
  predicate SameWord(a: Effect, b: Effect) {
    match (a, b)
    case (Puts(x), Puts(y)) => x == y
    case (Keeps(p, _), Keeps(q, _)) => p == q
    case _ => false
  }

  ghost predicate SameWords(me: Option<Id>, a: seq<SyncAction>, b: seq<SyncAction>) {
    forall k :: SameWord(Net(me, a, k), Net(me, b, k))
  }

  lemma SameWordExactly(me: Option<Id>, a: seq<SyncAction>, b: seq<SyncAction>, k: Key, x: Content)
    requires forall e :: e in a <==> e in b
    ensures Act(Net(me, a, k), x) == Act(Net(me, b, k), x) <==> SameWord(Net(me, a, k), Net(me, b, k))
  {
    NetKind(me, a, k);
    NetKind(me, b, k);
    hide Net, EffectOf;
    assert Net(me, a, k).Keeps? && Net(me, b, k).Keeps? ==> Net(me, a, k).deleted == Net(me, b, k).deleted;
  }

  /** Two deliveries of the same actions end in the same rows exactly if every row has the same last word in both. */
  lemma DeliveryMattersExactly(me: Option<Id>, own: Id -> ValueKey, s: Memory, a: seq<SyncAction>, b: seq<SyncAction>)
    requires OwnedValues(own, s.values) && GoodBatch(own, a) && GoodBatch(own, b)
    requires forall e :: e in a <==> e in b
    ensures ApplyAll(me, s, a) == ApplyAll(me, s, b) <==> SameWords(me, a, b)
  {
    var p, q := ApplyAll(me, s, a), ApplyAll(me, s, b);
    SameLooks(p, q);
    hide ApplyAll, Look, Net, Act, OwnedValues, GoodBatch, SameWord;
    forall k ensures Look(p, k) == Look(q, k) <==> SameWord(Net(me, a, k), Net(me, b, k)) {
      BatchActs(me, own, s, a, k);
      BatchActs(me, own, s, b, k);
      SameWordExactly(me, a, b, k, Look(s, k));
    }
  }

  /** For a row that is only ever written or deleted whole, the last word is the last action that names it. */
  lemma {:induction false} LastWordIsLastAction(me: Option<Id>, batch: seq<SyncAction>, k: Key, i: nat)
    requires k.DefinitionKey? || k.FieldKey? || k.RowKey?
    requires i < |batch| && EffectOf(me, batch[i].change, k).Puts?
    requires forall j | i < j < |batch| :: EffectOf(me, batch[j].change, k).Keeps?
    ensures Net(me, batch, k) == EffectOf(me, batch[i].change, k)
  {
    if i > 0 {
      LastWordIsLastAction(me, batch[1..], k, i - 1);
    } else {
      NothingNamesIt(me, batch[1..], k);
    }
  }

  lemma {:induction false} NothingNamesIt(me: Option<Id>, batch: seq<SyncAction>, k: Key)
    requires k.DefinitionKey? || k.FieldKey? || k.RowKey?
    requires forall j | 0 <= j < |batch| :: EffectOf(me, batch[j].change, k).Keeps?
    ensures Net(me, batch, k) == SILENT
  {
    if batch != [] {
      NothingNamesIt(me, batch[1..], k);
    }
  }
}
