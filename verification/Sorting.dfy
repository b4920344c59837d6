/**
 * Sorting issues by several fields (src/lib/filter-engine.ts:43-46 and 220-274). Text comparison is
 * a parameter, as the collation is the browser's; all that is asked of it is to be a total preorder.
 */
module Sorting {
  import opened Common

  datatype Direction = Asc | Desc

  datatype FieldName = Priority | Status | Created | Updated | DueDate | Manual | Assignee

  datatype SortField = SortField(field: FieldName, direction: Direction)

  datatype Issue = Issue(
    id: Id, stateId: Id, priority: int, createdAt: Option<string>, updatedAt: Option<string>, dueDate: Option<string>,
    sortOrder: Option<real>, assigneeId: Option<Id>)

  /** `localeCompare`: the sign says which comes first. */
  type Collation = (string, string) -> int

  /** What comparisons look up: the collation and the order of workflow states. */
  datatype Ctx = Ctx(collate: Collation, positions: map<Id, real>)

  function Sign(x: real): int { if x < 0.0 then -1 else if x > 0.0 then 1 else 0 }

  function PositionOf(ctx: Ctx, stateId: Id): real { if stateId in ctx.positions then ctx.positions[stateId] else 0.0 }

  /** No due date sorts as the last text there is. */
  const NO_DATE: string := "\U{FFFF}"

  /** One field's comparison before the direction is applied. */
  function FieldCmp(ctx: Ctx, field: FieldName, a: Issue, b: Issue): int {
    match field
    case Priority => a.priority - b.priority
    case Status => Sign(PositionOf(ctx, a.stateId) - PositionOf(ctx, b.stateId))
    case Created => ctx.collate(a.createdAt.GetOr(""), b.createdAt.GetOr(""))
    case Updated => ctx.collate(a.updatedAt.GetOr(""), b.updatedAt.GetOr(""))
    case DueDate => ctx.collate(a.dueDate.GetOr(NO_DATE), b.dueDate.GetOr(NO_DATE))
    case Manual => Sign(a.sortOrder.GetOr(0.0) - b.sortOrder.GetOr(0.0))
    case Assignee => ctx.collate(a.assigneeId.GetOr(""), b.assigneeId.GetOr(""))
  }

  /** What one field decides, or zero: "no priority" goes last whatever the direction. */
  function Decides(ctx: Ctx, f: SortField, a: Issue, b: Issue): int {
    if f.field == Priority && (a.priority == 0) != (b.priority == 0) then
      if a.priority != 0 then -1 else 1
    else
      var cmp := FieldCmp(ctx, f.field, a, b);
      if f.direction == Asc then cmp else -cmp
  }

  /** The first field that decides. */
  function Compare(ctx: Ctx, fields: seq<SortField>, a: Issue, b: Issue): int {
    if fields == [] then 0
    else
      var cmp := Decides(ctx, fields[0], a, b);
      if cmp != 0 then cmp else Compare(ctx, fields[1..], a, b)
  }

  method Comparator(ctx: Ctx, fields: seq<SortField>, a: Issue, b: Issue) returns (r: int)
    ensures r == Compare(ctx, fields, a, b)
  {
    for i := 0 to |fields|
      invariant Compare(ctx, fields[i..], a, b) == Compare(ctx, fields, a, b)
    {
      assert fields[i..][1..] == fields[i + 1..];
      var multiplier := if fields[i].direction == Asc then 1 else -1;
      var field := fields[i].field;
      if field == Priority && (a.priority == 0) != (b.priority == 0) {
        return if a.priority != 0 then -1 else 1;
      }
      var cmp := FieldCmp(ctx, field, a, b);
      if cmp != 0 {
        return cmp * multiplier;
      }
    }
    return 0;
  }

  // ----- total preorders ----------------------------------------------------------------------

  ghost predicate IsPreorder<T(!new)>(cmp: (T, T) -> int) {
    && (forall a, b :: cmp(a, b) > 0 <==> cmp(b, a) < 0)
    && (forall a, b, c | cmp(a, b) <= 0 && cmp(b, c) <= 0 :: cmp(a, c) <= 0)
  }

  /** The first comparison decides, the second breaks its ties. */
  function Then<T>(first: (T, T) -> int, second: (T, T) -> int): (T, T) -> int {
    (a, b) => if first(a, b) != 0 then first(a, b) else second(a, b)
  }

  lemma ThenIsPreorder<T(!new)>(first: (T, T) -> int, second: (T, T) -> int)
    requires IsPreorder(first) && IsPreorder(second)
    ensures IsPreorder(Then(first, second))
  {
  }

  ghost function FieldOrder(ctx: Ctx, f: SortField): (Issue, Issue) -> int {
    (a, b) => Decides(ctx, f, a, b)
  }

  /** One field without its direction: numbers and texts by their order. */
  ghost function PlainOrder(ctx: Ctx, field: FieldName): (Issue, Issue) -> int {
    (a, b) => FieldCmp(ctx, field, a, b)
  }

  lemma PlainIsPreorder(ctx: Ctx, field: FieldName)
    requires IsPreorder(ctx.collate)
    ensures IsPreorder(PlainOrder(ctx, field))
  {
  }

  /** The same comparison the other way round. */
  function Reversed<T>(cmp: (T, T) -> int): (T, T) -> int { (a, b) => -cmp(a, b) }

  lemma ReversedIsPreorder<T(!new)>(cmp: (T, T) -> int)
    requires IsPreorder(cmp)
    ensures IsPreorder(Reversed(cmp))
  {
  }

  /** Issues with a priority before issues without. */
  function UnsetLast(): (Issue, Issue) -> int {
    (a: Issue, b: Issue) => (if a.priority == 0 then 1 else 0) - (if b.priority == 0 then 1 else 0)
  }

  lemma FieldIsPreorder(ctx: Ctx, f: SortField)
    requires IsPreorder(ctx.collate)
    ensures IsPreorder(FieldOrder(ctx, f))
  {
    PlainIsPreorder(ctx, f.field);
    var plain := PlainOrder(ctx, f.field);
    ReversedIsPreorder(plain);
    var directed := if f.direction == Asc then plain else Reversed(plain);
    assert IsPreorder(UnsetLast());
    var both := if f.field == Priority then Then(UnsetLast(), directed) else directed;
    if f.field == Priority {
      ThenIsPreorder(UnsetLast(), directed);
    }
    forall a, b ensures FieldOrder(ctx, f)(a, b) == both(a, b) {
      hide IsPreorder;
    }
    SamePreorder(both, FieldOrder(ctx, f));
  }

  lemma SamePreorder<T(!new)>(cmp: (T, T) -> int, same: (T, T) -> int)
    requires IsPreorder(cmp) && forall a, b :: same(a, b) == cmp(a, b)
    ensures IsPreorder(same)
  {
  }

  ghost function Order(ctx: Ctx, fields: seq<SortField>): (Issue, Issue) -> int {
    (a, b) => Compare(ctx, fields, a, b)
  }

  /** Whatever fields are chosen, the comparator is a total preorder. */
  lemma {:induction false} ComparatorIsPreorder(ctx: Ctx, fields: seq<SortField>)
    requires IsPreorder(ctx.collate)
    ensures IsPreorder(Order(ctx, fields))
    decreases fields
  {
    if fields != [] {
      FieldIsPreorder(ctx, fields[0]);
      ComparatorIsPreorder(ctx, fields[1..]);
      var both := Then(FieldOrder(ctx, fields[0]), Order(ctx, fields[1..]));
      ThenIsPreorder(FieldOrder(ctx, fields[0]), Order(ctx, fields[1..]));
      SamePreorder(both, Order(ctx, fields));
    }
  }

  // ----- stable sorting -----------------------------------------------------------------------

  ghost predicate SortedBy<T(!new)>(cmp: (T, T) -> int, s: seq<T>) {
    forall i, j | 0 <= i < j < |s| :: cmp(s[i], s[j]) <= 0
  }

  /** The elements that tie with `x`, in order. */
  function Ties<T>(cmp: (T, T) -> int, x: T, s: seq<T>): seq<T> {
    if s == [] then [] else (if cmp(x, s[0]) == 0 then [s[0]] else []) + Ties(cmp, x, s[1..])
  }

  /** What ECMAScript promises of `Array.prototype.sort`: sorted, and tied elements keep their order. */
  ghost predicate StableSortOf<T(!new)>(cmp: (T, T) -> int, was: seq<T>, s: seq<T>) {
    SortedBy(cmp, s) && forall x :: Ties(cmp, x, s) == Ties(cmp, x, was)
  }

  lemma {:induction false} TiesCount<T(!new)>(cmp: (T, T) -> int, x: T, s: seq<T>)
    requires cmp(x, x) == 0
    ensures multiset(Ties(cmp, x, s))[x] == multiset(s)[x]
  {
    if s != [] {
      TiesCount(cmp, x, s[1..]);
      assert s == [s[0]] + s[1..];
    }
  }

  /** A stable sort is a permutation. */
  lemma StableSortPermutes<T(!new)>(cmp: (T, T) -> int, was: seq<T>, s: seq<T>)
    requires IsPreorder(cmp) && StableSortOf(cmp, was, s)
    ensures multiset(s) == multiset(was)
  {
    forall x ensures multiset(s)[x] == multiset(was)[x] {
      assert cmp(x, x) > 0 <==> cmp(x, x) < 0;
      TiesCount(cmp, x, s);
      TiesCount(cmp, x, was);
    }
  }

  lemma {:induction false} TiesFound<T(!new)>(cmp: (T, T) -> int, x: T, s: seq<T>, i: nat)
    requires i < |s| && cmp(x, s[i]) == 0
    ensures s[i] in Ties(cmp, x, s)
  {
    if i > 0 { TiesFound(cmp, x, s[1..], i - 1); }
  }

  lemma {:induction false} TiesAreMembers<T(!new)>(cmp: (T, T) -> int, x: T, s: seq<T>, y: T)
    requires y in Ties(cmp, x, s)
    ensures y in s
  {
    if y in Ties(cmp, x, s[1..]) { TiesAreMembers(cmp, x, s[1..], y); }
  }

  lemma HeadOf<T(!new)>(cmp: (T, T) -> int, r: seq<T>, s: seq<T>)
    requires IsPreorder(cmp) && SortedBy(cmp, r) && SortedBy(cmp, s) && r != []
    requires forall x :: Ties(cmp, x, r) == Ties(cmp, x, s)
    ensures s != [] && cmp(s[0], r[0]) <= 0
  {
    assert cmp(r[0], r[0]) == 0 by { assert cmp(r[0], r[0]) > 0 <==> cmp(r[0], r[0]) < 0; }
    TiesFound(cmp, r[0], r, 0);
    TiesAreMembers(cmp, r[0], s, r[0]);
    var i :| 0 <= i < |s| && s[i] == r[0];
    if i > 0 {
      assert cmp(s[0], s[i]) <= 0;
    }
  }

  /** The heads of two stable sorts of one list are the same element. */
  lemma SameHead<T(!new)>(cmp: (T, T) -> int, r: seq<T>, s: seq<T>)
    requires IsPreorder(cmp) && SortedBy(cmp, r) && SortedBy(cmp, s) && r != []
    requires forall x :: Ties(cmp, x, r) == Ties(cmp, x, s)
    ensures s != [] && s[0] == r[0]
  {
    HeadOf(cmp, r, s);
    HeadOf(cmp, s, r);
    var x := r[0];
    assert cmp(x, s[0]) > 0 <==> cmp(s[0], x) < 0;
    assert cmp(s[0], x) > 0 <==> cmp(x, s[0]) < 0;
    assert cmp(x, x) > 0 <==> cmp(x, x) < 0;
    hide IsPreorder, SortedBy;
    assert Ties(cmp, x, r) == [x] + Ties(cmp, x, r[1..]);
    assert Ties(cmp, x, s) == [s[0]] + Ties(cmp, x, s[1..]);
    assert Ties(cmp, x, r)[0] == x && Ties(cmp, x, s)[0] == s[0];
  }

  lemma TailTies<T(!new)>(cmp: (T, T) -> int, r: seq<T>, s: seq<T>, y: T)
    requires r != [] && s != [] && r[0] == s[0] && Ties(cmp, y, r) == Ties(cmp, y, s)
    ensures Ties(cmp, y, r[1..]) == Ties(cmp, y, s[1..])
  {
    var head := if cmp(y, r[0]) == 0 then [r[0]] else [];
    assert Ties(cmp, y, r)[|head|..] == Ties(cmp, y, r[1..]);
    assert Ties(cmp, y, s)[|head|..] == Ties(cmp, y, s[1..]);
  }

  /** There is only one stable sort of a list, so it does not matter how the engine finds it. */
  lemma {:induction false} StableSortIsUnique<T(!new)>(cmp: (T, T) -> int, r: seq<T>, s: seq<T>)
    requires IsPreorder(cmp) && SortedBy(cmp, r) && SortedBy(cmp, s)
    requires forall x :: Ties(cmp, x, r) == Ties(cmp, x, s)
    ensures r == s
    decreases r
  {
    if r == [] {
      if s != [] {
        SameHead(cmp, s, r);
      }
    } else {
      SameHead(cmp, r, s);
      SortedTail(cmp, r);
      SortedTail(cmp, s);
      hide IsPreorder, SortedBy;
      forall y ensures Ties(cmp, y, r[1..]) == Ties(cmp, y, s[1..]) {
        TailTies(cmp, r, s, y);
      }
      StableSortIsUnique(cmp, r[1..], s[1..]);
      assert r == [r[0]] + r[1..] && s == [s[0]] + s[1..];
    }
  }

  /** Before everything it does not come after. */
  function Insert<T>(cmp: (T, T) -> int, x: T, s: seq<T>): seq<T> {
    if s == [] then [x] else if cmp(x, s[0]) <= 0 then [x] + s else [s[0]] + Insert(cmp, x, s[1..])
  }

  function Sort<T>(cmp: (T, T) -> int, s: seq<T>): seq<T> {
    if s == [] then [] else Insert(cmp, s[0], Sort(cmp, s[1..]))
  }

  lemma TiesCons<T>(cmp: (T, T) -> int, y: T, x: T, s: seq<T>)
    ensures Ties(cmp, y, [x] + s) == (if cmp(y, x) == 0 then [x] else []) + Ties(cmp, y, s)
  {
  }

  /** Nothing ties with two elements one of which comes after the other. */
  lemma NotBoth<T(!new)>(cmp: (T, T) -> int, x: T, y: T, z: T)
    requires IsPreorder(cmp) && cmp(x, z) > 0
    ensures cmp(y, x) != 0 || cmp(y, z) != 0
  {
  }

  lemma {:induction false} InsertTies<T(!new)>(cmp: (T, T) -> int, x: T, s: seq<T>, y: T)
    requires IsPreorder(cmp)
    ensures Ties(cmp, y, Insert(cmp, x, s)) == (if cmp(y, x) == 0 then [x] else []) + Ties(cmp, y, s)
  {
    if s != [] && cmp(x, s[0]) > 0 {
      InsertTies(cmp, x, s[1..], y);
      NotBoth(cmp, x, y, s[0]);
      hide IsPreorder;
      assert Insert(cmp, x, s) == [s[0]] + Insert(cmp, x, s[1..]);
      TiesCons(cmp, y, s[0], Insert(cmp, x, s[1..]));
      TiesCons(cmp, y, s[0], s[1..]);
      assert [s[0]] + s[1..] == s;
    } else {
      assert Insert(cmp, x, s) == [x] + s;
      TiesCons(cmp, y, x, s);
    }
  }

  lemma {:induction false} InsertMembers<T(!new)>(cmp: (T, T) -> int, x: T, s: seq<T>, y: T)
    requires y in Insert(cmp, x, s)
    ensures y == x || y in s
  {
    if s != [] && cmp(x, s[0]) > 0 && y != s[0] {
      InsertMembers(cmp, x, s[1..], y);
    }
  }

  lemma SortedCons<T(!new)>(cmp: (T, T) -> int, x: T, s: seq<T>)
    requires SortedBy(cmp, s) && forall y | y in s :: cmp(x, y) <= 0
    ensures SortedBy(cmp, [x] + s)
  {
  }

  lemma SortedTail<T(!new)>(cmp: (T, T) -> int, s: seq<T>)
    requires SortedBy(cmp, s) && s != []
    ensures SortedBy(cmp, s[1..]) && forall y | y in s[1..] :: cmp(s[0], y) <= 0
  {
  }

  lemma {:induction false} InsertSorted<T(!new)>(cmp: (T, T) -> int, x: T, s: seq<T>)
    requires IsPreorder(cmp) && SortedBy(cmp, s)
    ensures SortedBy(cmp, Insert(cmp, x, s))
  {
    if s != [] {
      SortedTail(cmp, s);
      hide SortedBy;
      if cmp(x, s[0]) <= 0 {
        forall y | y in s ensures cmp(x, y) <= 0 {
          if y != s[0] {
            assert y in s[1..];
            assert cmp(x, s[0]) <= 0 && cmp(s[0], y) <= 0;
          }
        }
        SortedCons(cmp, x, s);
      } else {
        InsertSorted(cmp, x, s[1..]);
        assert cmp(s[0], x) < 0;
        forall y | y in Insert(cmp, x, s[1..]) ensures cmp(s[0], y) <= 0 {
          InsertMembers(cmp, x, s[1..], y);
        }
        SortedCons(cmp, s[0], Insert(cmp, x, s[1..]));
      }
    } else {
      assert SortedBy(cmp, [x]);
    }
  }

  lemma {:induction false} SortIsStable<T(!new)>(cmp: (T, T) -> int, s: seq<T>)
    requires IsPreorder(cmp)
    ensures StableSortOf(cmp, s, Sort(cmp, s))
  {
    if s != [] {
      SortIsStable(cmp, s[1..]);
      InsertSorted(cmp, s[0], Sort(cmp, s[1..]));
      forall x ensures Ties(cmp, x, Sort(cmp, s)) == Ties(cmp, x, s) {
        InsertTies(cmp, s[0], Sort(cmp, s[1..]), x);
      }
    }
  }

  // ----- the sorted list ----------------------------------------------------------------------

  ghost function ApplySorting(ctx: Ctx, fields: seq<SortField>, issues: seq<Issue>): seq<Issue> {
    if fields == [] then issues else Sort(Order(ctx, fields), issues)
  }

  lemma {:induction false} NoOrderTies<T(!new)>(cmp: (T, T) -> int, s: seq<T>, x: T)
    requires forall a, b :: cmp(a, b) == 0
    ensures Ties(cmp, x, s) == s
  {
    if s != [] { NoOrderTies(cmp, s[1..], x); }
  }

  /**
   * The result is the one stable sort by the comparator, a permutation of the issues, whatever the
   * fields; without fields that is the list itself.
   */
  lemma ApplySortingSorts(ctx: Ctx, fields: seq<SortField>, issues: seq<Issue>)
    requires IsPreorder(ctx.collate)
    ensures var (cmp, r) := (Order(ctx, fields), ApplySorting(ctx, fields, issues));
            && StableSortOf(cmp, issues, r)
            && multiset(r) == multiset(issues)
            && forall s | StableSortOf(cmp, issues, s) :: s == r
  {
    var (cmp, r) := (Order(ctx, fields), ApplySorting(ctx, fields, issues));
    ComparatorIsPreorder(ctx, fields);
    if fields != [] {
      SortIsStable(cmp, issues);
    }
    hide Compare;
    StableSortPermutes(cmp, issues, r);
    forall s | StableSortOf(cmp, issues, s) ensures s == r {
      StableSortIsUnique(cmp, s, r);
    }
  }

  lemma {:induction false} TiedPrefixIsSkipped(ctx: Ctx, fields: seq<SortField>, p: nat, a: Issue, b: Issue)
    requires p <= |fields| && Compare(ctx, fields[..p], a, b) == 0
    ensures Compare(ctx, fields, a, b) == Compare(ctx, fields[p..], a, b)
    decreases p
  {
    if p == 0 {
      assert fields[0..] == fields;
    } else {
      assert fields[..p][1..] == fields[1..][..p - 1];
      assert fields[1..][p - 1..] == fields[p..];
      TiedPrefixIsSkipped(ctx, fields[1..], p - 1, a, b);
    }
  }

  /** Among issues tied on the fields before, those without a priority come last, in both directions. */
  lemma NoPriorityLast(ctx: Ctx, fields: seq<SortField>, issues: seq<Issue>, p: nat, i: nat, j: nat)
    requires IsPreorder(ctx.collate)
    requires p < |fields| && fields[p].field == Priority
    requires i < j < |ApplySorting(ctx, fields, issues)|
    requires var r := ApplySorting(ctx, fields, issues); Compare(ctx, fields[..p], r[i], r[j]) == 0
    ensures var r := ApplySorting(ctx, fields, issues); r[i].priority == 0 ==> r[j].priority == 0
  {
    var r := ApplySorting(ctx, fields, issues);
    ApplySortingSorts(ctx, fields, issues);
    assert Order(ctx, fields)(r[i], r[j]) <= 0;
    TiedPrefixIsSkipped(ctx, fields, p, r[i], r[j]);
  }

  /** Two issues in the order a field asks for, said in its column; missing texts and numbers have their stand-ins. */
  predicate ColumnInOrder(ctx: Ctx, field: FieldName, a: Issue, b: Issue) {
    match field
    case Priority => a.priority <= b.priority
    case Status =>
      (if a.stateId in ctx.positions then ctx.positions[a.stateId] else 0.0)
      <= (if b.stateId in ctx.positions then ctx.positions[b.stateId] else 0.0)
    case Created => ctx.collate(TextOr(a.createdAt, ""), TextOr(b.createdAt, "")) <= 0
    case Updated => ctx.collate(TextOr(a.updatedAt, ""), TextOr(b.updatedAt, "")) <= 0
    case DueDate => ctx.collate(TextOr(a.dueDate, "\U{FFFF}"), TextOr(b.dueDate, "\U{FFFF}")) <= 0
    case Manual =>
      (if a.sortOrder.Some? then a.sortOrder.value else 0.0) <= if b.sortOrder.Some? then b.sortOrder.value else 0.0
    case Assignee => ctx.collate(TextOr(a.assigneeId, ""), TextOr(b.assigneeId, "")) <= 0
  }

  function TextOr(text: Option<string>, missing: string): string {
    match text
    case None => missing
    case Some(t) => t
  }

  /**
   * Of two issues tied on the fields before, the earlier one in the result is the smaller one by the
   * field's column when it sorts up, the greater one when it sorts down; a missing priority is last.
   */
  lemma ColumnsAreInOrder(ctx: Ctx, fields: seq<SortField>, issues: seq<Issue>, p: nat, i: nat, j: nat)
    requires IsPreorder(ctx.collate) && p < |fields|
    requires i < j < |ApplySorting(ctx, fields, issues)|
    requires var r := ApplySorting(ctx, fields, issues); Compare(ctx, fields[..p], r[i], r[j]) == 0
    ensures var (a, b) := (ApplySorting(ctx, fields, issues)[i], ApplySorting(ctx, fields, issues)[j]);
            if fields[p].field == Priority && (a.priority == 0 || b.priority == 0) then b.priority == 0
            else if fields[p].direction == Asc then ColumnInOrder(ctx, fields[p].field, a, b)
            else ColumnInOrder(ctx, fields[p].field, b, a)
  {
    var r := ApplySorting(ctx, fields, issues);
    ApplySortingSorts(ctx, fields, issues);
    assert Order(ctx, fields)(r[i], r[j]) <= 0;
    TiedPrefixIsSkipped(ctx, fields, p, r[i], r[j]);
    FieldDecides(ctx, fields[p], r[i], r[j]);
    hide IsPreorder, StableSortOf, ApplySorting, ColumnInOrder, Decides;
  }

  lemma FieldDecides(ctx: Ctx, f: SortField, a: Issue, b: Issue)
    requires IsPreorder(ctx.collate) && Decides(ctx, f, a, b) <= 0
    ensures if f.field == Priority && (a.priority == 0 || b.priority == 0) then b.priority == 0
            else if f.direction == Asc then ColumnInOrder(ctx, f.field, a, b)
            else ColumnInOrder(ctx, f.field, b, a)
  {
  }
}
