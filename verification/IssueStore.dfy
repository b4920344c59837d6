/**
 * The issue store (src/stores/issue-store.ts): a pool of issues and a hand-maintained index from
 * teams to the ids on them. First the operations as functions on values, then what the index
 * promises, then the store itself, updated in place and proved against those functions.
 */
module IssueStores {
  import opened Common
  import opened Rows
  import opened Replica

  datatype Store = Store(pool: map<Id, DBIssue>, byTeam: map<Id, set<Id>>)

  const EMPTY_STORE := Store(map[], map[])

  function TeamOf(issue: DBIssue): Id { issue.cols.teamId }

  /** The ids listed under a team; a team without a bucket lists none. */
  function Bucket(byTeam: map<Id, set<Id>>, teamId: Id): set<Id> {
    if teamId in byTeam then byTeam[teamId] else {}
  }

  // ----- the operations -----------------------------------------------------------------------

  function IndexAdd(byTeam: map<Id, set<Id>>, id: Id, teamId: Id): map<Id, set<Id>> {
    if id in Bucket(byTeam, teamId) then byTeam else byTeam[teamId := Bucket(byTeam, teamId) + {id}]
  }

  function IndexRemove(byTeam: map<Id, set<Id>>, id: Id, teamId: Id): map<Id, set<Id>> {
    if id !in Bucket(byTeam, teamId) then byTeam
    else
      var rest := byTeam[teamId] - {id};
      if rest == {} then byTeam - {teamId} else byTeam[teamId := rest]
  }

  function SetIssue(s: Store, issue: DBIssue): Store {
    var id := issue.cols.id;
    var cleared :=
      if id in s.pool && TeamOf(s.pool[id]) != TeamOf(issue) then IndexRemove(s.byTeam, id, TeamOf(s.pool[id]))
      else s.byTeam;
    Store(s.pool[id := issue], IndexAdd(cleared, id, TeamOf(issue)))
  }

  function DeleteIssue(s: Store, id: Id): Store {
    Store(s.pool - {id}, if id in s.pool then IndexRemove(s.byTeam, id, TeamOf(s.pool[id])) else s.byTeam)
  }

  function SetAll(s: Store, issues: seq<DBIssue>): Store
    decreases issues
  {
    if issues == [] then s else SetAll(SetIssue(s, issues[0]), issues[1..])
  }

  /** `issueStore.pool.delete(id)`, as two hooks do it behind the index's back. */
  function DropFromPool(s: Store, id: Id): Store { s.(pool := s.pool - {id}) }

  // ----- the index agrees with a scan ---------------------------------------------------------

  /** The index a scan of the pool would build: one non-empty bucket per team in use. */
  function ScanIndex(pool: map<Id, DBIssue>): map<Id, set<Id>> {
    map teamId | teamId in Teams(pool) :: OnTeam(pool, teamId)
  }

  function Teams(pool: map<Id, DBIssue>): set<Id> { set id | id in pool :: TeamOf(pool[id]) }

  function OnTeam(pool: map<Id, DBIssue>, teamId: Id): set<Id> { set id | id in pool && TeamOf(pool[id]) == teamId }

  predicate Exact(s: Store) { s.byTeam == ScanIndex(s.pool) }

  predicate NoEmptyBucket(byTeam: map<Id, set<Id>>) {
    forall t | t in byTeam :: byTeam[t] != {}
  }

  /** A scan lists exactly the ids on each team, and lists no empty team. */
  lemma ScanBuckets(pool: map<Id, DBIssue>)
    ensures NoEmptyBucket(ScanIndex(pool))
    ensures forall t :: Bucket(ScanIndex(pool), t) == OnTeam(pool, t)
  {
    var scan := ScanIndex(pool);
    forall t ensures Bucket(scan, t) == OnTeam(pool, t) && (t in scan ==> scan[t] != {}) {
      if t in Teams(pool) {
        var id :| id in pool && TeamOf(pool[id]) == t;
        assert id in OnTeam(pool, t);
      } else {
        assert forall id | id in pool :: TeamOf(pool[id]) in Teams(pool);
      }
    }
  }

  /** Exactness, bucket by bucket. */
  lemma ExactByBucket(s: Store)
    ensures Exact(s) <==> NoEmptyBucket(s.byTeam) && forall t :: Bucket(s.byTeam, t) == OnTeam(s.pool, t)
  {
    ScanBuckets(s.pool);
    hide ScanIndex;
    if NoEmptyBucket(s.byTeam) && forall t :: Bucket(s.byTeam, t) == OnTeam(s.pool, t) {
      BucketsDetermine(s.byTeam, ScanIndex(s.pool));
    }
  }

  lemma BucketsDetermine(a: map<Id, set<Id>>, b: map<Id, set<Id>>)
    requires NoEmptyBucket(a) && NoEmptyBucket(b)
    requires forall t :: Bucket(a, t) == Bucket(b, t)
    ensures a == b
  {
    forall t ensures Cell(a, t) == Cell(b, t) {
      assert Bucket(a, t) == Bucket(b, t);
    }
    SameCells(a, b);
  }

  /** What one write does to the pool and to each bucket. */
  lemma SetIssueBuckets(s: Store, issue: DBIssue, t: Id)
    ensures var id, s' := issue.cols.id, SetIssue(s, issue);
            && s'.pool == s.pool[id := issue]
            && (NoEmptyBucket(s.byTeam) ==> NoEmptyBucket(s'.byTeam))
            && Bucket(s'.byTeam, t) ==
               (if t == TeamOf(issue) then Bucket(s.byTeam, t) + {id}
                else if id in s.pool && t == TeamOf(s.pool[id]) then Bucket(s.byTeam, t) - {id}
                else Bucket(s.byTeam, t))
  {
  }

  lemma DeleteIssueBuckets(s: Store, id: Id, t: Id)
    ensures var s' := DeleteIssue(s, id);
            && s'.pool == s.pool - {id}
            && (NoEmptyBucket(s.byTeam) ==> NoEmptyBucket(s'.byTeam))
            && Bucket(s'.byTeam, t) ==
               if id in s.pool && t == TeamOf(s.pool[id]) then Bucket(s.byTeam, t) - {id} else Bucket(s.byTeam, t)
  {
  }

  lemma SetIssueKeepsIndex(s: Store, issue: DBIssue)
    requires Exact(s)
    ensures Exact(SetIssue(s, issue))
  {
    ExactByBucket(s);
    ExactByBucket(SetIssue(s, issue));
    hide Exact;
    forall t ensures Bucket(SetIssue(s, issue).byTeam, t) == OnTeam(SetIssue(s, issue).pool, t) {
      SetIssueBuckets(s, issue, t);
    }
    SetIssueBuckets(s, issue, TeamOf(issue));
  }

  lemma DeleteIssueKeepsIndex(s: Store, id: Id)
    requires Exact(s)
    ensures Exact(DeleteIssue(s, id))
  {
    ExactByBucket(s);
    ExactByBucket(DeleteIssue(s, id));
    hide Exact;
    forall t ensures Bucket(DeleteIssue(s, id).byTeam, t) == OnTeam(DeleteIssue(s, id).pool, t) {
      DeleteIssueBuckets(s, id, t);
    }
    DeleteIssueBuckets(s, id, "");
  }

  lemma {:induction false} SetAllKeepsIndex(s: Store, issues: seq<DBIssue>)
    requires Exact(s)
    ensures Exact(SetAll(s, issues))
    decreases issues
  {
    hide Exact, SetIssue;
    if issues != [] {
      SetIssueKeepsIndex(s, issues[0]);
      SetAllKeepsIndex(SetIssue(s, issues[0]), issues[1..]);
    }
  }

  /** Everything the store's own methods can do to it, one write at a time. */
  datatype Op = Put(issue: DBIssue) | Bulk(issues: seq<DBIssue>) | Remove(id: Id)

  function Do(s: Store, op: Op): Store {
    match op
    case Put(issue) => SetIssue(s, issue)
    case Bulk(issues) => SetAll(s, issues)
    case Remove(id) => DeleteIssue(s, id)
  }

  function Run(s: Store, ops: seq<Op>): Store
    decreases ops
  {
    if ops == [] then s else Run(Do(s, ops[0]), ops[1..])
  }

  /** After any run of the store's own operations the index is the index a scan would build. */
  lemma {:induction false} IndexAgreesWithScan(s: Store, ops: seq<Op>)
    requires Exact(s)
    ensures Exact(Run(s, ops))
    decreases ops
  {
    hide Exact, SetIssue, SetAll, DeleteIssue;
    if ops != [] {
      match ops[0] {
        case Put(issue) => SetIssueKeepsIndex(s, issue);
        case Bulk(issues) => SetAllKeepsIndex(s, issues);
        case Remove(id) => DeleteIssueKeepsIndex(s, id);
      }
      IndexAgreesWithScan(Do(s, ops[0]), ops[1..]);
    }
  }

  lemma {:induction false} RunAppends(s: Store, ops: seq<Op>, op: Op)
    ensures Run(s, []) == s && Run(s, ops + [op]) == Do(Run(s, ops), op)
    decreases ops
  {
    hide Do;
    if ops == [] {
      assert [] + [op] == [op] && [op][1..] == [];
    } else {
      assert (ops + [op])[1..] == ops[1..] + [op];
      RunAppends(Do(s, ops[0]), ops[1..], op);
    }
  }

  // ----- lookup -------------------------------------------------------------------------------

  predicate Active(issue: DBIssue) { !issue.cols.trashed && !issue.cols.archived }

  /** The ids `findByTeamId` visits and keeps. */
  function Listed(s: Store, teamId: Id): set<Id> {
    set id | id in Bucket(s.byTeam, teamId) && id in s.pool && Active(s.pool[id])
  }

  /** The answer of a plain filter over the pool. */
  function Scanned(pool: map<Id, DBIssue>, teamId: Id): set<Id> {
    set id | id in pool && TeamOf(pool[id]) == teamId && Active(pool[id])
  }

  /** The index may list ids that are gone, but never files a present one under another team. */
  ghost predicate Loose(s: Store) {
    && (forall id | id in s.pool :: id in Bucket(s.byTeam, TeamOf(s.pool[id])))
    && (forall t, id | id in Bucket(s.byTeam, t) && id in s.pool :: TeamOf(s.pool[id]) == t)
  }

  lemma ExactIsLoose(s: Store)
    requires Exact(s)
    ensures Loose(s)
  {
  }

  /** The weaker form is all a lookup needs. */
  lemma LooseLookup(s: Store, teamId: Id)
    requires Loose(s)
    ensures Listed(s, teamId) == Scanned(s.pool, teamId)
  {
  }

  /** Deleting behind the index keeps the weaker form. */
  lemma DropKeepsLoose(s: Store, id: Id)
    requires Loose(s)
    ensures Loose(DropFromPool(s, id))
  {
  }

  lemma DeleteKeepsLoose(s: Store, id: Id)
    requires Loose(s)
    ensures Loose(DeleteIssue(s, id))
  {
    forall t ensures Bucket(DeleteIssue(s, id).byTeam, t) ==
                     if id in s.pool && t == TeamOf(s.pool[id]) then Bucket(s.byTeam, t) - {id} else Bucket(s.byTeam, t)
    {
      DeleteIssueBuckets(s, id, t);
    }
    hide IndexRemove, Bucket;
  }

  /** The id is in the pool, or listed under no team but the issue's own. */
  ghost predicate KeepsTeam(s: Store, issue: DBIssue) {
    issue.cols.id in s.pool || forall t | issue.cols.id in Bucket(s.byTeam, t) :: t == TeamOf(issue)
  }

  /**
   * Writing an issue keeps the weaker form exactly when its id is in the pool or is listed under
   * no team but its own: an id dropped behind the index must come back on the team it had.
   */
  lemma SetIssueKeepsLooseExactly(s: Store, issue: DBIssue)
    requires Loose(s)
    ensures Loose(SetIssue(s, issue)) <==> KeepsTeam(s, issue)
  {
    var id, s' := issue.cols.id, SetIssue(s, issue);
    forall t ensures Bucket(s'.byTeam, t) ==
                     if t == TeamOf(issue) then Bucket(s.byTeam, t) + {id}
                     else if id in s.pool && t == TeamOf(s.pool[id]) then Bucket(s.byTeam, t) - {id}
                     else Bucket(s.byTeam, t)
    {
      SetIssueBuckets(s, issue, t);
    }
    assert s'.pool == s.pool[id := issue];
    hide SetIssue, Bucket;
    if id !in s.pool && Loose(s') {
      forall t | id in Bucket(s.byTeam, t) ensures t == TeamOf(issue) {
        assert t != TeamOf(issue) ==> Bucket(s'.byTeam, t) == Bucket(s.byTeam, t);
        assert id in Bucket(s'.byTeam, t) && id in s'.pool && s'.pool[id] == issue;
      }
    }
  }

  /** Every lookup equals a filter over the pool. */
  ghost predicate LookupsRight(s: Store) {
    forall t :: Listed(s, t) == Scanned(s.pool, t)
  }

  /**
   * After a write every lookup is right exactly if the id kept its team or the issue is not shown
   * anyway: a trashed or archived one is in no list.
   */
  lemma SetIssueLookupsExactly(s: Store, issue: DBIssue)
    requires Loose(s)
    ensures LookupsRight(SetIssue(s, issue)) <==> KeepsTeam(s, issue) || !Active(issue)
  {
    var id, s' := issue.cols.id, SetIssue(s, issue);
    if KeepsTeam(s, issue) {
      SetIssueKeepsLooseExactly(s, issue);
      forall t { LooseLookup(s', t); }
    } else if Active(issue) {
      var t :| id in Bucket(s.byTeam, t) && t != TeamOf(issue);
      MovedGhostIsListedTwice(s, issue, t);
    } else {
      forall t ensures Listed(s', t) == Scanned(s'.pool, t) {
        SetIssueBuckets(s, issue, t);
      }
    }
  }

  /** When the condition fails, the old team's list shows an issue that is not on it. */
  lemma MovedGhostIsListedTwice(s: Store, issue: DBIssue, t: Id)
    requires Loose(s) && issue.cols.id !in s.pool && Active(issue)
    requires issue.cols.id in Bucket(s.byTeam, t) && t != TeamOf(issue)
    ensures issue.cols.id in Listed(SetIssue(s, issue), t) - Scanned(SetIssue(s, issue).pool, t)
  {
  }

  /** The store's own operations, and deletions behind the index. */
  datatype AnyOp = Own(op: Op) | Drop(id: Id)

  function DoAny(s: Store, o: AnyOp): Store {
    match o
    case Own(op) => Do(s, op)
    case Drop(id) => DropFromPool(s, id)
  }

  function RunAny(s: Store, ops: seq<AnyOp>): Store
    decreases ops
  {
    if ops == [] then s else RunAny(DoAny(s, ops[0]), ops[1..])
  }

  ghost predicate AllKeepTeam(s: Store, issues: seq<DBIssue>)
    decreases issues
  {
    issues == [] || (KeepsTeam(s, issues[0]) && AllKeepTeam(SetIssue(s, issues[0]), issues[1..]))
  }

  /** Along a run, ids that come back keep the team they had. */
  ghost predicate RunKeepsTeams(s: Store, ops: seq<AnyOp>)
    decreases ops
  {
    ops != [] ==>
      && (ops[0].Own? && ops[0].op.Put? ==> KeepsTeam(s, ops[0].op.issue))
      && (ops[0].Own? && ops[0].op.Bulk? ==> AllKeepTeam(s, ops[0].op.issues))
      && RunKeepsTeams(DoAny(s, ops[0]), ops[1..])
  }

  lemma {:induction false} SetAllKeepsLoose(s: Store, issues: seq<DBIssue>)
    requires Loose(s) && AllKeepTeam(s, issues)
    ensures Loose(SetAll(s, issues))
    decreases issues
  {
    hide Loose, SetIssue, KeepsTeam;
    if issues != [] {
      SetIssueKeepsLooseExactly(s, issues[0]);
      SetAllKeepsLoose(SetIssue(s, issues[0]), issues[1..]);
    }
  }

  /** A run is one operation after the other. */
  lemma {:induction false} RunAnyAppends(s: Store, ops: seq<AnyOp>, o: AnyOp)
    ensures RunAny(s, []) == s && RunAny(s, ops + [o]) == DoAny(RunAny(s, ops), o)
    decreases ops
  {
    hide DoAny;
    if ops == [] {
      assert [] + [o] == [o] && [o][1..] == [];
    } else {
      assert (ops + [o])[1..] == ops[1..] + [o];
      RunAnyAppends(DoAny(s, ops[0]), ops[1..], o);
    }
  }

  /** Then every lookup stays right, however many issues are deleted behind the index. */
  lemma {:induction false} LookupStaysRight(s: Store, ops: seq<AnyOp>, teamId: Id)
    requires Loose(s) && RunKeepsTeams(s, ops)
    ensures Loose(RunAny(s, ops))
    ensures Listed(RunAny(s, ops), teamId) == Scanned(RunAny(s, ops).pool, teamId)
    decreases ops
  {
    if ops == [] {
      LooseLookup(s, teamId);
    } else {
      hide Loose, SetIssue, SetAll, DeleteIssue, KeepsTeam, AllKeepTeam, Listed, Scanned, DropFromPool;
      match ops[0] {
        case Own(Put(issue)) => SetIssueKeepsLooseExactly(s, issue);
        case Own(Bulk(issues)) => SetAllKeepsLoose(s, issues);
        case Own(Remove(id)) => DeleteKeepsLoose(s, id);
        case Drop(id) => DropKeepsLoose(s, id);
      }
      LookupStaysRight(DoAny(s, ops[0]), ops[1..], teamId);
    }
  }

  /** In columns: a team's lookup lists what is on the team and neither trashed nor archived. */
  lemma LookupInColumns(s: Store, ops: seq<AnyOp>, teamId: Id, id: Id)
    requires Loose(s) && RunKeepsTeams(s, ops)
    ensures var pool := RunAny(s, ops).pool;
            id in Listed(RunAny(s, ops), teamId) <==>
              id in pool && pool[id].cols.teamId == teamId && !pool[id].cols.trashed && !pool[id].cols.archived
  {
    LookupStaysRight(s, ops, teamId);
  }

  // ----- bulk write ---------------------------------------------------------------------------

  /** Teams whose bucket differs between two indexes. */
  function Differing(a: map<Id, set<Id>>, b: map<Id, set<Id>>): set<Id> {
    set t | t in a.Keys + b.Keys && Bucket(a, t) != Bucket(b, t)
  }

  /** Teams that gained or lost an id at some point of a run of single writes. */
  function Churn(s: Store, issues: seq<DBIssue>): set<Id>
    decreases issues
  {
    if issues == [] then {}
    else
      var s' := SetIssue(s, issues[0]);
      Differing(s.byTeam, s'.byTeam) + Churn(s', issues[1..])
  }

  lemma {:induction false} SetAllSnoc(s: Store, issues: seq<DBIssue>, issue: DBIssue)
    ensures SetAll(s, issues + [issue]) == SetIssue(SetAll(s, issues), issue)
    ensures Churn(s, issues + [issue]) ==
            Churn(s, issues) + Differing(SetAll(s, issues).byTeam, SetIssue(SetAll(s, issues), issue).byTeam)
    decreases issues
  {
    hide SetIssue, Differing;
    if issues == [] {
      assert issues + [issue] == [issue] && [issue][1..] == [];
    } else {
      assert (issues + [issue])[1..] == issues[1..] + [issue];
      SetAllSnoc(SetIssue(s, issues[0]), issues[1..], issue);
    }
  }

  /** The buckets being rebuilt and the teams to commit, against the single writes so far. */
  ghost predicate Rebuilding(s: Store, now: Store, churn: set<Id>, touched: map<Id, set<Id>>, changed: set<Id>) {
    && NoEmptyBucket(now.byTeam)
    && changed == churn
    && changed <= touched.Keys
    && (forall t | t in touched :: touched[t] == Bucket(now.byTeam, t))
    && (forall t | t !in changed :: Bucket(now.byTeam, t) == Bucket(s.byTeam, t))
  }

  /** The working copy of a bucket. */
  function Working(byTeam: map<Id, set<Id>>, touched: map<Id, set<Id>>, t: Id): set<Id> {
    if t in touched then touched[t] else Bucket(byTeam, t)
  }

  /** The working copies after the loop body has handled one issue. */
  ghost predicate BodyDid(s: Store, pool: map<Id, DBIssue>, issue: DBIssue, touched: map<Id, set<Id>>, changed: set<Id>,
                          touched2: map<Id, set<Id>>, changed2: set<Id>) {
    var id, team := issue.cols.id, TeamOf(issue);
    var moved := id in pool && TeamOf(pool[id]) != team;
    var left := if moved then TeamOf(pool[id]) else team;
    var touched1 := if moved then touched[left := Working(s.byTeam, touched, left) - {id}] else touched;
    var changed1 := if moved && id in Working(s.byTeam, touched, left) then changed + {left} else changed;
    && touched2 == touched1[team := Working(s.byTeam, touched1, team) + {id}]
    && changed2 == if id !in Working(s.byTeam, touched1, team) then changed1 + {team} else changed1
  }

  lemma RebuildBucket(s: Store, now: Store, churn: set<Id>, touched: map<Id, set<Id>>, changed: set<Id>, issue: DBIssue,
                      touched2: map<Id, set<Id>>, changed2: set<Id>, t: Id)
    requires Rebuilding(s, now, churn, touched, changed)
    requires BodyDid(s, now.pool, issue, touched, changed, touched2, changed2)
    ensures var next := SetIssue(now, issue);
            && (t in touched2 ==> touched2[t] == Bucket(next.byTeam, t))
            && (t in changed2 <==> t in churn || Bucket(next.byTeam, t) != Bucket(now.byTeam, t))
            && (t in changed2 ==> t in touched2)
            && (t !in changed2 ==> Bucket(next.byTeam, t) == Bucket(s.byTeam, t))
  {
    SetIssueBuckets(now, issue, t);
    hide SetIssue, Bucket;
    assert Working(s.byTeam, touched, t) == Bucket(now.byTeam, t);
    assert Working(s.byTeam, touched, TeamOf(issue)) == Bucket(now.byTeam, TeamOf(issue));
    var id := issue.cols.id;
    if id in now.pool {
      assert Working(s.byTeam, touched, TeamOf(now.pool[id])) == Bucket(now.byTeam, TeamOf(now.pool[id]));
    }
  }

  lemma RebuildStep(s: Store, now: Store, churn: set<Id>, touched: map<Id, set<Id>>, changed: set<Id>, issue: DBIssue,
                    touched2: map<Id, set<Id>>, changed2: set<Id>)
    requires Rebuilding(s, now, churn, touched, changed)
    requires BodyDid(s, now.pool, issue, touched, changed, touched2, changed2)
    ensures var next := SetIssue(now, issue);
            Rebuilding(s, next, churn + Differing(now.byTeam, next.byTeam), touched2, changed2)
  {
    var next := SetIssue(now, issue);
    SetIssueBuckets(now, issue, TeamOf(issue));
    forall t
      ensures t in touched2 ==> touched2[t] == Bucket(next.byTeam, t)
      ensures t in changed2 <==> t in churn + Differing(now.byTeam, next.byTeam)
      ensures t in changed2 ==> t in touched2
      ensures t !in changed2 ==> Bucket(next.byTeam, t) == Bucket(s.byTeam, t)
    {
      RebuildBucket(s, now, churn, touched, changed, issue, touched2, changed2, t);
      hide SetIssue, BodyDid;
    }
    hide SetIssue, BodyDid, Differing, Bucket;
  }

  /** One turn of the bulk loop, as the loop sees it. */
  lemma BulkStep(s: Store, issues: seq<DBIssue>, i: nat, touched: map<Id, set<Id>>, changed: set<Id>,
                 touched2: map<Id, set<Id>>, changed2: set<Id>)
    requires i < |issues|
    requires Rebuilding(s, SetAll(s, issues[..i]), Churn(s, issues[..i]), touched, changed)
    requires BodyDid(s, SetAll(s, issues[..i]).pool, issues[i], touched, changed, touched2, changed2)
    ensures SetAll(s, issues[..i + 1]).pool == SetAll(s, issues[..i]).pool[issues[i].cols.id := issues[i]]
    ensures Rebuilding(s, SetAll(s, issues[..i + 1]), Churn(s, issues[..i + 1]), touched2, changed2)
  {
    assert issues[..i + 1] == issues[..i] + [issues[i]];
    SetAllSnoc(s, issues[..i], issues[i]);
    var now := SetAll(s, issues[..i]);
    SetIssueBuckets(now, issues[i], "");
    RebuildStep(s, now, Churn(s, issues[..i]), touched, changed, issues[i], touched2, changed2);
    hide SetIssue, SetAll, Churn, Differing, Rebuilding, BodyDid;
  }

  // ----- sync actions -------------------------------------------------------------------------

  /** The trailing ellipsis of a placeholder's identifier. */
  predicate IsOptimistic(identifier: string) { identifier != "" && identifier[|identifier| - 1] == '\U{2026}' }

  /** Rows that came from the server; placeholders are the client's own. */
  function ServerRows(pool: map<Id, DBIssue>): map<Id, DBIssue> {
    map id | id in pool && !IsOptimistic(pool[id].cols.identifier) :: pool[id]
  }

  predicate PlaceholderFor(pool: map<Id, DBIssue>, id: Id, row: DBIssue, p: Id) {
    && p in pool && p != id
    && IsOptimistic(pool[p].cols.identifier)
    && pool[p].cols.title == row.cols.title
    && pool[p].cols.teamId == row.cols.teamId
  }

  /** The store and the order of its pool, a key staying where it was first inserted. */
  datatype Catalog = Catalog(store: Store, order: seq<Id>)

  const EMPTY_CATALOG := Catalog(EMPTY_STORE, [])

  function PutIssue(c: Catalog, issue: DBIssue): Catalog {
    Catalog(SetIssue(c.store, issue), WithKey(c.order, issue.cols.id))
  }

  function TakeIssue(c: Catalog, id: Id): Catalog { Catalog(DeleteIssue(c.store, id), WithoutKey(c.order, id)) }

  /** The order lists the pool's keys, once each. */
  ghost predicate KeysOf(order: seq<Id>, pool: map<Id, DBIssue>) {
    Distinct(order) && forall id :: id in order <==> id in pool
  }

  lemma OrderNext(order: seq<Id>, issues: seq<DBIssue>, i: nat)
    requires i < |issues|
    ensures OrderAfter(order, issues[..i + 1]) == WithKey(OrderAfter(order, issues[..i]), issues[i].cols.id)
  {
    assert issues[..i + 1][..i] == issues[..i];
  }

  /** The order after a bulk write. */
  function OrderAfter(order: seq<Id>, issues: seq<DBIssue>): seq<Id> {
    if issues == [] then order
    else
      var n := |issues| - 1;
      WithKey(OrderAfter(order, issues[..n]), issues[n].cols.id)
  }

  lemma {:induction false} UpsertKeepsKeys(s: Store, order: seq<Id>, issues: seq<DBIssue>)
    requires KeysOf(order, s.pool)
    ensures KeysOf(OrderAfter(order, issues), SetAll(s, issues).pool)
  {
    if issues != [] {
      var n := |issues| - 1;
      UpsertKeepsKeys(s, order, issues[..n]);
      assert issues == issues[..n] + [issues[n]];
      SetAllSnoc(s, issues[..n], issues[n]);
      hide SetAll, Distinct;
    }
  }

  /** The first placeholder, in the order of the pool, that a new row takes the place of. */
  function FirstPlaceholder(pool: map<Id, DBIssue>, order: seq<Id>, id: Id, row: DBIssue): Option<Id> {
    if order == [] then None
    else if PlaceholderFor(pool, id, row, order[0]) then Some(order[0])
    else FirstPlaceholder(pool, order[1..], id, row)
  }

  /** One sync action: an insert also takes the place of the first matching placeholder. */
  function SyncIssue(c: Catalog, verb: Verb, id: Id, data: Option<IssueSyncRow>): Catalog {
    if verb.Delete? then TakeIssue(c, id)
    else if data.None? then c
    else
      var row := NormalizeIssueRow(data.value, LabelsOf(Cell(c.store.pool, id)));
      var p := FirstPlaceholder(c.store.pool, c.order, id, row);
      PutIssue(if verb.Insert? && !IsOptimistic(row.cols.identifier) && p.Some? then TakeIssue(c, p.value) else c, row)
  }

  lemma {:induction false} FirstPlaceholderIs(pool: map<Id, DBIssue>, order: seq<Id>, id: Id, row: DBIssue)
    ensures var p := FirstPlaceholder(pool, order, id, row);
            if p.None? then forall x | x in order :: !PlaceholderFor(pool, id, row, x)
            else PlaceholderFor(pool, id, row, p.value)
  {
    if order != [] {
      FirstPlaceholderIs(pool, order[1..], id, row);
    }
  }

  /** Whatever arrives, the order goes on listing the keys of the pool, and new ones come last. */
  lemma SyncKeepsOrder(c: Catalog, verb: Verb, data: IssueSyncRow)
    requires KeysOf(c.order, c.store.pool)
    ensures var (id, c') := (data.cols.id, SyncIssue(c, verb, data.cols.id, Some(data)));
            && KeysOf(c'.order, c'.store.pool)
            && (!verb.Delete? && id !in c.order ==> c'.order != [] && c'.order[|c'.order| - 1] == id)
  {
    hide Distinct, PlaceholderFor, FirstPlaceholder, IsOptimistic, IndexAdd, IndexRemove;
  }

  /** The client's own stand-in for a row that has just come under another id: same title, same team, "ENG-…". */
  ghost predicate StandsIn(pool: map<Id, DBIssue>, p: Id, row: IssueSyncRow) {
    && p in pool && p != row.cols.id
    && EndsWithEllipsis(pool[p].cols.identifier)
    && pool[p].cols.title == row.cols.title && pool[p].cols.teamId == row.cols.teamId
  }

  predicate EndsWithEllipsis(text: string) { |text| > 0 && text[|text| - 1] == '\U{2026}' }

  lemma {:induction false} FirstStandIn(pool: map<Id, DBIssue>, order: seq<Id>, data: IssueSyncRow, row: DBIssue)
    requires row.cols == data.cols
    ensures var p := FirstPlaceholder(pool, order, row.cols.id, row);
            if p.None? then forall x | x in order :: !StandsIn(pool, x, data)
            else exists i :: 0 <= i < |order| && order[i] == p.value && StandsIn(pool, p.value, data)
                             && forall j | 0 <= j < i :: !StandsIn(pool, order[j], data)
  {
    if order != [] && !PlaceholderFor(pool, row.cols.id, row, order[0]) {
      FirstStandIn(pool, order[1..], data, row);
      var p := FirstPlaceholder(pool, order, row.cols.id, row);
      if p.Some? {
        var i :| 0 <= i < |order[1..]| && order[1..][i] == p.value && StandsIn(pool, p.value, data)
                 && forall j | 0 <= j < i :: !StandsIn(pool, order[1..][j], data);
        assert order[i + 1] == p.value;
        assert forall j | 0 < j < i + 1 :: order[j] == order[1..][j - 1];
      }
    }
  }

  /**
   * What a row does to the pool: it is there under its id, an inserted server row takes the place of
   * the first stand-in, and nothing else changes.
   */
  lemma SyncedPool(c: Catalog, verb: Verb, data: IssueSyncRow)
    requires !verb.Delete?
    ensures var (id, was, now) := (data.cols.id, c.store.pool, SyncIssue(c, verb, data.cols.id, Some(data)).store.pool);
            var takes := verb.Insert? && !EndsWithEllipsis(data.cols.identifier);
            && id in now && now[id].cols == data.cols
            && (forall k | k in now && k != id :: k in was && was[k] == now[k])
            && (forall k | k in was && k !in now :: takes && StandsIn(was, k, data))
            && (forall k, l | k in was && k !in now && l in was && l !in now :: k == l)
            && (forall i | takes && 0 <= i < |c.order| && StandsIn(was, c.order[i], data) ::
                  (forall j | 0 <= j < i :: !StandsIn(was, c.order[j], data)) ==> c.order[i] !in now)
  {
    var row := NormalizeIssueRow(data, LabelsOf(Cell(c.store.pool, data.cols.id)));
    FirstStandIn(c.store.pool, c.order, data, row);
    hide IndexAdd, IndexRemove, FirstPlaceholder, NormalizeIssueRow, StandsIn;
    assert row.cols == data.cols by { NormalizedColumns(data, LabelsOf(Cell(c.store.pool, data.cols.id))); }
  }

  lemma NormalizedColumns(data: IssueSyncRow, previous: Option<seq<Id>>)
    ensures NormalizeIssueRow(data, previous).cols == data.cols
  {
  }

  /** The ids of server actions and the ids of placeholders are different. */
  predicate NoPlaceholderAt(pool: map<Id, DBIssue>, id: Id) {
    id in pool ==> !IsOptimistic(pool[id].cols.identifier)
  }

  /**
   * On the server rows a sync action is exactly the replica's issue step, whatever placeholder goes;
   * no placeholder is added or changed.
   */
  lemma SyncedServerRows(c: Catalog, verb: Verb, id: Id, data: Option<IssueSyncRow>, values: Option<seq<Value>>)
    requires NoPlaceholderAt(c.store.pool, id)
    requires data.Some? ==> data.value.cols.id == id && !IsOptimistic(data.value.cols.identifier)
    ensures var (was, now) := (c.store.pool, SyncIssue(c, verb, id, data).store.pool);
            && ServerRows(now) == ApplyIssues(ServerRows(was), IssueChange(verb, id, Some(IssueData(data, values))))
            && forall k | k in now && IsOptimistic(now[k].cols.identifier) :: k in was && was[k] == now[k]
  {
    hide IndexAdd, IndexRemove;
    var pool := c.store.pool;
    if verb.Delete? {
      assert ServerRows(pool - {id}) == ServerRows(pool) - {id};
    } else if data.Some? {
      var row := NormalizeIssueRow(data.value, LabelsOf(Cell(pool, id)));
      assert LabelsOf(Cell(pool, id)) == LabelsOf(Cell(ServerRows(pool), id));
      FirstPlaceholderIs(pool, c.order, id, row);
      var p := FirstPlaceholder(pool, c.order, id, row);
      ServerRowsAfterPut(pool, row);
      if verb.Insert? && p.Some? {
        ServerRowsAfterDrop(pool, p.value);
        ServerRowsAfterPut(pool - {p.value}, row);
      }
      hide ServerRows, FirstPlaceholder;
    }
  }

  lemma ServerRowsAfterPut(pool: map<Id, DBIssue>, row: DBIssue)
    requires !IsOptimistic(row.cols.identifier)
    ensures ServerRows(pool[row.cols.id := row]) == ServerRows(pool)[row.cols.id := row]
  {
  }

  lemma ServerRowsAfterDrop(pool: map<Id, DBIssue>, p: Id)
    requires p in pool && IsOptimistic(pool[p].cols.identifier)
    ensures ServerRows(pool - {p}) == ServerRows(pool)
  {
  }

  // ----- the store ----------------------------------------------------------------------------

  class IssueStore {
    var pool: map<Id, DBIssue>
    var byTeam: map<Id, set<Id>>
    /** The keys of `pool`, in order. */
    var order: seq<Id>

    function State(): Store
      reads this
    {
      Store(pool, byTeam)
    }

    function Listing(): Catalog
      reads this
    {
      Catalog(State(), order)
    }

    ghost predicate Valid()
      reads this
    {
      KeysOf(order, pool)
    }

    constructor ()
      ensures Valid() && Listing() == EMPTY_CATALOG
    {
      pool, byTeam, order := map[], map[], [];
    }

    method Clear()
      modifies this
      ensures Valid() && Listing() == EMPTY_CATALOG
    {
      pool, byTeam, order := map[], map[], [];
    }

    method IndexAddTo(id: Id, teamId: Id)
      modifies this`byTeam
      ensures byTeam == IndexAdd(old(byTeam), id, teamId)
    {
      if teamId in byTeam && id in byTeam[teamId] {
        return;
      }
      var next := if teamId in byTeam then byTeam[teamId] else {};
      next := next + {id};
      byTeam := byTeam[teamId := next];
    }

    method IndexRemoveFrom(id: Id, teamId: Id)
      modifies this`byTeam
      ensures byTeam == IndexRemove(old(byTeam), id, teamId)
    {
      if teamId !in byTeam || id !in byTeam[teamId] {
        return;
      }
      var next := byTeam[teamId] - {id};
      if |next| == 0 {
        byTeam := byTeam - {teamId};
      } else {
        byTeam := byTeam[teamId := next];
      }
    }

    method Set(issue: DBIssue)
      requires Valid()
      modifies this
      ensures Valid() && Listing() == PutIssue(old(Listing()), issue)
    {
      hide Distinct, WithKey;
      var id := issue.cols.id;
      if id in pool && pool[id].cols.teamId != issue.cols.teamId {
        IndexRemoveFrom(id, pool[id].cols.teamId);
      }
      pool, order := pool[id := issue], WithKey(order, id);
      IndexAddTo(id, issue.cols.teamId);
    }

    method Delete(id: Id)
      requires Valid()
      modifies this
      ensures Valid() && Listing() == TakeIssue(old(Listing()), id)
    {
      hide Distinct, WithoutKey;
      var prev := Cell(pool, id);
      pool, order := pool - {id}, WithoutKey(order, id);
      if prev.Some? {
        IndexRemoveFrom(id, prev.value.cols.teamId);
      }
    }

    /** A patch of an existing issue; `patch` stands for the fields it overrides. */
    method OptimisticUpdate(id: Id, patch: DBIssue -> DBIssue)
      requires Valid()
      modifies this
      ensures Valid()
      ensures Listing() == if id in old(pool) then PutIssue(old(Listing()), patch(old(pool)[id])) else old(Listing())
    {
      if id in pool {
        Set(patch(pool[id]));
      }
    }

    /**
     * Bulk upsert. The result is the fold of single writes, and `swapped`, the teams whose bucket
     * is replaced, are exactly those that gained or lost an id on the way.
     */
    method UpsertMany(issues: seq<DBIssue>) returns (swapped: set<Id>)
      requires Valid() && NoEmptyBucket(byTeam)
      modifies this
      ensures Valid() && State() == SetAll(old(State()), issues) && order == OrderAfter(old(order), issues)
      ensures swapped == Churn(old(State()), issues)
    {
      UpsertKeepsKeys(State(), order, issues);
      hide SetAll, Churn, KeysOf, OrderAfter;
      swapped := UpsertRows(issues);
      UpsertKeys(issues);
    }

    /** The keys the pool takes up on the way. */
    method UpsertKeys(issues: seq<DBIssue>)
      modifies this`order
      ensures order == OrderAfter(old(order), issues)
    {
      for i := 0 to |issues|
        invariant order == OrderAfter(old(order), issues[..i])
      {
        OrderNext(old(order), issues, i);
        order := WithKey(order, issues[i].cols.id);
      }
      assert issues[..|issues|] == issues;
    }

    /** The loop over the rows: the pool at once, the buckets in working copies. */
    method UpsertRows(issues: seq<DBIssue>) returns (swapped: set<Id>)
      requires NoEmptyBucket(byTeam)
      modifies this`pool, this`byTeam
      ensures State() == SetAll(old(State()), issues)
      ensures swapped == Churn(old(State()), issues)
    {
      var touched: map<Id, set<Id>> := map[];
      var changed: set<Id> := {};
      ghost var s := State();
      var i := 0;
      assert issues[..0] == [];
      assert SetAll(s, []) == s && Churn(s, []) == {} && Rebuilding(s, s, {}, touched, changed);
      hide SetIssue, SetAll, Churn, Differing, Rebuilding, Bucket;
      while i < |issues|
        invariant 0 <= i <= |issues|
        invariant byTeam == s.byTeam
        invariant pool == SetAll(s, issues[..i]).pool
        invariant Rebuilding(s, SetAll(s, issues[..i]), Churn(s, issues[..i]), touched, changed)
      {
        var issue := issues[i];
        var id, team := issue.cols.id, issue.cols.teamId;
        var touched1, changed1 := touched, changed;
        if id in pool && pool[id].cols.teamId != team {
          var left := pool[id].cols.teamId;
          var b := Working(byTeam, touched, left);
          if id in b {
            changed1 := changed + {left};
          }
          touched1 := touched[left := b - {id}];
        }
        var b := Working(byTeam, touched1, team);
        var touched2, changed2 := touched1[team := b + {id}], changed1;
        if id !in b {
          changed2 := changed1 + {team};
        }
        BulkStep(s, issues, i, touched, changed, touched2, changed2);
        pool := pool[id := issue];
        touched, changed := touched2, changed2;
        i := i + 1;
      }
      assert issues[..i] == issues;
      swapped := changed;
      Commit(touched, changed, SetAll(s, issues));
    }

    /** Replace the changed buckets; `target` is the index they were rebuilt towards. */
    method Commit(touched: map<Id, set<Id>>, changed: set<Id>, ghost target: Store)
      requires NoEmptyBucket(byTeam)
      requires Rebuilding(State(), target, changed, touched, changed)
      modifies this`byTeam
      ensures byTeam == target.byTeam
    {
      var pending := changed;
      ghost var before := byTeam;
      while pending != {}
        invariant pending <= changed
        invariant NoEmptyBucket(byTeam)
        invariant forall t ::
                  Bucket(byTeam, t) == Bucket(if t in changed && t !in pending then target.byTeam else before, t)
        decreases pending
      {
        var teamId :| teamId in pending;
        pending := pending - {teamId};
        var ids := touched[teamId];
        if |ids| == 0 {
          byTeam := byTeam - {teamId};
        } else {
          byTeam := byTeam[teamId := ids];
        }
      }
      BucketsDetermine(byTeam, target.byTeam);
    }

    /** The active issues of a team, each once. */
    method FindByTeamId(teamId: Id) returns (result: seq<DBIssue>)
      requires forall id | id in pool :: pool[id].cols.id == id
      ensures forall issue ::
                issue in result <==> issue.cols.id in Listed(State(), teamId) && issue == pool[issue.cols.id]
      ensures forall i, j | 0 <= i < j < |result| :: result[i].cols.id != result[j].cols.id
      ensures Loose(State()) ==>
                forall issue :: issue in result <==>
                  && issue.cols.id in pool && pool[issue.cols.id] == issue
                  && issue.cols.teamId == teamId && !issue.cols.trashed && !issue.cols.archived
    {
      result := [];
      if teamId !in byTeam {
        return;
      }
      var pending := byTeam[teamId];
      while pending != {}
        invariant pending <= byTeam[teamId]
        invariant forall issue :: issue in result <==>
                    issue.cols.id in Listed(State(), teamId) && issue.cols.id !in pending
                        && issue == pool[issue.cols.id]
        invariant forall i, j | 0 <= i < j < |result| :: result[i].cols.id != result[j].cols.id
        decreases pending
      {
        var id :| id in pending;
        pending := pending - {id};
        if id in pool && !pool[id].cols.trashed && !pool[id].cols.archived {
          result := result + [pool[id]];
        }
      }
    }

    method ApplySyncAction(verb: Verb, id: Id, data: Option<IssueSyncRow>)
      requires Valid()
      modifies this
      ensures Valid() && Listing() == SyncIssue(old(Listing()), verb, id, data)
    {
      hide Distinct, SetIssue, DeleteIssue;
      if !verb.Delete? {
        if data.Some? {
          var row := NormalizeIssueRow(data.value, LabelsOf(Cell(pool, id)));
          if verb.Insert? && !IsOptimistic(row.cols.identifier) {
            DropPlaceholder(id, row);
          }
          Set(row);
        }
      } else {
        Delete(id);
      }
    }

    /** Delete the first placeholder the row takes the place of, if there is one. */
    method DropPlaceholder(id: Id, row: DBIssue)
      requires Valid()
      modifies this
      ensures Valid()
      ensures var p := FirstPlaceholder(old(pool), old(order), id, row);
              Listing() == if p.Some? then TakeIssue(old(Listing()), p.value) else old(Listing())
    {
      hide Distinct, DeleteIssue, WithoutKey;
      var keys := order;
      assert keys[0..] == keys;
      for i := 0 to |keys|
        invariant Valid() && Listing() == old(Listing()) && order == keys
        invariant FirstPlaceholder(pool, keys[i..], id, row) == FirstPlaceholder(pool, keys, id, row)
      {
        var existing := keys[i];
        assert existing in order && keys[i..][1..] == keys[i + 1..];
        if existing != id && IsOptimistic(pool[existing].cols.identifier)
           && pool[existing].cols.title == row.cols.title && pool[existing].cols.teamId == row.cols.teamId {
          Delete(existing);
          return;
        }
      }
    }
  }
}
