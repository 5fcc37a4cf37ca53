/**
 * The `Issue` table and `IssueRepository`. The database is an in-memory table
 * of rows with unique ids; the id the database generates for a new row and
 * the clock reading of `new Date()` are parameters.
 */
module IssueRepositories {
  import opened Common
  import opened Tables

  datatype IssueType = VAPT | REDTEAM | CLOUD
  datatype IssueStatus = OPEN | IN_PROGRESS | RESOLVED | CLOSED

  /** A row of the `Issue` table; `deletedAt` is `None` for a row that is not soft-deleted. */
  datatype Issue = Issue(
    id: string,
    title: string,
    description: string,
    issueType: IssueType,
    status: IssueStatus,
    userId: string,
    createdAt: int,
    deletedAt: Option<int>)

  function IssueId(i: Issue): string { i.id }

  /** `IssueRepoCreateInput` */
  datatype IssueRepoCreateInput = IssueRepoCreateInput(title: string, description: string, issueType: IssueType, userId: string)

  /**
   * `Partial<Issue>` as an update payload: each field that is present is
   * written. `deletedAt` may be present and `null` (`Some(None)`).
   */
  datatype IssuePatch = IssuePatch(
    title: Option<string>,
    description: Option<string>,
    issueType: Option<IssueType>,
    status: Option<IssueStatus>,
    userId: Option<string>,
    createdAt: Option<int>,
    deletedAt: Option<Option<int>>)

  const EmptyPatch := IssuePatch(None, None, None, None, None, None, None)

  /** The row `issue` after `update({ where: { id }, data: patch })`. */
  function ApplyPatch(issue: Issue, patch: IssuePatch): (r: Issue)
    ensures r.id == issue.id
    ensures r.title == patch.title.GetOr(issue.title)
    ensures r.description == patch.description.GetOr(issue.description)
    ensures r.issueType == patch.issueType.GetOr(issue.issueType)
    ensures r.status == patch.status.GetOr(issue.status)
    ensures r.userId == patch.userId.GetOr(issue.userId)
    ensures r.createdAt == patch.createdAt.GetOr(issue.createdAt)
    ensures r.deletedAt == patch.deletedAt.GetOr(issue.deletedAt)
  {
    Issue(issue.id,
          patch.title.GetOr(issue.title),
          patch.description.GetOr(issue.description),
          patch.issueType.GetOr(issue.issueType),
          patch.status.GetOr(issue.status),
          patch.userId.GetOr(issue.userId),
          patch.createdAt.GetOr(issue.createdAt),
          patch.deletedAt.GetOr(issue.deletedAt))
  }

  /** An empty payload changes nothing, and applying a payload twice is applying it once. */
  lemma ApplyPatchLaws(issue: Issue, patch: IssuePatch)
    ensures ApplyPatch(issue, EmptyPatch) == issue
    ensures ApplyPatch(ApplyPatch(issue, patch), patch) == ApplyPatch(issue, patch)
  {
  }

  /** Newest first: `orderBy: { createdAt: 'desc' }`. */
  ghost predicate NewestFirst(s: seq<Issue>) {
    forall i, j :: 0 <= i < j < |s| ==> s[i].createdAt >= s[j].createdAt
  }

  /** Inserts `x` into a newest-first sequence, before the first row it is not older than. */
  function InsertNewestFirst(x: Issue, s: seq<Issue>): (r: seq<Issue>)
    requires NewestFirst(s)
    ensures NewestFirst(r) && multiset(r) == multiset(s) + multiset{x}
  {
    if s == [] || x.createdAt >= s[0].createdAt then
      [x] + s
    else
      var rest := InsertNewestFirst(x, s[1..]);
      NoNewerThanHead(s, x, rest);
      assert s == [s[0]] + s[1..];
      [s[0]] + rest
  }

  /** Every row of `rest`, a rearrangement of `s[1..]` and `x`, is no newer than `s[0]`. */
  lemma NoNewerThanHead(s: seq<Issue>, x: Issue, rest: seq<Issue>)
    requires NewestFirst(s) && s != [] && x.createdAt < s[0].createdAt
    requires multiset(rest) == multiset(s[1..]) + multiset{x}
    ensures forall i :: 0 <= i < |rest| ==> rest[i].createdAt <= s[0].createdAt
  {
    forall i | 0 <= i < |rest| ensures rest[i].createdAt <= s[0].createdAt {
      assert rest[i] in multiset(rest);
      if rest[i] != x {
        assert rest[i] in multiset(s[1..]);
        var j :| 0 <= j < |s[1..]| && s[1..][j] == rest[i];
        assert s[j + 1] == rest[i];
      }
    }
  }

  /** The rows of `s` ordered newest first (the database's `ORDER BY createdAt DESC`). */
  function SortNewestFirst(s: seq<Issue>): (r: seq<Issue>)
    ensures NewestFirst(r) && multiset(r) == multiset(s)
  {
    if s == [] then []
    else
      assert s == [s[0]] + s[1..];
      InsertNewestFirst(s[0], SortNewestFirst(s[1..]))
  }

  /** The rows that satisfy `keep`, in table order (the `WHERE` clause). */
  function Select(rows: seq<Issue>, keep: Issue -> bool): (r: seq<Issue>)
    ensures forall x :: x in r <==> x in rows && keep(x)
    ensures multiset(r) <= multiset(rows)
  {
    if rows == [] then []
    else
      assert rows == [rows[0]] + rows[1..];
      if keep(rows[0]) then [rows[0]] + Select(rows[1..], keep) else Select(rows[1..], keep)
  }

  /** A sorted selection holds exactly the selected rows. */
  lemma SortedSelection(rows: seq<Issue>, keep: Issue -> bool)
    ensures var r := SortNewestFirst(Select(rows, keep));
            && (forall x :: x in r <==> x in rows && keep(x))
            && multiset(r) <= multiset(rows)
  {
    var sel := Select(rows, keep);
    var r := SortNewestFirst(sel);
    forall x ensures x in r <==> x in sel {
      assert x in r <==> x in multiset(r);
      assert x in sel <==> x in multiset(sel);
    }
  }

  /** `Select` depends only on which rows `keep` accepts. */
  lemma {:induction false} SelectSameFilter(rows: seq<Issue>, keep: Issue -> bool, keep': Issue -> bool)
    requires forall x :: x in rows ==> keep(x) == keep'(x)
    ensures Select(rows, keep) == Select(rows, keep')
  {
    if rows != [] {
      SelectSameFilter(rows[1..], keep, keep');
    }
  }

  /** The `where` clause of `findAll`: the caller's filter and `deletedAt: null`. */
  function LiveWhere(where: Issue -> bool): Issue -> bool {
    (x: Issue) => where(x) && x.deletedAt.None?
  }

  /** The `where` clause of `findByUserId`. */
  function LiveOwnedBy(userId: string): Issue -> bool {
    (x: Issue) => x.userId == userId && x.deletedAt.None?
  }

  class IssueRepository {
    /** The `Issue` table. */
    var rows: seq<Issue>

    ghost predicate Valid()
      reads this
    {
      Unique(rows, IssueId)
    }

    constructor ()
      ensures Valid() && rows == []
    {
      rows := [];
    }

    /** `findById(id)`: `findUnique` by primary key, with no filter on `deletedAt`. */
    function FindById(id: string): (r: Option<Issue>)
      reads this
      ensures r.Some? ==> r.value.id == id && r.value in rows
      ensures r.None? <==> forall i :: 0 <= i < |rows| ==> rows[i].id != id
    {
      FindBy(rows, IssueId, id)
    }

    /** `findAll(where)`: the live rows that satisfy `where`, newest first. */
    function FindAll(where: Issue -> bool): (r: seq<Issue>)
      reads this
      ensures forall x :: x in r <==> x in rows && where(x) && x.deletedAt.None?
      ensures NewestFirst(r)
      ensures multiset(r) <= multiset(rows)
    {
      SortedSelection(rows, LiveWhere(where));
      SortNewestFirst(Select(rows, LiveWhere(where)))
    }

    /** `findByUserId(userId)`: the live rows owned by `userId`, newest first. */
    function FindByUserId(userId: string): (r: seq<Issue>)
      reads this
      ensures forall x :: x in r <==> x in rows && x.userId == userId && x.deletedAt.None?
      ensures NewestFirst(r)
      ensures multiset(r) <= multiset(rows)
    {
      SortedSelection(rows, LiveOwnedBy(userId));
      SortNewestFirst(Select(rows, LiveOwnedBy(userId)))
    }

    /** `create(data)`: a new row with `status: OPEN`, `createdAt: now` and no `deletedAt`. */
    method Create(data: IssueRepoCreateInput, newId: string, now: int) returns (issue: Issue)
      requires Valid() && FindById(newId).None?
      modifies this
      ensures Valid()
      ensures issue == Issue(newId, data.title, data.description, data.issueType, OPEN, data.userId, now, None)
      ensures rows == old(rows) + [issue]
      ensures FindById(newId) == Some(issue)
      ensures forall id :: id != newId ==> FindById(id) == old(FindById(id))
    {
      issue := Issue(newId, data.title, data.description, data.issueType, OPEN, data.userId, now, None);
      forall id ensures id != newId ==> FindBy(rows + [issue], IssueId, id) == FindBy(rows, IssueId, id) {
        AppendFacts(rows, IssueId, issue, id);
      }
      AppendFacts(rows, IssueId, issue, newId);
      rows := rows + [issue];
    }

    /** `update(id, data)`: writes the fields present in `data` on row `id`. */
    method Update(id: string, patch: IssuePatch) returns (issue: Issue)
      requires Valid() && FindById(id).Some?
      modifies this
      ensures Valid()
      ensures issue == ApplyPatch(old(FindById(id)).value, patch)
      ensures rows == Put(old(rows), IssueId, issue)
      ensures FindById(id) == Some(issue)
      ensures forall other :: other != id ==> FindById(other) == old(FindById(other))
    {
      issue := ApplyPatch(FindById(id).value, patch);
      Write(issue);
    }

    /** `softDelete(id)`: sets `deletedAt` of row `id` to `now`, nothing else. */
    method SoftDelete(id: string, now: int) returns (issue: Issue)
      requires Valid() && FindById(id).Some?
      modifies this
      ensures Valid()
      ensures issue == old(FindById(id)).value.(deletedAt := Some(now))
      ensures rows == Put(old(rows), IssueId, issue)
      ensures FindById(id) == Some(issue)
      ensures forall other :: other != id ==> FindById(other) == old(FindById(other))
    {
      issue := FindById(id).value.(deletedAt := Some(now));
      Write(issue);
    }

    /** Stores `issue` over the row with its id. */
    method Write(issue: Issue)
      requires Valid() && FindById(issue.id).Some?
      modifies this
      ensures Valid()
      ensures rows == Put(old(rows), IssueId, issue)
      ensures FindById(issue.id) == Some(issue)
      ensures forall other :: other != issue.id ==> FindById(other) == old(FindById(other))
    {
      assert Has(rows, IssueId, issue.id);
      forall other ensures other != issue.id ==> FindBy(Put(rows, IssueId, issue), IssueId, other) == FindBy(rows, IssueId, other) {
        PutFacts(rows, IssueId, issue, other);
      }
      PutFacts(rows, IssueId, issue, issue.id);
      rows := Put(rows, IssueId, issue);
    }
  }

  /** `findByUserId(u)` is `findAll({ userId: u })`. */
  lemma FindByUserIdIsFindAll(repo: IssueRepository, userId: string)
    ensures repo.FindByUserId(userId) == repo.FindAll((x: Issue) => x.userId == userId)
  {
    SelectSameFilter(repo.rows, LiveOwnedBy(userId), LiveWhere((x: Issue) => x.userId == userId));
  }

  /** Soft-deleted rows are hidden from every listing but still found by id. */
  lemma SoftDeletedRowsStayFindable(repo: IssueRepository, i: int, where: Issue -> bool)
    requires repo.Valid() && 0 <= i < |repo.rows| && repo.rows[i].deletedAt.Some?
    ensures repo.FindById(repo.rows[i].id) == Some(repo.rows[i])
    ensures repo.rows[i] !in repo.FindAll(where)
    ensures repo.rows[i] !in repo.FindByUserId(repo.rows[i].userId)
  {
    FindByFindsRow(repo.rows, IssueId, i);
  }
}
