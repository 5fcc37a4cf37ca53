/**
 * `IssueService`: issue creation and the ownership policy on update and
 * delete. The e-mail notification that `createIssue` fires and forgets has
 * no effect on the store or the result, and is not modelled.
 */
module IssueServices {
  import opened Common
  import opened Tables
  import opened IssueRepositories

  const IssueNotFound := Status(404, "Issue not found")
  const Forbidden := Status(403, "Forbidden")

  /** `IssueCreateData` */
  datatype IssueCreateData = IssueCreateData(title: string, description: string, issueType: IssueType)

  /**
   * The check that `update` and `delete` both run on the row `findById`
   * returned: absent is 404, owned by someone else is 403, in that order.
   */
  function Authorize(found: Option<Issue>, userId: string): (r: Result<Issue>)
    ensures r == Err(IssueNotFound) <==> found.None?
    ensures r == Err(Forbidden) <==> found.Some? && found.value.userId != userId
    ensures r.Ok? <==> found.Some? && found.value.userId == userId
    ensures r.Ok? ==> r.value == found.value
  {
    if found.None? then Err(IssueNotFound)
    else if found.value.userId != userId then Err(Forbidden)
    else Ok(found.value)
  }

  class IssueService {
    const issueRepo: IssueRepository

    constructor (issueRepo: IssueRepository)
      ensures this.issueRepo == issueRepo
    {
      this.issueRepo := issueRepo;
    }

    /** `createIssue(userId, data)`: stores `{ ...data, userId }` as a new open issue. */
    method CreateIssue(userId: string, data: IssueCreateData, newId: string, now: int) returns (issue: Issue)
      requires issueRepo.Valid() && issueRepo.FindById(newId).None?
      modifies issueRepo
      ensures issueRepo.Valid()
      ensures issue.id == newId && issue.userId == userId
      ensures issue.title == data.title && issue.description == data.description && issue.issueType == data.issueType
      ensures issue.status == OPEN && issue.createdAt == now && issue.deletedAt.None?
      ensures issueRepo.rows == old(issueRepo.rows) + [issue]
    {
      issue := issueRepo.Create(IssueRepoCreateInput(data.title, data.description, data.issueType, userId), newId, now);
    }

    /**
     * `update(id, userId, data)`: the owner's payload is written unfiltered, so
     * it may also change `userId` or `deletedAt`, and a soft-deleted issue can
     * still be updated by its owner.
     */
    method Update(id: string, userId: string, patch: IssuePatch) returns (r: Result<Issue>)
      requires issueRepo.Valid()
      modifies issueRepo
      ensures issueRepo.Valid()
      ensures old(issueRepo.FindById(id)).None? ==> r == Err(IssueNotFound)
      ensures r == Err(Forbidden) <==> old(issueRepo.FindById(id)).Some? && old(issueRepo.FindById(id)).value.userId != userId
      ensures r.Ok? <==> old(issueRepo.FindById(id)).Some? && old(issueRepo.FindById(id)).value.userId == userId
      ensures r.Err? ==> issueRepo.rows == old(issueRepo.rows)
      ensures r.Ok? ==> && old(issueRepo.FindById(id)).Some?
                        && old(issueRepo.FindById(id)).value.userId == userId
                        && r.value == ApplyPatch(old(issueRepo.FindById(id)).value, patch)
                        && issueRepo.rows == Put(old(issueRepo.rows), IssueId, r.value)
    {
      var checked := Authorize(issueRepo.FindById(id), userId);
      if checked.Err? {
        return Err(checked.error);
      }
      var updated := issueRepo.Update(id, patch);
      r := Ok(updated);
    }

    /** `delete(id, userId)`: the same checks, then a soft delete at time `now`. */
    method Delete(id: string, userId: string, now: int) returns (r: Result<Issue>)
      requires issueRepo.Valid()
      modifies issueRepo
      ensures issueRepo.Valid()
      ensures old(issueRepo.FindById(id)).None? ==> r == Err(IssueNotFound)
      ensures r == Err(Forbidden) <==> old(issueRepo.FindById(id)).Some? && old(issueRepo.FindById(id)).value.userId != userId
      ensures r.Ok? <==> old(issueRepo.FindById(id)).Some? && old(issueRepo.FindById(id)).value.userId == userId
      ensures r.Err? ==> issueRepo.rows == old(issueRepo.rows)
      ensures r.Ok? ==> && old(issueRepo.FindById(id)).Some?
                        && old(issueRepo.FindById(id)).value.userId == userId
                        && r.value == old(issueRepo.FindById(id)).value.(deletedAt := Some(now))
                        && issueRepo.rows == Put(old(issueRepo.rows), IssueId, r.value)
    {
      var checked := Authorize(issueRepo.FindById(id), userId);
      if checked.Err? {
        return Err(checked.error);
      }
      var deleted := issueRepo.SoftDelete(id, now);
      r := Ok(deleted);
    }

    /** `getUserIssues(userId)`: exactly `findByUserId(userId)`. */
    method GetUserIssues(userId: string) returns (issues: seq<Issue>)
      ensures issues == issueRepo.FindByUserId(userId)
      ensures forall x :: x in issues <==> x in issueRepo.rows && x.userId == userId && x.deletedAt.None?
    {
      issues := issueRepo.FindByUserId(userId);
    }
  }

  /** Only the owner gets past the policy; everyone else is refused whatever the issue holds. */
  lemma OnlyOwnerPasses(found: Option<Issue>, owner: string, caller: string)
    requires found.Some? && found.value.userId == owner
    ensures Authorize(found, caller).Ok? <==> caller == owner
    ensures caller != owner ==> Authorize(found, caller) == Err(Forbidden)
    ensures Authorize(None, caller) == Err(IssueNotFound)
  {
  }

  /**
   * The owner can hand an issue to another user and can revive a soft-deleted
   * one: the update payload is not filtered.
   */
  lemma OwnerPayloadIsUnfiltered(issue: Issue, newOwner: string)
    requires issue.deletedAt.Some?
    ensures Authorize(Some(issue), issue.userId).Ok?
    ensures ApplyPatch(issue, EmptyPatch.(userId := Some(newOwner), deletedAt := Some(None))).userId == newOwner
    ensures ApplyPatch(issue, EmptyPatch.(userId := Some(newOwner), deletedAt := Some(None))).deletedAt.None?
  {
  }
}
