/**
 * `IssueHandler`: the request checks in front of `IssueService`. Each
 * operation reads `x-user-id` first (401 without it, before the body is
 * looked at), checks the body where it needs one, makes one service call, and
 * wraps the outcome with `handleWrapper`.
 */
module IssueHandlers {
  import opened Common
  import opened Tables
  import opened ApiResponses
  import opened BaseHandlers
  import opened IssueRepositories
  import opened IssueServices

  const TitleAndTypeRequired := Status(400, "Title and Type are required")
  const InvalidIssueType := Status(400, "Invalid Issue Type")

  /** `const { title, description, type } = body` */
  datatype CreateIssueBody = CreateIssueBody(title: Field, description: Field, issueType: Field)

  /** The data of a successful `delete`: `{ success: true }`. */
  datatype DeleteAck = DeleteAck(success: bool)

  /** `Object.values(IssueType).includes(type)`, and the member it found. */
  function ParseIssueType(s: string): (t: Option<IssueType>)
    ensures t == Some(VAPT) <==> s == "VAPT"
    ensures t == Some(REDTEAM) <==> s == "REDTEAM"
    ensures t == Some(CLOUD) <==> s == "CLOUD"
  {
    if s == "VAPT" then Some(VAPT)
    else if s == "REDTEAM" then Some(REDTEAM)
    else if s == "CLOUD" then Some(CLOUD)
    else None
  }

  /** The checks of `create`, and on success the arguments of `createIssue`. */
  function CreateArgs(req: Request<CreateIssueBody>): (r: Result<(string, IssueCreateData)>)
    ensures RequireUserId(req).Err? ==> r == Err(Unauthorized)
    ensures RequireUserId(req).Ok? && !(req.body.title.Truthy() && req.body.issueType.Truthy()) ==>
              r == Err(TitleAndTypeRequired)
    ensures (&& RequireUserId(req).Ok? && req.body.title.Truthy() && req.body.issueType.Truthy()
             && ParseIssueType(req.body.issueType.text).None?) ==> r == Err(InvalidIssueType)
    ensures r.Ok? <==> && RequireUserId(req).Ok? && req.body.title.Truthy() && req.body.issueType.Truthy()
                       && ParseIssueType(req.body.issueType.text).Some?
    ensures r.Ok? ==> && r.value.0 == RequireUserId(req).value
                      && r.value.1.title == req.body.title.text && req.body.title.Truthy()
                      && Some(r.value.1.issueType) == ParseIssueType(req.body.issueType.text)
                      && r.value.1.description == (if req.body.description.Truthy() then req.body.description.text else "")
  {
    match RequireUserId(req)
    case Err(e) => Err(e)
    case Ok(userId) =>
      var body := req.body;
      if !body.title.Truthy() || !body.issueType.Truthy() then Err(TitleAndTypeRequired)
      else match ParseIssueType(body.issueType.text)
        case None => Err(InvalidIssueType)
        case Some(t) =>
          var description := if body.description.Truthy() then body.description.text else "";
          Ok((userId, IssueCreateData(body.title.text, description, t)))
  }

  /** Without `x-user-id` the body plays no part in the answer. */
  lemma CreateChecksIdentityFirst(req: Request<CreateIssueBody>, body: CreateIssueBody)
    requires RequireUserId(req).Err?
    ensures CreateArgs(req) == CreateArgs(req.(body := body)) == Err(Unauthorized)
  {
  }

  class IssueHandler {
    const issueService: IssueService

    constructor (issueService: IssueService)
      ensures this.issueService == issueService
    {
      this.issueService := issueService;
    }

    /** `create(req)`: `newId` and `now` are the new row's id and creation time. */
    method Create(req: Request<CreateIssueBody>, newId: string, now: int, timestamp: string) returns (resp: HttpResponse<Issue>)
      requires issueService.issueRepo.Valid() && issueService.issueRepo.FindById(newId).None?
      modifies issueService.issueRepo
      ensures issueService.issueRepo.Valid()
      ensures CreateArgs(req).Err? ==> && resp == HandleWrapper(Err(CreateArgs(req).error), timestamp)
                                       && issueService.issueRepo.rows == old(issueService.issueRepo.rows)
      ensures CreateArgs(req).Ok? ==>
                var (userId, data) := CreateArgs(req).value;
                var issue := Issue(newId, data.title, data.description, data.issueType, OPEN, userId, now, None);
                && issueService.issueRepo.rows == old(issueService.issueRepo.rows) + [issue]
                && resp == HandleWrapper(Ok(issue), timestamp)
    {
      var args := CreateArgs(req);
      if args.Err? {
        return HandleWrapper(Err(args.error), timestamp);
      }
      var (userId, data) := args.value;
      var issue := issueService.CreateIssue(userId, data, newId, now);
      resp := HandleWrapper(Ok(issue), timestamp);
    }

    /** `update(req, { id })`: the body goes to the service as it came. */
    method Update(req: Request<IssuePatch>, id: string, timestamp: string) returns (resp: HttpResponse<Issue>)
      requires issueService.issueRepo.Valid()
      modifies issueService.issueRepo
      ensures issueService.issueRepo.Valid()
      ensures RequireUserId(req).Err? ==> && resp == HandleWrapper(Err(Unauthorized), timestamp)
                                          && issueService.issueRepo.rows == old(issueService.issueRepo.rows)
      ensures RequireUserId(req).Ok? ==>
                var found := old(issueService.issueRepo.FindById(id));
                match Authorize(found, RequireUserId(req).value)
                case Err(e) => && resp == HandleWrapper(Err(e), timestamp)
                               && issueService.issueRepo.rows == old(issueService.issueRepo.rows)
                case Ok(issue) => && resp == HandleWrapper(Ok(ApplyPatch(issue, req.body)), timestamp)
                                  && issueService.issueRepo.rows == Put(old(issueService.issueRepo.rows), IssueId, ApplyPatch(issue, req.body))
    {
      var userId := RequireUserId(req);
      if userId.Err? {
        return HandleWrapper(Err(userId.error), timestamp);
      }
      var r := issueService.Update(id, userId.value, req.body);
      resp := HandleWrapper(r, timestamp);
    }

    /** `delete(req, { id })`: a soft delete at time `now`, answered with `{ success: true }`. */
    method Delete<B>(req: Request<B>, id: string, now: int, timestamp: string) returns (resp: HttpResponse<DeleteAck>)
      requires issueService.issueRepo.Valid()
      modifies issueService.issueRepo
      ensures issueService.issueRepo.Valid()
      ensures RequireUserId(req).Err? ==> && resp == HandleWrapper(Err(Unauthorized), timestamp)
                                          && issueService.issueRepo.rows == old(issueService.issueRepo.rows)
      ensures RequireUserId(req).Ok? ==>
                var found := old(issueService.issueRepo.FindById(id));
                match Authorize(found, RequireUserId(req).value)
                case Err(e) => && resp == HandleWrapper(Err(e), timestamp)
                               && issueService.issueRepo.rows == old(issueService.issueRepo.rows)
                case Ok(issue) => && resp == HandleWrapper(Ok(DeleteAck(true)), timestamp)
                                  && issueService.issueRepo.rows == Put(old(issueService.issueRepo.rows), IssueId, issue.(deletedAt := Some(now)))
    {
      var userId := RequireUserId(req);
      if userId.Err? {
        return HandleWrapper(Err(userId.error), timestamp);
      }
      var r := issueService.Delete(id, userId.value, now);
      if r.Err? {
        return HandleWrapper(Err(r.error), timestamp);
      }
      resp := HandleWrapper(Ok(DeleteAck(true)), timestamp);
    }

    /** `list(req)`: the caller's live issues, newest first. */
    function List<B>(req: Request<B>, timestamp: string): (resp: HttpResponse<seq<Issue>>)
      reads issueService.issueRepo
      ensures RequireUserId(req).Err? ==> resp == HandleWrapper(Err(Unauthorized), timestamp)
      ensures RequireUserId(req).Ok? ==>
                && resp.status == 200 && resp.body.Success()
                && resp.body.data == issueService.issueRepo.FindByUserId(RequireUserId(req).value)
                && forall x :: x in resp.body.data ==> x.userId == RequireUserId(req).value && x.deletedAt.None?
    {
      match RequireUserId(req)
      case Err(e) => HandleWrapper(Err(e), timestamp)
      case Ok(userId) => HandleWrapper(Ok(issueService.issueRepo.FindByUserId(userId)), timestamp)
    }
  }
}
