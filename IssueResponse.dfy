/** The owner's response to an issue, routes/responseByOwner.js: the active
    PUT `/respond-issue/:issueId` handler. The handler overwrites `response`
    and `status`, overwrites `resolutionDate` and `notes` only when they are
    supplied, derives `resolved` from the status, saves, and only then looks
    at the reporting user and sends the mail. */
module IssueResponse {
  import opened Common

  /** An issue as the handler sees it after `populate("hall")` and
      `populate("user")`: the identifiers of its hall and reporter, and the
      fields the handler writes. */
  datatype Issue = Issue(
    description: string,
    department: string,
    hall: string,
    user: string,
    response: Option<string>,
    status: Option<string>,
    resolutionDate: Option<string>,
    notes: Option<string>,
    resolved: bool)

  /** The body fields of the request; each may be absent. */
  datatype ResponseBody = ResponseBody(
    response: Option<string>, status: Option<string>,
    resolutionDate: Option<string>, notes: Option<string>)

  datatype Answer =
    | InvalidIssueId
    | IssueNotFound
    | HallUnresolved
    | FieldsMissing
    | ReporterNotFound
    | Responded(issue: Issue)
    | MailFailed

  function StatusCode(a: Answer): int
  {
    match a
    case InvalidIssueId => 400
    case IssueNotFound => 404
    case HallUnresolved => 500
    case FieldsMissing => 400
    case ReporterNotFound => 404
    case Responded(_) => 200
    case MailFailed => 500
  }

  /** The assignments of the handler, given truthy `response` and `status`. */
  function ApplyResponse(issue: Issue, response: string, status: string,
                         resolutionDate: Option<string>, notes: Option<string>): Issue
  {
    issue.(response := Some(response), status := Some(status),
           resolutionDate := if Truthy(resolutionDate) then resolutionDate else issue.resolutionDate,
           notes := if Truthy(notes) then notes else issue.notes,
           resolved := status == "resolved")
  }

  /** What a response writes: `response` and `status` always, `resolutionDate`
      and `notes` only when supplied, `resolved` exactly when the status is
      "resolved"; the description, department, hall and reporter stay. */
  lemma ResponseFields(issue: Issue, response: string, status: string,
                       resolutionDate: Option<string>, notes: Option<string>)
    ensures var r := ApplyResponse(issue, response, status, resolutionDate, notes);
            r.response == Some(response) && r.status == Some(status)
            && (r.resolved <==> status == "resolved")
            && (Truthy(resolutionDate) ==> r.resolutionDate == resolutionDate)
            && (!Truthy(resolutionDate) ==> r.resolutionDate == issue.resolutionDate)
            && (Truthy(notes) ==> r.notes == notes)
            && (!Truthy(notes) ==> r.notes == issue.notes)
            && r.description == issue.description && r.department == issue.department
            && r.hall == issue.hall && r.user == issue.user
  {
  }

  /** `resolved` follows the latest status only: a later response with any
      other status clears it, whatever the earlier one set. */
  lemma LatestStatusDecidesResolved(issue: Issue, r1: string, s1: string, d1: Option<string>, n1: Option<string>,
                                    r2: string, s2: string, d2: Option<string>, n2: Option<string>)
    ensures var twice := ApplyResponse(ApplyResponse(issue, r1, s1, d1, n1), r2, s2, d2, n2);
            (twice.resolved <==> s2 == "resolved") && twice.response == Some(r2) && twice.status == Some(s2)
  {
  }

  /** Sending the same response twice is the same as sending it once. */
  lemma ResponseIsIdempotent(issue: Issue, response: string, status: string,
                             resolutionDate: Option<string>, notes: Option<string>)
    ensures var once := ApplyResponse(issue, response, status, resolutionDate, notes);
            ApplyResponse(once, response, status, resolutionDate, notes) == once
  {
  }

  /** The handler as a function of the stored issues, the owners of the halls
      and the existing users. `ownerId` is the authenticated owner. */
  function Respond(issues: map<string, Issue>, hallOwners: map<string, string>, users: set<string>,
                   issueId: string, ownerId: string, body: ResponseBody, mailSent: bool)
    : (res: (map<string, Issue>, Answer))
    ensures !IsValidObjectId(issueId) ==> res == (issues, InvalidIssueId)
    ensures IsValidObjectId(issueId) && issueId !in issues ==> res == (issues, IssueNotFound)
    ensures IsValidObjectId(issueId) && issueId in issues && issues[issueId].hall !in hallOwners
            ==> res == (issues, HallUnresolved)
    ensures IsValidObjectId(issueId) && issueId in issues && issues[issueId].hall in hallOwners
            && hallOwners[issues[issueId].hall] != ownerId
            ==> res == (issues, IssueNotFound)
    ensures IsValidObjectId(issueId) && issueId in issues && issues[issueId].hall in hallOwners
            && hallOwners[issues[issueId].hall] == ownerId
            && (!Truthy(body.response) || !Truthy(body.status))
            ==> res == (issues, FieldsMissing)
    ensures res.1 in {ReporterNotFound, MailFailed} || res.1.Responded? <==>
              IsValidObjectId(issueId) && issueId in issues && issues[issueId].hall in hallOwners
              && hallOwners[issues[issueId].hall] == ownerId && Truthy(body.response) && Truthy(body.status)
    ensures res.1 in {ReporterNotFound, MailFailed} || res.1.Responded? ==>
              var updated := ApplyResponse(issues[issueId], body.response.value, body.status.value,
                                           body.resolutionDate, body.notes);
              res.0 == issues[issueId := updated]
              && (res.1 == ReporterNotFound <==> updated.user !in users)
              && (res.1 == MailFailed <==> updated.user in users && !mailSent)
              && (res.1.Responded? ==> res.1.issue == updated)
  {
    if !IsValidObjectId(issueId) then (issues, InvalidIssueId)
    else if issueId !in issues then (issues, IssueNotFound)
    else
      var issue := issues[issueId];
      if issue.hall !in hallOwners then (issues, HallUnresolved)
      else if hallOwners[issue.hall] != ownerId then (issues, IssueNotFound)
      else if !Truthy(body.response) || !Truthy(body.status) then (issues, FieldsMissing)
      else
        var updated := ApplyResponse(issue, body.response.value, body.status.value, body.resolutionDate, body.notes);
        var saved := issues[issueId := updated];
        if updated.user !in users then (saved, ReporterNotFound)
        else if !mailSent then (saved, MailFailed)
        else (saved, Responded(updated))
  }

  /** The update is saved before the reporter is looked up: a missing
      reporter answers 404 although the response has been stored. */
  lemma {:induction false} MissingReporterStillSaves(issues: map<string, Issue>, hallOwners: map<string, string>,
                                                     users: set<string>, issueId: string, ownerId: string,
                                                     body: ResponseBody, mailSent: bool)
    requires IsValidObjectId(issueId) && issueId in issues && issues[issueId].hall in hallOwners
    requires hallOwners[issues[issueId].hall] == ownerId && Truthy(body.response) && Truthy(body.status)
    requires issues[issueId].user !in users
    ensures var res := Respond(issues, hallOwners, users, issueId, ownerId, body, mailSent);
            res.1 == ReporterNotFound && issueId in res.0 && res.0[issueId].response == body.response
            && res.0[issueId].status == body.status
  {
    var updated := ApplyResponse(issues[issueId], body.response.value, body.status.value, body.resolutionDate, body.notes);
    ResponseFields(issues[issueId], body.response.value, body.status.value, body.resolutionDate, body.notes);
    assert updated.user == issues[issueId].user;
  }

  /** Only the owner of the issue's hall can change anything: every other
      caller leaves the issues as they were. */
  lemma {:induction false} OnlyHallOwnerWrites(issues: map<string, Issue>, hallOwners: map<string, string>,
                                               users: set<string>, issueId: string, ownerId: string,
                                               body: ResponseBody, mailSent: bool)
    ensures var res := Respond(issues, hallOwners, users, issueId, ownerId, body, mailSent);
            res.0 != issues ==>
              issueId in issues && issues[issueId].hall in hallOwners && hallOwners[issues[issueId].hall] == ownerId
  {
    var res := Respond(issues, hallOwners, users, issueId, ownerId, body, mailSent);
    if res.0 != issues {
      assert res.1 in {ReporterNotFound, MailFailed} || res.1.Responded?;
    }
  }

  /** The issue collection together with what `populate` resolves against. */
  class IssueDesk {
    var issues: map<string, Issue>
    var hallOwners: map<string, string>
    var users: set<string>

    constructor (hallOwners: map<string, string>, users: set<string>)
      ensures this.issues == map[] && this.hallOwners == hallOwners && this.users == users
    {
      this.issues := map[];
      this.hallOwners := hallOwners;
      this.users := users;
    }

    /** PUT `/respond-issue/:issueId`. */
    method RespondToIssue(issueId: string, ownerId: string, body: ResponseBody, mailSent: bool)
      returns (a: Answer)
      modifies this
      ensures (issues, a) == Respond(old(issues), old(hallOwners), old(users), issueId, ownerId, body, mailSent)
      ensures hallOwners == old(hallOwners) && users == old(users)
    {
      if !IsValidObjectId(issueId) {
        return InvalidIssueId;
      }
      if issueId !in issues {
        return IssueNotFound;
      }
      var issue := issues[issueId];
      if issue.hall !in hallOwners {
        return HallUnresolved;
      }
      if hallOwners[issue.hall] != ownerId {
        return IssueNotFound;
      }
      if !Truthy(body.response) || !Truthy(body.status) {
        return FieldsMissing;
      }
      issue := issue.(response := body.response);
      issue := issue.(status := body.status);
      if Truthy(body.resolutionDate) {
        issue := issue.(resolutionDate := body.resolutionDate);
      }
      if Truthy(body.notes) {
        issue := issue.(notes := body.notes);
      }
      issue := issue.(resolved := body.status.value == "resolved");
      issues := issues[issueId := issue];
      if issue.user !in users {
        return ReporterNotFound;
      }
      if !mailSent {
        return MailFailed;
      }
      a := Responded(issue);
    }
  }
}
