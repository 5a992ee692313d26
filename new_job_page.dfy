/** The recruiter's job form (app/dashboard/recruiter/jobs/new/page.js):
    the duplicate-free skill list and the submit handler with its guards.
    The page posts to the jobs proxy of the web tier, whose only check on
    a create is that the query names the recruiter
    (app/api/jobs/route.js); the rest of that proxy and the cookie parsing
    are not part of this model. The server is a parameter of the submit
    handler, from request to reply. */
module NewJobPage {
  import opened Common
  import FormLists

  /** The form fields, with `type` as `jobType`. */
  datatype JobForm = JobForm(
    title: string, company: string, location: string, jobType: string, salary: string,
    description: string, requirements: string, benefits: string, applicationDeadline: string)

  const EmptyForm: JobForm := JobForm("", "", "", "Full-time", "", "", "", "", "")

  /** `jobData`: the form plus skills, recruiter, posting date and status. */
  datatype Payload = Payload(form: JobForm, skills: seq<string>, recruiterId: string, postedDate: int,
                             status: string)

  /** A request to the proxy: its query parameters and its JSON body. */
  datatype Request = Request(query: map<string, string>, body: Payload)

  /** The proxy's POST guard: `postedBy`, else `recruiter`, from the query;
      a missing or empty value refuses the request. */
  function ProxyRecruiter(query: map<string, string>): (r: Option<string>)
    ensures r.Some? <==>
              ("postedBy" in query && query["postedBy"] != "") || ("recruiter" in query && query["recruiter"] != "")
    ensures r.Some? ==> r.value != ""
    ensures "postedBy" in query && query["postedBy"] != "" ==> r == Some(query["postedBy"])
  {
    if "postedBy" in query && query["postedBy"] != "" then Some(query["postedBy"])
    else if "recruiter" in query && query["recruiter"] != "" then Some(query["recruiter"])
    else None
  }

  const RecruiterRequired: string := "Recruiter ID is required"

  /** The reply to a request; `Unreachable` is a fetch that throws. */
  datatype Reply = Reply(ok: bool, error: string) | Unreachable

  /** What the proxy answers when its guard refuses. */
  function ProxyRefusal(req: Request): (r: Option<Reply>)
    ensures r.Some? <==> ProxyRecruiter(req.query).None?
    ensures r.Some? ==> r.value == Reply(false, RecruiterRequired)
  {
    if ProxyRecruiter(req.query).None? then Some(Reply(false, RecruiterRequired)) else None
  }

  function PayloadFor(form: JobForm, skills: seq<string>, userId: string, now: int): Payload {
    Payload(form, skills, userId, now, "Active")
  }

  /** The request as the page sends it: to `/api/jobs` with no query; the
      recruiter travels only in the body. */
  function SubmitRequestAsWritten(form: JobForm, skills: seq<string>, userId: string, now: int): Request {
    Request(map[], PayloadFor(form, skills, userId, now))
  }

  /** As written every submit is refused by the proxy, whoever is signed
      in: the page ends with the proxy's message. */
  lemma SubmitAsWrittenRefused(form: JobForm, skills: seq<string>, userId: string, now: int)
    ensures ProxyRefusal(SubmitRequestAsWritten(form, skills, userId, now)) == Some(Reply(false, RecruiterRequired))
  {
  }

  /** The request with the recruiter also in the query, as the proxy reads it. */
  function SubmitRequest(form: JobForm, skills: seq<string>, userId: string, now: int): Request {
    Request(map["postedBy" := userId], PayloadFor(form, skills, userId, now))
  }

  /** The corrected request passes the guard with the signed-in recruiter,
      whom the proxy forwards as the backend's `postedBy`, and it carries
      the same body. */
  lemma SubmitRequestForwardsRecruiter(form: JobForm, skills: seq<string>, userId: string, now: int)
    requires userId != ""
    ensures ProxyRecruiter(SubmitRequest(form, skills, userId, now).query) == Some(userId)
    ensures SubmitRequest(form, skills, userId, now).body == SubmitRequestAsWritten(form, skills, userId, now).body
  {
  }

  /** The session cookie: absent, present but not JSON, or a user. */
  datatype Cookie = NoCookie | Malformed | Session(userId: string)

  const LoginAgain: string := "Please log in again"
  const NetworkError: string := "Network error. Please try again."
  const CreateFailed: string := "Failed to create job posting"

  /** The error a refused create shows: the server's `error`, or the default. */
  function FailureMessage(error: string): (m: string)
    ensures m != ""
    ensures error != "" ==> m == error
  {
    if error != "" then error else CreateFailed
  }

  class NewJobPosting {
    var form: JobForm
    var skills: seq<string>
    var newSkill: string
    var error: string
    var isSubmitting: bool
    var navigatedToJobs: bool

    /** The skill list never holds a skill twice. */
    ghost predicate Valid()
      reads this
    {
      NoDup(skills)
    }

    constructor ()
      ensures Valid()
      ensures form == EmptyForm && skills == [] && newSkill == "" && error == ""
      ensures !isSubmitting && !navigatedToJobs
    {
      form := EmptyForm;
      skills := [];
      newSkill := "";
      error := "";
      isSubmitting := false;
      navigatedToJobs := false;
    }

    /** `addSkill`: the trimmed input joins the list when it is new and
        non-empty, and then the input is cleared. */
    method AddSkill()
      requires Valid()
      modifies this
      ensures Valid()
      ensures skills == FormLists.AddTrimmed(old(skills), old(newSkill))
      ensures newSkill == if skills != old(skills) then "" else old(newSkill)
      ensures form == old(form) && error == old(error) && isSubmitting == old(isSubmitting)
      ensures navigatedToJobs == old(navigatedToJobs)
    {
      FormLists.AddTrimmedNoDup(skills, newSkill);
      var t := Trim(newSkill);
      if t != "" && t !in skills {
        skills := skills + [t];
        newSkill := "";
      }
    }

    /** `removeSkill`. */
    method RemoveSkill(skill: string)
      requires Valid()
      modifies this
      ensures Valid()
      ensures skills == FormLists.Without(old(skills), skill)
      ensures form == old(form) && newSkill == old(newSkill) && error == old(error)
      ensures isSubmitting == old(isSubmitting) && navigatedToJobs == old(navigatedToJobs)
    {
      FormLists.WithoutKeepsNoDup(skills, skill);
      skills := FormLists.Without(skills, skill);
    }

    /** `handleSubmit`: without a session nothing is sent and the page asks
        to log in again; an unreadable cookie or an unreachable server
        shows the network error; a reply that is not ok shows its error or
        the default; an ok reply goes to the job list. The flag is always
        reset. */
    method HandleSubmit(cookie: Cookie, now: int, server: Request -> Reply) returns (sent: Option<Request>)
      modifies this
      ensures !isSubmitting
      ensures form == old(form) && skills == old(skills) && newSkill == old(newSkill)
      ensures cookie.NoCookie? ==> sent.None? && error == LoginAgain && navigatedToJobs == old(navigatedToJobs)
      ensures cookie.Malformed? ==> sent.None? && error == NetworkError && navigatedToJobs == old(navigatedToJobs)
      ensures cookie.Session? ==>
                var req := SubmitRequest(old(form), old(skills), cookie.userId, now);
                sent == Some(req)
                && (server(req).Unreachable? ==> error == NetworkError && navigatedToJobs == old(navigatedToJobs))
                && (server(req).Reply? && server(req).ok ==> error == "" && navigatedToJobs)
                && (server(req).Reply? && !server(req).ok ==>
                      error == FailureMessage(server(req).error) && navigatedToJobs == old(navigatedToJobs))
    {
      isSubmitting := true;
      error := "";
      sent := None;
      match cookie {
        case NoCookie =>
          error := LoginAgain;
        case Malformed =>
          error := NetworkError;
        case Session(userId) =>
          var req := SubmitRequest(form, skills, userId, now);
          sent := Some(req);
          var reply := server(req);
          if reply.Unreachable? {
            error := NetworkError;
          } else if reply.ok {
            navigatedToJobs := true;
          } else {
            error := FailureMessage(reply.error);
          }
      }
      isSubmitting := false;
    }
  }
}
