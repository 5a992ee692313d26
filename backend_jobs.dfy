/** The backend jobs route (backend/routes/jobs.js): the filtered, newest
    first listing, lookup by id, create with the recruiter from the query
    string, the field-by-field update that skips three protected keys,
    and delete. A request body is modelled by the schema keys it carries;
    keys outside the schema are dropped by the schema and left out. */
module BackendJobs {
  import opened Common
  import opened JobSchema
  import opened UserSchema

  const ServerError: string := "Internal server error"

  function NewestKey(): Job -> int {
    (j: Job) => j.postedDate
  }

  function ByPoster(recruiter: string): Job -> bool {
    (j: Job) => j.postedBy == recruiter
  }

  /** `populate('postedBy')` finds every poster; a deleted poster
      populates to null and reading its `_id` throws. */
  predicate PostersExist(jobs: seq<Job>, users: seq<User>) {
    forall i :: 0 <= i < |jobs| ==> FindUserById(users, jobs[i].postedBy).Some?
  }

  /** `find({ postedBy: recruiter })`, or every job without a recruiter. */
  function Selected(jobs: seq<Job>, recruiter: string): (r: seq<Job>)
    ensures forall j :: j in r <==> j in jobs && (recruiter != "" ==> j.postedBy == recruiter)
  {
    if recruiter != "" then
      FilterEach(jobs, ByPoster(recruiter));
      Filter(jobs, ByPoster(recruiter))
    else jobs
  }

  lemma {:induction false} PostersExistMultiset(a: seq<Job>, b: seq<Job>, users: seq<User>)
    requires multiset(a) == multiset(b)
    ensures PostersExist(a, users) <==> PostersExist(b, users)
  {
    if PostersExist(b, users) {
      forall i | 0 <= i < |a| ensures FindUserById(users, a[i].postedBy).Some? {
        assert a[i] in multiset(b);
        var m :| 0 <= m < |b| && b[m] == a[i];
      }
    }
    if PostersExist(a, users) {
      forall i | 0 <= i < |b| ensures FindUserById(users, b[i].postedBy).Some? {
        assert b[i] in multiset(a);
        var m :| 0 <= m < |a| && a[m] == b[i];
      }
    }
  }

  /** GET /: the selected jobs, newest first. */
  function ListJobs(jobs: seq<Job>, users: seq<User>, recruiter: string): (r: Response<seq<Job>>)
    ensures r.Ok? <==> PostersExist(Selected(jobs, recruiter), users)
    ensures r.Ok? ==> r.code == 200 && multiset(r.body) == multiset(Selected(jobs, recruiter))
                      && SortedDesc(r.body, NewestKey())
    ensures r.Error? ==> r == Error(500, ServerError)
  {
    var sorted := SortDesc(Selected(jobs, recruiter), NewestKey());
    PostersExistMultiset(sorted, Selected(jobs, recruiter), users);
    if PostersExist(sorted, users) then Ok(200, sorted) else Error(500, ServerError)
  }

  /** The listing holds exactly the recruiter's jobs (every job without a
      recruiter), each with its embedded applications as stored. */
  lemma ListJobsMembers(jobs: seq<Job>, users: seq<User>, recruiter: string, j: Job)
    requires ListJobs(jobs, users, recruiter).Ok?
    ensures j in ListJobs(jobs, users, recruiter).body <==>
              j in jobs && (recruiter != "" ==> j.postedBy == recruiter)
  {
    var r := ListJobs(jobs, users, recruiter).body;
    assert j in r <==> j in multiset(r);
    assert j in Selected(jobs, recruiter) <==> j in multiset(Selected(jobs, recruiter));
  }

  /** GET /:id. */
  function GetJob(jobs: seq<Job>, users: seq<User>, id: string): (r: Response<Job>)
    ensures FindJob(jobs, id).None? ==> r == Error(404, "Job not found")
    ensures FindJob(jobs, id).Some? ==>
              var j := jobs[FindJob(jobs, id).value];
              (FindUserById(users, j.postedBy).Some? ==> r == Ok(200, j))
              && (FindUserById(users, j.postedBy).None? ==> r == Error(500, ServerError))
  {
    match FindJob(jobs, id)
    case None => Error(404, "Job not found")
    case Some(k) =>
      if FindUserById(users, jobs[k].postedBy).Some? then Ok(200, jobs[k]) else Error(500, ServerError)
  }

  // ---------------------------------------------------------------------
  // Create
  // ---------------------------------------------------------------------

  /** The schema keys a create body may carry; `None` is an absent key. */
  datatype JobBody = JobBody(
    title: Option<string>, company: Option<string>, description: Option<string>,
    requirements: Option<string>, benefits: Option<string>, department: Option<string>,
    jobType: Option<string>, location: Option<string>, salary: Option<string>,
    skills: Option<seq<string>>, postedDate: Option<int>, applicationDeadline: Option<int>,
    applications: Option<seq<Application>>)

  function TrimOpt(o: Option<string>): Option<string> {
    if o.Some? then Some(Trim(o.value)) else None
  }

  /** `new Job({ ...req.body, postedBy })` as written: the schema's trim
      setters and defaults apply, the query's recruiter replaces any body
      value, and a body `applications` array is kept. */
  function CastJobAsWritten(id: string, body: JobBody, postedBy: string, now: int): (j: Job)
    ensures j.id == id && j.postedBy == postedBy && j.applications == body.applications.GetOr([])
  {
    Job(id, Trim(body.title.GetOr("")), Trim(body.company.GetOr("")), body.description.GetOr(""),
        body.requirements.GetOr(""), body.benefits, TrimOpt(body.department), body.jobType.GetOr(""),
        Trim(body.location.GetOr("")), TrimOpt(body.salary), TrimEach(body.skills.GetOr([])),
        postedBy, body.postedDate.GetOr(now), body.applicationDeadline, body.applications.GetOr([]))
  }

  /** The cast as evidently intended: a new job starts with no
      applications, as the create response and the update route assume. */
  function CastJob(id: string, body: JobBody, postedBy: string, now: int): (j: Job)
    ensures j.id == id && j.postedBy == postedBy && j.applications == []
    ensures j == CastJobAsWritten(id, body, postedBy, now).(applications := [])
    ensures j.postedDate == (if body.postedDate.Some? then body.postedDate.value else now)
  {
    CastJobAsWritten(id, body, postedBy, now).(applications := [])
  }

  /** A body smuggling in two applications by the same student. */
  const DuplicateBody: JobBody := JobBody(
    Some("Intern"), Some("Acme"), Some("d"), Some("r"), None, None, Some("Internship"),
    Some("Dhaka"), None, None, None, None,
    Some([Application("a1", "s1", "S", "s@student.bubt.edu", 0, "Pending", ""),
          Application("a2", "s1", "S", "s@student.bubt.edu", 0, "Accepted", "")]))

  /** As written, create stores a job that passes every validator yet
      holds two applications from one student. */
  lemma CreateAsWrittenAdmitsDuplicates()
    ensures JobValid(CastJobAsWritten("j1", DuplicateBody, "r1", 0))
    ensures !NoDuplicateApplicants(CastJobAsWritten("j1", DuplicateBody, "r1", 0).applications)
  {
    var j := CastJobAsWritten("j1", DuplicateBody, "r1", 0);
    assert j.applications[0].studentId == j.applications[1].studentId;
    assert ValidJobType(j.jobType) by {
      assert j.jobType == JobTypeNames[3];
    }
    assert ValidStatus(j.applications[0].status) by {
      assert j.applications[0].status == StatusNames[0];
    }
    assert ValidStatus(j.applications[1].status) by {
      assert j.applications[1].status == StatusNames[3];
    }
    TrimKeepsUnpadded("Intern");
    TrimKeepsUnpadded("Acme");
    TrimKeepsUnpadded("Dhaka");
  }

  /** With the corrected cast, a valid job keeps the store invariant. */
  lemma CreateKeepsStoreValid(jobs: seq<Job>, id: string, body: JobBody, postedBy: string, now: int)
    requires StoreValid(jobs) && id != "" && forall i :: 0 <= i < |jobs| ==> jobs[i].id != id
    requires JobValid(CastJob(id, body, postedBy, now))
    ensures StoreValid(jobs + [CastJob(id, body, postedBy, now)])
  {
    var r := jobs + [CastJob(id, body, postedBy, now)];
    forall a, b | 0 <= a < b < |r| ensures r[a].id != r[b].id {
      assert r[a] == jobs[a];
    }
    forall i | 0 <= i < |r|
      ensures r[i].id != "" && JobValid(r[i]) && NoDuplicateApplicants(r[i].applications)
    {
      if i < |jobs| {
        assert r[i] == jobs[i];
      }
    }
  }

  /** POST /?postedBy=recruiter: create a job. Validation failure creates
      nothing; a poster that does not exist fails the response after the
      job was saved. */
  method CreateJob(db: JobCollection, users: UserCollection, postedBy: string, body: JobBody,
                   freshId: string, now: int)
    returns (r: Response<Job>)
    requires db.Valid() && freshId != "" && forall i :: 0 <= i < |db.jobs| ==> db.jobs[i].id != freshId
    modifies db
    ensures db.Valid()
    ensures postedBy == "" ==>
              r == Error(400, "Recruiter ID is required as query parameter") && db.jobs == old(db.jobs)
    ensures postedBy != "" && !JobValid(CastJob(freshId, body, postedBy, now)) ==>
              r == Error(500, ServerError) && db.jobs == old(db.jobs)
    ensures postedBy != "" && JobValid(CastJob(freshId, body, postedBy, now)) ==>
              var j := CastJob(freshId, body, postedBy, now);
              db.jobs == old(db.jobs) + [j]
              && (FindUserById(users.users, postedBy).Some? ==> r == Ok(201, j))
              && (FindUserById(users.users, postedBy).None? ==> r == Error(500, ServerError))
  {
    if postedBy == "" {
      return Error(400, "Recruiter ID is required as query parameter");
    }
    var j := CastJob(freshId, body, postedBy, now);
    if !JobValid(j) {
      return Error(500, ServerError);
    }
    CreateKeepsStoreValid(db.jobs, freshId, body, postedBy, now);
    db.jobs := db.jobs + [j];
    if FindUserById(users.users, postedBy).None? {
      return Error(500, ServerError);
    }
    r := Ok(201, j);
  }

  // ---------------------------------------------------------------------
  // Update
  // ---------------------------------------------------------------------

  /** One key of an update body with its value. */
  datatype BodyField =
    | Title(text: string) | Company(text: string) | Description(text: string)
    | Requirements(text: string) | Benefits(text: string) | Department(text: string)
    | TypeField(text: string) | Location(text: string) | Salary(text: string)
    | Skills(list: seq<string>) | PostedDate(date: int) | Deadline(date: int)
    | PostedByField(text: string) | ApplicationsField(apps: seq<Application>) | IdField(text: string)

  function Key(f: BodyField): string {
    match f
    case Title(_) => "title"
    case Company(_) => "company"
    case Description(_) => "description"
    case Requirements(_) => "requirements"
    case Benefits(_) => "benefits"
    case Department(_) => "department"
    case TypeField(_) => "type"
    case Location(_) => "location"
    case Salary(_) => "salary"
    case Skills(_) => "skills"
    case PostedDate(_) => "postedDate"
    case Deadline(_) => "applicationDeadline"
    case PostedByField(_) => "postedBy"
    case ApplicationsField(_) => "applications"
    case IdField(_) => "_id"
  }

  /** The keys the update loop skips. */
  predicate Protected(key: string) {
    key == "postedBy" || key == "applications" || key == "_id"
  }

  /** `job[key] = value`, through the schema's trim setters. */
  function Assign(j: Job, f: BodyField): (r: Job)
    requires !Protected(Key(f))
    ensures r.id == j.id && r.postedBy == j.postedBy && r.applications == j.applications
  {
    match f
    case Title(t) => j.(title := Trim(t))
    case Company(t) => j.(company := Trim(t))
    case Description(t) => j.(description := t)
    case Requirements(t) => j.(requirements := t)
    case Benefits(t) => j.(benefits := Some(t))
    case Department(t) => j.(department := Some(Trim(t)))
    case TypeField(t) => j.(jobType := t)
    case Location(t) => j.(location := Trim(t))
    case Salary(t) => j.(salary := Some(Trim(t)))
    case Skills(l) => j.(skills := TrimEach(l))
    case PostedDate(d) => j.(postedDate := d)
    case Deadline(d) => j.(applicationDeadline := Some(d))
  }

  /** The update loop over the body keys, in order. */
  function ApplyFields(j: Job, body: seq<BodyField>): Job
    decreases |body|
  {
    if body == [] then j
    else ApplyFields(if Protected(Key(body[0])) then j else Assign(j, body[0]), body[1..])
  }

  /** postedBy, applications and the id survive any update body. */
  lemma {:induction false} ApplyFieldsKeepsProtected(j: Job, body: seq<BodyField>)
    ensures ApplyFields(j, body).id == j.id
    ensures ApplyFields(j, body).postedBy == j.postedBy
    ensures ApplyFields(j, body).applications == j.applications
    decreases |body|
  {
    if body != [] {
      ApplyFieldsKeepsProtected(if Protected(Key(body[0])) then j else Assign(j, body[0]), body[1..]);
    }
  }

  predicate Mentions(body: seq<BodyField>, key: string) {
    exists i :: 0 <= i < |body| && Key(body[i]) == key
  }

  /** The value a job holds under an updatable key. */
  datatype FieldValue =
    | TextValue(text: string) | OptTextValue(opt: Option<string>) | TextsValue(texts: seq<string>)
    | DateValue(date: int) | OptDateValue(optDate: Option<int>) | NoField

  function FieldOf(j: Job, key: string): FieldValue {
    if key == "title" then TextValue(j.title)
    else if key == "company" then TextValue(j.company)
    else if key == "description" then TextValue(j.description)
    else if key == "requirements" then TextValue(j.requirements)
    else if key == "benefits" then OptTextValue(j.benefits)
    else if key == "department" then OptTextValue(j.department)
    else if key == "type" then TextValue(j.jobType)
    else if key == "location" then TextValue(j.location)
    else if key == "salary" then OptTextValue(j.salary)
    else if key == "skills" then TextsValue(j.skills)
    else if key == "postedDate" then DateValue(j.postedDate)
    else if key == "applicationDeadline" then OptDateValue(j.applicationDeadline)
    else NoField
  }

  /** Assigning one key leaves every other key as it was. */
  lemma AssignKeepsOthers(j: Job, f: BodyField, key: string)
    requires !Protected(Key(f)) && key != Key(f)
    ensures FieldOf(Assign(j, f), key) == FieldOf(j, key)
  {
    match f {
      case Title(_) => assert key != "title";
      case Company(_) => assert key != "company";
      case Description(_) => assert key != "description";
      case Requirements(_) => assert key != "requirements";
      case Benefits(_) => assert key != "benefits";
      case Department(_) => assert key != "department";
      case TypeField(_) => assert key != "type";
      case Location(_) => assert key != "location";
      case Salary(_) => assert key != "salary";
      case Skills(_) => assert key != "skills";
      case PostedDate(_) => assert key != "postedDate";
      case Deadline(_) => assert key != "applicationDeadline";
    }
  }

  /** A key the body does not carry keeps its stored value. */
  lemma {:induction false} ApplyFieldsKeepsAbsent(j: Job, body: seq<BodyField>, key: string)
    requires !Mentions(body, key)
    ensures FieldOf(ApplyFields(j, body), key) == FieldOf(j, key)
    decreases |body|
  {
    if body != [] {
      assert Key(body[0]) != key;
      var j1 := if Protected(Key(body[0])) then j else Assign(j, body[0]);
      if !Protected(Key(body[0])) {
        AssignKeepsOthers(j, body[0], key);
      }
      assert forall i :: 0 <= i < |body[1..]| ==> body[1..][i] == body[i + 1];
      ApplyFieldsKeepsAbsent(j1, body[1..], key);
    }
  }

  /** The body is applied left to right, so the last occurrence of a key
      wins: the result of a body ending in an unprotected key is that key
      assigned over the result of the rest. */
  lemma {:induction false} ApplyFieldsLast(j: Job, body: seq<BodyField>, f: BodyField)
    requires !Protected(Key(f))
    ensures ApplyFields(j, body + [f]) == Assign(ApplyFields(j, body), f)
    decreases |body|
  {
    if body == [] {
      assert [f][1..] == [];
    } else {
      assert (body + [f])[1..] == body[1..] + [f];
      ApplyFieldsLast(if Protected(Key(body[0])) then j else Assign(j, body[0]), body[1..], f);
    }
  }

  /** PUT /:id: copy every unprotected body key onto the job, then save. */
  method UpdateJob(db: JobCollection, users: UserCollection, id: string, body: seq<BodyField>)
    returns (r: Response<Job>)
    requires db.Valid()
    modifies db
    ensures db.Valid()
    ensures FindJob(old(db.jobs), id).None? ==> r == Error(404, "Job not found") && db.jobs == old(db.jobs)
    ensures FindJob(old(db.jobs), id).Some? ==>
              var k := FindJob(old(db.jobs), id).value;
              var j := ApplyFields(old(db.jobs)[k], body);
              (!JobValid(j) ==> r == Error(500, ServerError) && db.jobs == old(db.jobs))
              && (JobValid(j) ==>
                    db.jobs == old(db.jobs)[k := j]
                    && (FindUserById(users.users, j.postedBy).Some? ==> r == Ok(200, j))
                    && (FindUserById(users.users, j.postedBy).None? ==> r == Error(500, ServerError)))
  {
    var found := FindJob(db.jobs, id);
    if found.None? {
      return Error(404, "Job not found");
    }
    var k := found.value;
    var job := db.jobs[k];
    var i := 0;
    while i < |body|
      invariant 0 <= i <= |body|
      invariant ApplyFields(job, body[i..]) == ApplyFields(db.jobs[k], body)
    {
      assert body[i..][1..] == body[i + 1..];
      if !Protected(Key(body[i])) {
        job := Assign(job, body[i]);
      }
      i := i + 1;
    }
    assert body[i..] == [];
    ApplyFieldsKeepsProtected(db.jobs[k], body);
    if !JobValid(job) {
      return Error(500, ServerError);
    }
    ReplaceKeepsStoreValid(db.jobs, k, job);
    db.jobs := db.jobs[k := job];
    if FindUserById(users.users, job.postedBy).None? {
      return Error(500, ServerError);
    }
    r := Ok(200, job);
  }

  // ---------------------------------------------------------------------
  // Delete
  // ---------------------------------------------------------------------

  /** Removing one job keeps the store invariant. */
  lemma RemoveKeepsStoreValid(jobs: seq<Job>, k: nat)
    requires StoreValid(jobs) && k < |jobs|
    ensures StoreValid(jobs[..k] + jobs[k + 1..])
  {
    var r := jobs[..k] + jobs[k + 1..];
    assert forall i :: 0 <= i < |r| ==> r[i] == if i < k then jobs[i] else jobs[i + 1];
  }

  /** With unique ids, removing the found job removes exactly the jobs
      with that id and keeps every other job. */
  lemma RemoveExactly(jobs: seq<Job>, k: nat, id: string, j: Job)
    requires UniqueJobIds(jobs) && k < |jobs| && jobs[k].id == id
    ensures j in jobs[..k] + jobs[k + 1..] <==> j in jobs && j.id != id
  {
    var r := jobs[..k] + jobs[k + 1..];
    assert forall i :: 0 <= i < |r| ==> r[i] == if i < k then jobs[i] else jobs[i + 1];
    if j in jobs && j.id != id {
      var m :| 0 <= m < |jobs| && jobs[m] == j;
      assert m != k;
      if m < k {
        assert r[m] == j;
      } else {
        assert r[m - 1] == j;
      }
    }
  }

  /** DELETE /:id: the job goes, with its embedded applications. */
  method DeleteJob(db: JobCollection, id: string) returns (r: Response<string>)
    requires db.Valid()
    modifies db
    ensures db.Valid()
    ensures FindJob(old(db.jobs), id).None? ==> r == Error(404, "Job not found") && db.jobs == old(db.jobs)
    ensures FindJob(old(db.jobs), id).Some? ==>
              r == Ok(200, "Job deleted successfully")
              && forall j :: j in db.jobs <==> j in old(db.jobs) && j.id != id
    ensures FindJob(old(db.jobs), id).Some? ==>
              var k := FindJob(old(db.jobs), id).value;
              db.jobs == old(db.jobs)[..k] + old(db.jobs)[k + 1..]
  {
    var found := FindJob(db.jobs, id);
    if found.None? {
      return Error(404, "Job not found");
    }
    var k := found.value;
    RemoveKeepsStoreValid(db.jobs, k);
    forall j | true ensures j in db.jobs[..k] + db.jobs[k + 1..] <==> j in db.jobs && j.id != id {
      RemoveExactly(db.jobs, k, id, j);
    }
    db.jobs := db.jobs[..k] + db.jobs[k + 1..];
    r := Ok(200, "Job deleted successfully");
  }
}
