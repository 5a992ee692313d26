/** The backend applications route (backend/routes/applications.js): the
    GET projections, POST apply with the name and email copied from the
    student record, and PUT status update with the enumeration check. The
    jobs and users collections are the stores of the job and user
    schemas; a fresh application id and the current date are parameters. */
module BackendApplications {
  import opened Common
  import opened JobSchema
  import opened UserSchema
  import DataHelpers

  /** A row of a job's applicant list, joined with the student document. */
  datatype ApplicantRow = ApplicantRow(
    id: string, studentId: string, studentName: string, studentMajor: string,
    studentEmail: string, studentResume: string, appliedDate: int, status: string,
    coverLetter: string)

  datatype Listing = ByStudent(entries: seq<DataHelpers.StudentEntry>) | ByJob(rows: seq<ApplicantRow>)

  /** `a || 'fallback'` on an optional string field. */
  function OrDefault(o: Option<string>, fallback: string): string {
    if o.Some? && o.value != "" then o.value else fallback
  }

  /** The row for one application once the student id is populated. */
  function RowFor(app: Application, u: User): (row: ApplicantRow)
    ensures row.id == app.id && row.studentId == u.id && row.studentName == u.name
    ensures row.studentEmail == u.email && row.status == app.status
    ensures row.appliedDate == app.appliedDate && row.coverLetter == app.coverLetter
    ensures row.studentMajor == (if u.major.Some? && u.major.value != "" then u.major.value else "Unknown")
    ensures row.studentResume == (if u.resume.Some? && u.resume.value != "" then u.resume.value else "")
  {
    ApplicantRow(app.id, u.id, u.name, OrDefault(u.major, "Unknown"), u.email,
                 OrDefault(u.resume, ""), app.appliedDate, app.status, app.coverLetter)
  }

  predicate AllStudentsExist(apps: seq<Application>, users: seq<User>) {
    forall i :: 0 <= i < |apps| ==> FindUserById(users, apps[i].studentId).Some?
  }

  /** `populate('applications.studentId')` followed by the map: a student
      that no longer exists populates to null, and reading its `_id`
      throws, so the whole listing fails. */
  function PopulatedRows(apps: seq<Application>, users: seq<User>): (r: Option<seq<ApplicantRow>>)
    ensures r.Some? <==> AllStudentsExist(apps, users)
    ensures r.Some? ==> (|r.value| == |apps|
              && forall i :: 0 <= i < |apps| ==>
                   r.value[i] == RowFor(apps[i], users[FindUserById(users, apps[i].studentId).value]))
  {
    if apps == [] then Some([])
    else match FindUserById(users, apps[0].studentId)
      case None => None
      case Some(k) =>
        match PopulatedRows(apps[1..], users)
        case None => None
        case Some(rest) => Some([RowFor(apps[0], users[k])] + rest)
  }

  /** The student listing: the jobs holding an application by `student`,
      each contributing the row built from its first such application. */
  method ListByStudent(db: JobCollection, student: string) returns (r: seq<DataHelpers.StudentEntry>)
    ensures r == DataHelpers.ApplicationsByStudent(db.jobs, student)
  {
    var jobs := db.jobs;
    r := [];
    var i := 0;
    while i < |jobs|
      invariant 0 <= i <= |jobs|
      invariant r == DataHelpers.ApplicationsByStudent(jobs[..i], student)
    {
      var job := jobs[i];
      var found := FindApplicationOf(job.applications, student);
      DataHelpers.ApplicationsByStudentStep(jobs, i, student);
      if found.Some? {
        var app := job.applications[found.value];
        var entry := DataHelpers.StudentEntry(job.id, job.title, job.company, app.appliedDate, app.status);
        DataHelpers.EntryForFound(job, student);
        r := r + [entry];
      }
      i := i + 1;
    }
    assert jobs[..i] == jobs;
  }

  /** GET: `student` first, then `job`, otherwise 400. */
  method Get(db: JobCollection, users: UserCollection, student: string, job: string)
    returns (r: Response<Listing>)
    ensures student != "" ==> r == Ok(200, ByStudent(DataHelpers.ApplicationsByStudent(db.jobs, student)))
    ensures student == "" && job != "" && FindJob(db.jobs, job).None? ==> r == Error(404, "Job not found")
    ensures student == "" && job != "" && FindJob(db.jobs, job).Some? ==>
              var apps := db.jobs[FindJob(db.jobs, job).value].applications;
              (AllStudentsExist(apps, users.users) ==>
                 r == Ok(200, ByJob(PopulatedRows(apps, users.users).value)))
              && (!AllStudentsExist(apps, users.users) ==> r == Error(500, "Internal server error"))
    ensures student == "" && job == "" ==> r == Error(400, "Student ID or Job ID is required")
  {
    if student != "" {
      var entries := ListByStudent(db, student);
      return Ok(200, ByStudent(entries));
    }
    if job == "" {
      return Error(400, "Student ID or Job ID is required");
    }
    var found := FindJob(db.jobs, job);
    if found.None? {
      return Error(404, "Job not found");
    }
    var rows := PopulatedRows(db.jobs[found.value].applications, users.users);
    if rows.None? {
      return Error(500, "Internal server error");
    }
    r := Ok(200, ByJob(rows.value));
  }

  /** No application in any job carries this id yet (a new ObjectId). */
  predicate FreshApplicationId(jobs: seq<Job>, id: string) {
    id != "" && forall i, m :: 0 <= i < |jobs| && 0 <= m < |jobs[i].applications| ==>
      jobs[i].applications[m].id != id
  }

  /** POST: apply for a job. */
  method Apply(db: JobCollection, users: UserCollection, jobId: string, studentId: string,
               coverLetter: string, freshId: string, now: int)
    returns (r: Response<Application>)
    requires db.Valid() && users.Valid() && FreshApplicationId(db.jobs, freshId)
    modifies db
    ensures db.Valid()
    ensures jobId == "" || studentId == "" ==> r == Error(400, "Job ID and Student ID are required")
    ensures jobId != "" && studentId != "" && FindJob(old(db.jobs), jobId).None? ==>
              r == Error(404, "Job not found")
    ensures jobId != "" && studentId != "" && FindJob(old(db.jobs), jobId).Some?
            && HasApplied(old(db.jobs)[FindJob(old(db.jobs), jobId).value].applications, studentId) ==>
              r == Error(400, "Already applied for this job")
    ensures jobId != "" && studentId != "" && FindJob(old(db.jobs), jobId).Some?
            && !HasApplied(old(db.jobs)[FindJob(old(db.jobs), jobId).value].applications, studentId)
            && FindUserById(users.users, studentId).None? ==>
              r == Error(404, "Student not found")
    ensures r.Ok? <==>
              jobId != "" && studentId != "" && FindJob(old(db.jobs), jobId).Some?
              && !HasApplied(old(db.jobs)[FindJob(old(db.jobs), jobId).value].applications, studentId)
              && FindUserById(users.users, studentId).Some?
    ensures r.Ok? ==>
              FindJob(old(db.jobs), jobId).Some? && FindUserById(users.users, studentId).Some?
              && var k := FindJob(old(db.jobs), jobId).value;
                 var job := old(db.jobs)[k];
                 var u := users.users[FindUserById(users.users, studentId).value];
                 !HasApplied(job.applications, studentId)
                 && r == Ok(201, NewApplication(freshId, studentId, u.name, u.email, now, coverLetter))
                 && db.jobs == old(db.jobs)[k := job.(applications := job.applications + [r.body])]
    ensures r.Error? ==> db.jobs == old(db.jobs)
  {
    if jobId == "" || studentId == "" {
      return Error(400, "Job ID and Student ID are required");
    }
    var found := FindJob(db.jobs, jobId);
    if found.None? {
      return Error(404, "Job not found");
    }
    var k := found.value;
    var job := db.jobs[k];
    var existing := FindApplicationOf(job.applications, studentId);
    if existing.Some? {
      return Error(400, "Already applied for this job");
    }
    var who := FindUserById(users.users, studentId);
    if who.None? {
      return Error(404, "Student not found");
    }
    var u := users.users[who.value];
    ValidUserHasNameAndEmail(u);
    var app := NewApplication(freshId, studentId, u.name, u.email, now, coverLetter);
    AppendKeepsNoDuplicates(job.applications, app);
    AppendKeepsJobValid(job, app);
    var job2 := job.(applications := job.applications + [app]);
    ReplaceKeepsStoreValid(db.jobs, k, job2);
    db.jobs := db.jobs[k := job2];
    r := Ok(201, app);
  }

  const StatusError: string :=
    "Invalid status. Must be one of: Pending, Reviewed, Interview, Accepted, Rejected"

  /** PUT: set the status of one application. */
  method SetStatus(db: JobCollection, applicationId: string, jobId: string, status: string)
    returns (r: Response<Application>)
    requires db.Valid()
    modifies db
    ensures db.Valid()
    ensures applicationId == "" || jobId == "" || status == "" ==>
              r == Error(400, "Application ID, Job ID, and status are required")
    ensures applicationId != "" && jobId != "" && status != "" && !ValidStatus(status) ==>
              r == Error(400, StatusError)
    ensures applicationId != "" && jobId != "" && ValidStatus(status) && FindJob(old(db.jobs), jobId).None? ==>
              r == Error(404, "Job not found")
    ensures applicationId != "" && jobId != "" && ValidStatus(status) && FindJob(old(db.jobs), jobId).Some?
            && FindApplicationById(old(db.jobs)[FindJob(old(db.jobs), jobId).value].applications,
                                   applicationId).None? ==>
              r == Error(404, "Application not found")
    ensures r.Ok? <==>
              applicationId != "" && jobId != "" && ValidStatus(status) && FindJob(old(db.jobs), jobId).Some?
              && FindApplicationById(old(db.jobs)[FindJob(old(db.jobs), jobId).value].applications,
                                     applicationId).Some?
    ensures r.Ok? ==>
              ValidStatus(status) && FindJob(old(db.jobs), jobId).Some?
              && var k := FindJob(old(db.jobs), jobId).value;
                 var job := old(db.jobs)[k];
                 FindApplicationById(job.applications, applicationId).Some?
                 && var m := FindApplicationById(job.applications, applicationId).value;
                    var updated := job.applications[m].(status := status);
                    r == Ok(200, updated)
                    && db.jobs == old(db.jobs)[k := job.(applications := job.applications[m := updated])]
    ensures r.Error? ==> db.jobs == old(db.jobs)
  {
    if applicationId == "" || jobId == "" || status == "" {
      return Error(400, "Application ID, Job ID, and status are required");
    }
    if !(status in StatusNames) {
      return Error(400, StatusError);
    }
    var found := FindJob(db.jobs, jobId);
    if found.None? {
      return Error(404, "Job not found");
    }
    var k := found.value;
    var job := db.jobs[k];
    var at := FindApplicationById(job.applications, applicationId);
    if at.None? {
      return Error(404, "Application not found");
    }
    var m := at.value;
    var updated := job.applications[m].(status := status);
    SetStatusKeepsNoDuplicates(job.applications, m, status);
    SetStatusKeepsJobValid(job, m, status);
    var job2 := job.(applications := job.applications[m := updated]);
    ReplaceKeepsStoreValid(db.jobs, k, job2);
    db.jobs := db.jobs[k := job2];
    r := Ok(200, updated);
  }

  /** Any current status can move to any of the five: the update is not a
      state machine. */
  lemma AnyStatusReachable(a: Application, s: Status)
    requires ApplicationValid(a)
    ensures ApplicationValid(a.(status := StatusName(s)))
  {
    ParseStatusName(s);
  }
}
