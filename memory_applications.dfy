/** The in-memory applications route (app/api/applications/route.js): GET
    dispatch over the data helpers, POST apply (push onto the shared jobs
    array) and PUT status update (assignment in place). The posted body
    is modelled by its fields, with the empty string for a missing one;
    the current date is a parameter. */
module MemoryApplications {
  import opened Common
  import opened JobSchema
  import opened DataHelpers

  datatype Listing = ByStudent(entries: seq<StudentEntry>) | ByJob(rows: seq<JobEntry>)

  /** GET: the `student` parameter is looked at first, then `job`. */
  function Get(jobs: seq<Job>, students: seq<Member>, student: string, job: string): (r: Response<Listing>)
    ensures student != "" ==> r == Ok(200, ByStudent(ApplicationsByStudent(jobs, student)))
    ensures student == "" && job != "" ==> r == Ok(200, ByJob(ApplicationsByJob(jobs, students, job)))
    ensures r.Error? <==> student == "" && job == ""
    ensures r.Error? ==> r == Error(400, "Student ID or Job ID is required")
  {
    if student != "" then Ok(200, ByStudent(ApplicationsByStudent(jobs, student)))
    else if job != "" then Ok(200, ByJob(ApplicationsByJob(jobs, students, job)))
    else Error(400, "Student ID or Job ID is required")
  }

  /** The entry POST pushes: no id, no name, email or cover letter. */
  function PushedApplication(studentId: string, today: int): (a: Application)
    ensures a.id == "" && a.studentId == studentId && a.appliedDate == today
    ensures a.status == DefaultStatus
  {
    Application("", studentId, "", "", today, "Pending", "")
  }

  /** POST: apply for a job. */
  method Post(store: MemoryStore, jobId: string, studentId: string, today: int)
    returns (r: Response<Application>)
    requires store.Valid()
    modifies store
    ensures store.Valid()
    ensures jobId == "" || studentId == "" ==>
              r == Error(400, "Job ID and Student ID are required") && store.jobs == old(store.jobs)
    ensures jobId != "" && studentId != "" && FindJob(old(store.jobs), jobId).None? ==>
              r == Error(404, "Job not found") && store.jobs == old(store.jobs)
    ensures jobId != "" && studentId != "" && FindJob(old(store.jobs), jobId).Some?
            && HasApplied(old(store.jobs)[FindJob(old(store.jobs), jobId).value].applications, studentId) ==>
              r == Error(400, "Already applied for this job") && store.jobs == old(store.jobs)
    ensures r.Ok? <==>
              jobId != "" && studentId != "" && FindJob(old(store.jobs), jobId).Some?
              && !HasApplied(old(store.jobs)[FindJob(old(store.jobs), jobId).value].applications, studentId)
    ensures r.Ok? ==>
              jobId != "" && studentId != "" && FindJob(old(store.jobs), jobId).Some?
              && var k := FindJob(old(store.jobs), jobId).value;
                 var job := old(store.jobs)[k];
                 !HasApplied(job.applications, studentId)
                 && r == Ok(201, PushedApplication(studentId, today))
                 && store.jobs == old(store.jobs)[k := job.(applications := job.applications + [r.body])]
    ensures r.Error? ==> store.jobs == old(store.jobs)
  {
    if jobId == "" || studentId == "" {
      return Error(400, "Job ID and Student ID are required");
    }
    var found := FindJob(store.jobs, jobId);
    if found.None? {
      return Error(404, "Job not found");
    }
    var k := found.value;
    var job := store.jobs[k];
    var existing := FindApplicationOf(job.applications, studentId);
    if existing.Some? {
      return Error(400, "Already applied for this job");
    }
    var app := PushedApplication(studentId, today);
    AppendKeepsNoDuplicates(job.applications, app);
    store.jobs := store.jobs[k := job.(applications := job.applications + [app])];
    r := Ok(201, app);
  }

  /** PUT: overwrite the status of an application, with no check of the
      value. */
  method Put(store: MemoryStore, applicationId: string, jobId: string, status: string)
    returns (r: Response<Application>)
    requires store.Valid()
    modifies store
    ensures store.Valid()
    ensures applicationId == "" || jobId == "" || status == "" ==>
              r == Error(400, "Application ID, Job ID, and status are required")
    ensures applicationId != "" && jobId != "" && status != "" && FindJob(old(store.jobs), jobId).None? ==>
              r == Error(404, "Job not found")
    ensures applicationId != "" && jobId != "" && status != "" && FindJob(old(store.jobs), jobId).Some?
            && FindApplicationById(old(store.jobs)[FindJob(old(store.jobs), jobId).value].applications,
                                   applicationId).None? ==>
              r == Error(404, "Application not found")
    ensures r.Ok? <==>
              applicationId != "" && jobId != "" && status != "" && FindJob(old(store.jobs), jobId).Some?
              && FindApplicationById(old(store.jobs)[FindJob(old(store.jobs), jobId).value].applications,
                                     applicationId).Some?
    ensures r.Ok? ==>
              FindJob(old(store.jobs), jobId).Some?
              && var k := FindJob(old(store.jobs), jobId).value;
                 var job := old(store.jobs)[k];
                 FindApplicationById(job.applications, applicationId).Some?
                 && var m := FindApplicationById(job.applications, applicationId).value;
                    var updated := job.applications[m].(status := status);
                    r == Ok(200, updated)
                    && store.jobs == old(store.jobs)[k := job.(applications := job.applications[m := updated])]
    ensures r.Error? ==> store.jobs == old(store.jobs)
  {
    if applicationId == "" || jobId == "" || status == "" {
      return Error(400, "Application ID, Job ID, and status are required");
    }
    var found := FindJob(store.jobs, jobId);
    if found.None? {
      return Error(404, "Job not found");
    }
    var k := found.value;
    var job := store.jobs[k];
    var at := FindApplicationById(job.applications, applicationId);
    if at.None? {
      return Error(404, "Application not found");
    }
    var m := at.value;
    var updated := job.applications[m].(status := status);
    SetStatusKeepsNoDuplicates(job.applications, m, status);
    store.jobs := store.jobs[k := job.(applications := job.applications[m := updated])];
    r := Ok(200, updated);
  }

  /** An application that POST pushed has the empty id, which PUT rejects
      before looking: a later PUT by id finds exactly what it found before
      the push. */
  lemma {:induction false} PushedIsNeverFound(apps: seq<Application>, studentId: string, today: int,
                                              applicationId: string)
    requires applicationId != ""
    ensures FindApplicationById(apps + [PushedApplication(studentId, today)], applicationId)
         == FindApplicationById(apps, applicationId)
  {
    if apps != [] {
      assert (apps + [PushedApplication(studentId, today)])[1..] == apps[1..] + [PushedApplication(studentId, today)];
      PushedIsNeverFound(apps[1..], studentId, today, applicationId);
    }
  }
}
