/** The job and embedded application documents (backend/models/Job.js):
    the status and job-type enumerations, the required fields and the
    defaults, and the job collection that the backend routes update. */
module JobSchema {
  import opened Common

  // ---------------------------------------------------------------------
  // Application status
  // ---------------------------------------------------------------------

  datatype Status = Pending | Reviewed | Interview | Accepted | Rejected

  function StatusName(s: Status): string {
    match s
    case Pending => "Pending"
    case Reviewed => "Reviewed"
    case Interview => "Interview"
    case Accepted => "Accepted"
    case Rejected => "Rejected"
  }

  function ParseStatus(t: string): Option<Status> {
    if t == "Pending" then Some(Pending)
    else if t == "Reviewed" then Some(Reviewed)
    else if t == "Interview" then Some(Interview)
    else if t == "Accepted" then Some(Accepted)
    else if t == "Rejected" then Some(Rejected)
    else None
  }

  /** The enumeration, in the order the schema lists it. */
  const StatusNames: seq<string> := ["Pending", "Reviewed", "Interview", "Accepted", "Rejected"]

  /** What a newly created application is given. */
  const DefaultStatus: string := "Pending"

  predicate ValidStatus(t: string) {
    t in StatusNames
  }

  /** Every status has a name that parses back to it. */
  lemma ParseStatusName(s: Status)
    ensures ParseStatus(StatusName(s)) == Some(s)
    ensures ValidStatus(StatusName(s))
  {}

  /** A string parses exactly when it is one of the five names, and then
      to the status with that name. */
  lemma ParseStatusExact(t: string)
    ensures ParseStatus(t).Some? <==> ValidStatus(t)
    ensures ParseStatus(t).Some? ==> StatusName(ParseStatus(t).value) == t
  {}

  lemma DefaultStatusValid()
    ensures ValidStatus(DefaultStatus) && ParseStatus(DefaultStatus) == Some(Pending)
  {}

  // ---------------------------------------------------------------------
  // Job type
  // ---------------------------------------------------------------------

  datatype JobType = FullTime | PartTime | Contract | Internship

  function JobTypeName(t: JobType): string {
    match t
    case FullTime => "Full-time"
    case PartTime => "Part-time"
    case Contract => "Contract"
    case Internship => "Internship"
  }

  const JobTypeNames: seq<string> := ["Full-time", "Part-time", "Contract", "Internship"]

  predicate ValidJobType(t: string) {
    t in JobTypeNames
  }

  function ParseJobType(t: string): Option<JobType> {
    if t == "Full-time" then Some(FullTime)
    else if t == "Part-time" then Some(PartTime)
    else if t == "Contract" then Some(Contract)
    else if t == "Internship" then Some(Internship)
    else None
  }

  lemma ParseJobTypeExact(t: string)
    ensures ParseJobType(t).Some? <==> ValidJobType(t)
    ensures ParseJobType(t).Some? ==> JobTypeName(ParseJobType(t).value) == t
  {}

  lemma ParseJobTypeName(t: JobType)
    ensures ParseJobType(JobTypeName(t)) == Some(t)
  {}

  // ---------------------------------------------------------------------
  // Documents
  // ---------------------------------------------------------------------

  /** An application embedded in a job. Dates are opaque ordered integers.
      A key a writer leaves unset is the empty string. */
  datatype Application = Application(
    id: string,
    studentId: string,
    studentName: string,
    studentEmail: string,
    appliedDate: int,
    status: string,
    coverLetter: string)

  /** A job posting with its ordered, embedded list of applications. */
  datatype Job = Job(
    id: string,
    title: string,
    company: string,
    description: string,
    requirements: string,
    benefits: Option<string>,
    department: Option<string>,
    jobType: string,
    location: string,
    salary: Option<string>,
    skills: seq<string>,
    postedBy: string,
    postedDate: int,
    applicationDeadline: Option<int>,
    applications: seq<Application>)

  /** The application sub-schema's validators: the three required student
      fields and the status enumeration. */
  predicate ApplicationValid(a: Application) {
    a.studentId != "" && a.studentName != "" && a.studentEmail != "" && ValidStatus(a.status)
  }

  /** The job schema's validators: the seven required fields, the type
      enumeration, and every embedded application. benefits, department,
      salary and the deadline are optional. */
  predicate JobValid(j: Job) {
    && j.title != "" && j.company != "" && j.description != ""
    && j.requirements != "" && ValidJobType(j.jobType) && j.location != ""
    && j.postedBy != ""
    && forall i :: 0 <= i < |j.applications| ==> ApplicationValid(j.applications[i])
  }

  /** The uniqueness rule the apply handlers enforce: no two applications of
      one job come from the same student. */
  predicate NoDuplicateApplicants(apps: seq<Application>) {
    forall i, j :: 0 <= i < j < |apps| ==> apps[i].studentId != apps[j].studentId
  }

  predicate HasApplied(apps: seq<Application>, studentId: string) {
    exists i :: 0 <= i < |apps| && apps[i].studentId == studentId
  }

  /** `applications.find(app => app.studentId === studentId)`. */
  function FindApplicationOf(apps: seq<Application>, studentId: string): (r: Option<nat>)
    ensures r.Some? ==> r.value < |apps| && apps[r.value].studentId == studentId
    ensures r.Some? ==> forall k :: 0 <= k < r.value ==> apps[k].studentId != studentId
    ensures r.None? <==> !HasApplied(apps, studentId)
  {
    FindFirst(apps, (a: Application) => a.studentId == studentId)
  }

  /** The first application with the given id (`applications.id(...)` and
      `applications.find(app => app.id === id)`). */
  function FindApplicationById(apps: seq<Application>, id: string): (r: Option<nat>)
    ensures r.Some? ==> r.value < |apps| && apps[r.value].id == id
    ensures r.Some? ==> forall k :: 0 <= k < r.value ==> apps[k].id != id
    ensures r.None? ==> forall k :: 0 <= k < |apps| ==> apps[k].id != id
  {
    FindFirst(apps, (a: Application) => a.id == id)
  }

  /** The first job with the given id (`findById`, `jobs.find`). */
  function FindJob(jobs: seq<Job>, id: string): (r: Option<nat>)
    ensures r.Some? ==> r.value < |jobs| && jobs[r.value].id == id
    ensures r.Some? ==> forall k :: 0 <= k < r.value ==> jobs[k].id != id
    ensures r.None? ==> forall k :: 0 <= k < |jobs| ==> jobs[k].id != id
  {
    FindFirst(jobs, (j: Job) => j.id == id)
  }

  predicate UniqueJobIds(jobs: seq<Job>) {
    forall i, j :: 0 <= i < j < |jobs| ==> jobs[i].id != jobs[j].id
  }

  /** A new application as the schema stores it: status defaults to
      Pending and the cover letter is trimmed. */
  function NewApplication(id: string, studentId: string, name: string, email: string,
                          now: int, coverLetter: string): (a: Application)
    ensures a.status == DefaultStatus && a.appliedDate == now
    ensures a.studentId == studentId && a.studentName == name && a.studentEmail == email
  {
    Application(id, studentId, name, email, now, DefaultStatus, Trim(coverLetter))
  }

  /** Appending an application of a student who has none keeps the list
      free of duplicate applicants. */
  lemma {:induction false} AppendKeepsNoDuplicates(apps: seq<Application>, a: Application)
    requires NoDuplicateApplicants(apps)
    requires !HasApplied(apps, a.studentId)
    ensures NoDuplicateApplicants(apps + [a])
  {
    var r := apps + [a];
    forall i, j | 0 <= i < j < |r| ensures r[i].studentId != r[j].studentId {
      if j == |apps| {
        assert r[i] == apps[i];
      } else {
        assert r[i] == apps[i] && r[j] == apps[j];
      }
    }
  }

  /** Overwriting the status of one application leaves every student id,
      hence the uniqueness rule, as it was. */
  lemma {:induction false} SetStatusKeepsNoDuplicates(apps: seq<Application>, k: nat, st: string)
    requires k < |apps| && NoDuplicateApplicants(apps)
    ensures NoDuplicateApplicants(apps[k := apps[k].(status := st)])
  {
    var r := apps[k := apps[k].(status := st)];
    forall i, j | 0 <= i < j < |r| ensures r[i].studentId != r[j].studentId {
      assert r[i].studentId == apps[i].studentId && r[j].studentId == apps[j].studentId;
    }
  }

  // ---------------------------------------------------------------------
  // The collection
  // ---------------------------------------------------------------------

  /** What every successful write keeps: unique non-empty ids, documents
      that pass the schema validators, and at most one application per
      student in every job. */
  predicate StoreValid(jobs: seq<Job>) {
    && UniqueJobIds(jobs)
    && forall i :: 0 <= i < |jobs| ==>
         jobs[i].id != "" && JobValid(jobs[i]) && NoDuplicateApplicants(jobs[i].applications)
  }

  /** Replacing a job by a valid document with the same id keeps the
      store valid. */
  lemma ReplaceKeepsStoreValid(jobs: seq<Job>, k: nat, j: Job)
    requires StoreValid(jobs) && k < |jobs| && j.id == jobs[k].id
    requires JobValid(j) && NoDuplicateApplicants(j.applications)
    ensures StoreValid(jobs[k := j])
  {
    var r := jobs[k := j];
    forall a, b | 0 <= a < b < |r| ensures r[a].id != r[b].id {
      assert r[a].id == jobs[a].id && r[b].id == jobs[b].id;
    }
  }

  /** Appending a valid application keeps a job valid. */
  lemma {:induction false} AppendKeepsJobValid(j: Job, a: Application)
    requires JobValid(j) && ApplicationValid(a)
    ensures JobValid(j.(applications := j.applications + [a]))
  {
    var apps := j.applications + [a];
    forall i | 0 <= i < |apps| ensures ApplicationValid(apps[i]) {
      if i < |j.applications| {
        assert apps[i] == j.applications[i];
      }
    }
  }

  /** Setting a valid status keeps a job valid. */
  lemma {:induction false} SetStatusKeepsJobValid(j: Job, m: nat, st: string)
    requires JobValid(j) && m < |j.applications| && ValidStatus(st)
    ensures JobValid(j.(applications := j.applications[m := j.applications[m].(status := st)]))
  {
    var apps := j.applications[m := j.applications[m].(status := st)];
    forall i | 0 <= i < |apps| ensures ApplicationValid(apps[i]) {
      if i != m {
        assert apps[i] == j.applications[i];
      }
    }
  }

  /** The number of applications over a list of jobs, folded from the left
      as the dashboards' `reduce` does. */
  function TotalApplications(jobs: seq<Job>): nat {
    if jobs == [] then 0
    else TotalApplications(jobs[..|jobs| - 1]) + |jobs[|jobs| - 1].applications|
  }

  /** The total of a concatenation is the sum of the totals. */
  lemma {:induction false} TotalApplicationsAppend(a: seq<Job>, b: seq<Job>)
    ensures TotalApplications(a + b) == TotalApplications(a) + TotalApplications(b)
    decreases |b|
  {
    if b == [] {
      assert a + b == a;
    } else {
      var last := |b| - 1;
      assert (a + b)[..|a + b| - 1] == a + b[..last];
      assert (a + b)[|a + b| - 1] == b[last];
      TotalApplicationsAppend(a, b[..last]);
    }
  }

  /** The `jobs` collection of the document store, in insertion order. */
  class JobCollection {
    var jobs: seq<Job>

    /** What every successful write keeps: unique non-empty ids, documents
        that pass the schema validators, and at most one application per
        student in every job. */
    ghost predicate Valid()
      reads this
    {
      StoreValid(jobs)
    }

    constructor ()
      ensures Valid() && jobs == []
    {
      jobs := [];
    }
  }
}
