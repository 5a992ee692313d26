/** The student's job browser (app/dashboard/student/jobs/page.js): the
    search over all jobs, the set of jobs already applied for, and the
    apply handler. The request itself is outside the model: `HandleApply`
    returns what it sends and takes the response's outcome as a
    parameter. */
module StudentJobsPage {
  import opened Common
  import opened JobSchema
  import opened DataHelpers

  /** The lowercased term occurs in the lowercased title, company or
      description. */
  predicate Matches(term: string, j: Job) {
    Contains(Lower(j.title), Lower(term))
    || Contains(Lower(j.company), Lower(term))
    || Contains(Lower(j.description), Lower(term))
  }

  function MatchesTerm(term: string): Job -> bool {
    (j: Job) => Matches(term, j)
  }

  /** The search effect: the jobs that match, in their original order; an
      empty term keeps every job. */
  function SearchJobs(jobs: seq<Job>, term: string): (r: seq<Job>)
    ensures IsSubseq(r, jobs)
    ensures forall j :: j in r <==> j in jobs && Matches(term, j)
    ensures term == "" ==> r == jobs
  {
    FilterEach(jobs, MatchesTerm(term));
    FilterIsSubseq(jobs, MatchesTerm(term));
    EmptyTermKeepsAll(jobs);
    Filter(jobs, MatchesTerm(term))
  }

  /** The empty term occurs in every title, so it keeps every job. */
  lemma EmptyTermKeepsAll(jobs: seq<Job>)
    ensures Filter(jobs, MatchesTerm("")) == jobs
  {
    forall i | 0 <= i < |jobs| ensures MatchesTerm("")(jobs[i]) {
      ContainsEmpty(Lower(jobs[i].title));
    }
    FilterAll(jobs, MatchesTerm(""));
  }

  /** `new Set(applications.map(app => app.jobId))`. */
  function AppliedSet(entries: seq<StudentEntry>): (s: set<string>)
    ensures forall id :: id in s <==> exists i :: 0 <= i < |entries| && entries[i].jobId == id
  {
    set i | 0 <= i < |entries| :: entries[i].jobId
  }

  /** Built from the student's application list, the set holds exactly the
      ids of the jobs holding an application by that student. */
  lemma AppliedSetOfStudent(jobs: seq<Job>, studentId: string, id: string)
    ensures id in AppliedSet(ApplicationsByStudent(jobs, studentId)) <==>
              exists k :: 0 <= k < |jobs| && jobs[k].id == id && HasApplied(jobs[k].applications, studentId)
  {
    var entries := ApplicationsByStudent(jobs, studentId);
    if id in AppliedSet(entries) {
      var i :| 0 <= i < |entries| && entries[i].jobId == id;
      assert entries[i] in entries;
      ApplicationsByStudentSound(jobs, studentId, entries[i]);
    }
    if exists k :: 0 <= k < |jobs| && jobs[k].id == id && HasApplied(jobs[k].applications, studentId) {
      var k :| 0 <= k < |jobs| && jobs[k].id == id && HasApplied(jobs[k].applications, studentId);
      ApplicationsByStudentComplete(jobs, studentId, k);
      var e := EntryFor(jobs[k], studentId);
      var i :| 0 <= i < |entries| && entries[i] == e;
    }
  }

  /** The store after a successful POST: one more application in job k. */
  function WithApplication(jobs: seq<Job>, k: nat, a: Application): (r: seq<Job>)
    requires k < |jobs|
    ensures |r| == |jobs| && r[k].applications == jobs[k].applications + [a]
    ensures forall i :: 0 <= i < |jobs| ==> r[i].id == jobs[i].id
    ensures forall i :: 0 <= i < |jobs| && i != k ==> r[i] == jobs[i]
  {
    jobs[k := jobs[k].(applications := jobs[k].applications + [a])]
  }

  /** After the POST a job holds an application by the student exactly when
      it is the job applied to or already held one. */
  lemma HasAppliedAfter(jobs: seq<Job>, k: nat, a: Application, i: nat)
    requires k < |jobs| && i < |jobs|
    ensures HasApplied(WithApplication(jobs, k, a)[i].applications, a.studentId)
        <==> i == k || HasApplied(jobs[i].applications, a.studentId)
  {
    var after := WithApplication(jobs, k, a);
    if i == k {
      var apps := after[k].applications;
      assert apps[|apps| - 1] == a;
      if HasApplied(jobs[k].applications, a.studentId) {
        var m :| 0 <= m < |jobs[k].applications| && jobs[k].applications[m].studentId == a.studentId;
        assert apps[m] == jobs[k].applications[m];
      }
    }
  }

  /** Applying in the store adds exactly that job to the set of jobs applied
      for: the page's local `add` agrees with what a reload would build. */
  lemma AppliedSetAfterApply(jobs: seq<Job>, k: nat, a: Application)
    requires k < |jobs|
    ensures AppliedSet(ApplicationsByStudent(WithApplication(jobs, k, a), a.studentId))
         == AppliedSet(ApplicationsByStudent(jobs, a.studentId)) + {jobs[k].id}
  {
    var s := a.studentId;
    var after := WithApplication(jobs, k, a);
    var lhs := AppliedSet(ApplicationsByStudent(after, s));
    var before := AppliedSet(ApplicationsByStudent(jobs, s));
    forall id ensures id in lhs <==> id in before + {jobs[k].id} {
      AppliedSetOfStudent(after, s, id);
      AppliedSetOfStudent(jobs, s, id);
      if id in lhs {
        var i :| 0 <= i < |after| && after[i].id == id && HasApplied(after[i].applications, s);
        HasAppliedAfter(jobs, k, a, i);
      }
      if id in before {
        var i :| 0 <= i < |jobs| && jobs[i].id == id && HasApplied(jobs[i].applications, s);
        HasAppliedAfter(jobs, k, a, i);
      }
      HasAppliedAfter(jobs, k, a, k);
    }
  }

  /** The settled response of the application request. */
  datatype ApplyOutcome = Created | Refused(error: string) | NetworkFailure

  const AppliedAlert: string := "Application submitted successfully!"
  const ApplyFailedAlert: string := "Failed to apply for job"

  /** The alert a refusal shows: the server's `error`, or the default. */
  function RefusalAlert(error: string): (m: string)
    ensures m != ""
    ensures error != "" ==> m == error
  {
    if error != "" then error else ApplyFailedAlert
  }

  /** The page's state. `user` is the signed-in student's id; `alerts` are
      the alert messages shown so far. */
  class BrowseJobs {
    var user: Option<string>
    var appliedJobs: set<string>
    var isApplying: bool
    var alerts: seq<string>

    /** The state once the student's applications have arrived. */
    constructor (user: Option<string>, entries: seq<StudentEntry>)
      ensures this.user == user && appliedJobs == AppliedSet(entries)
      ensures !isApplying && alerts == []
    {
      this.user := user;
      appliedJobs := AppliedSet(entries);
      isApplying := false;
      alerts := [];
    }

    /** The Apply button is shown for a job not yet applied for. */
    predicate ApplyOffered(jobId: string)
      reads this
    {
      jobId !in appliedJobs
    }

    /** `handleApply`: without a user nothing happens; otherwise the request
        (job id, student id) goes out, a created application adds the job
        to the set, every outcome shows one alert, and `isApplying` ends
        false. */
    method HandleApply(jobId: string, outcome: ApplyOutcome) returns (request: Option<(string, string)>)
      modifies this
      ensures user == old(user)
      ensures old(user).None? ==>
                request.None? && appliedJobs == old(appliedJobs) && isApplying == old(isApplying)
                && alerts == old(alerts)
      ensures old(user).Some? ==> request == Some((jobId, old(user).value)) && !isApplying
      ensures old(user).Some? && outcome.Created? ==>
                appliedJobs == old(appliedJobs) + {jobId} && alerts == old(alerts) + [AppliedAlert]
                && !ApplyOffered(jobId)
      ensures old(user).Some? && outcome.Refused? ==>
                appliedJobs == old(appliedJobs) && alerts == old(alerts) + [RefusalAlert(outcome.error)]
      ensures old(user).Some? && outcome.NetworkFailure? ==>
                appliedJobs == old(appliedJobs) && alerts == old(alerts) + [ApplyFailedAlert]
    {
      if user.None? {
        return None;
      }
      isApplying := true;
      request := Some((jobId, user.value));
      match outcome {
        case Created =>
          appliedJobs := appliedJobs + {jobId};
          alerts := alerts + [AppliedAlert];
        case Refused(error) =>
          alerts := alerts + [RefusalAlert(error)];
        case NetworkFailure =>
          alerts := alerts + [ApplyFailedAlert];
      }
      isApplying := false;
    }
  }
}
