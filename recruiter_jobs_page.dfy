/** The recruiter's job list (app/dashboard/recruiter/jobs/page.js): the
    popularity badge of each job, the local removal after a delete, and
    the summary cards. */
module RecruiterJobsPage {
  import opened Common
  import opened JobSchema

  datatype Badge = NoApplications | FewApplications | Popular

  function BadgeText(b: Badge): string {
    match b
    case NoApplications => "No Applications"
    case FewApplications => "Few Applications"
    case Popular => "Popular"
  }

  /** `getStatusBadge`: none, fewer than five, or five and more. */
  function StatusBadge(j: Job): (b: Badge)
    ensures b == NoApplications <==> |j.applications| == 0
    ensures b == FewApplications <==> 1 <= |j.applications| < 5
    ensures b == Popular <==> |j.applications| >= 5
  {
    var n := |j.applications|;
    if n == 0 then NoApplications else if n < 5 then FewApplications else Popular
  }

  function Rank(b: Badge): nat {
    match b
    case NoApplications => 0
    case FewApplications => 1
    case Popular => 2
  }

  /** More applications never give a lower badge. */
  lemma BadgeMonotone(j: Job, k: Job)
    requires |j.applications| <= |k.applications|
    ensures Rank(StatusBadge(j)) <= Rank(StatusBadge(k))
  {
  }

  function IdIsNot(id: string): Job -> bool {
    (j: Job) => j.id != id
  }

  /** `handleDeleteJob` once the request has settled: on an ok response
      every job with the id goes and the others stay in order; otherwise
      the list is unchanged. */
  function DeleteJobLocally(jobs: seq<Job>, id: string, ok: bool): (r: seq<Job>)
    ensures !ok ==> r == jobs
    ensures ok ==> IsSubseq(r, jobs)
    ensures ok ==> forall j :: j in r <==> j in jobs && j.id != id
  {
    FilterEach(jobs, IdIsNot(id));
    FilterIsSubseq(jobs, IdIsNot(id));
    if ok then Filter(jobs, IdIsNot(id)) else jobs
  }

  /** Removing jobs never raises the application total. */
  lemma {:induction false} FilterLowersTotal(jobs: seq<Job>, p: Job -> bool)
    ensures TotalApplications(Filter(jobs, p)) <= TotalApplications(jobs)
    decreases |jobs|
  {
    if jobs != [] {
      FilterLowersTotal(jobs[1..], p);
      assert jobs == [jobs[0]] + jobs[1..];
      TotalApplicationsAppend([jobs[0]], jobs[1..]);
      TotalApplicationsAppend(if p(jobs[0]) then [jobs[0]] else [], Filter(jobs[1..], p));
    }
  }

  lemma DeleteLowersTotal(jobs: seq<Job>, id: string, ok: bool)
    ensures TotalApplications(DeleteJobLocally(jobs, id, ok)) <= TotalApplications(jobs)
  {
    FilterLowersTotal(jobs, IdIsNot(id));
  }

  /** The average card: `Math.round(total / jobs.length)`, or 0 with no
      jobs. The quotient is non-negative, so rounding is half up: the
      result is the integer nearest to the quotient. */
  function AverageApplications(jobs: seq<Job>): (avg: nat)
    ensures |jobs| == 0 ==> avg == 0
    ensures |jobs| > 0 ==>
              (2 * avg - 1) * |jobs| <= 2 * TotalApplications(jobs) < (2 * avg + 1) * |jobs|
  {
    if |jobs| == 0 then 0
    else
      var n, t := |jobs|, TotalApplications(jobs);
      var q := (2 * t + n) / (2 * n);
      DivBounds(2 * t + n, 2 * n);
      q
  }

  lemma DivBounds(a: nat, b: nat)
    requires b > 0
    ensures (a / b) * b <= a < (a / b + 1) * b
  {
  }
}
