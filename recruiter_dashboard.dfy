/** The recruiter's overview (app/dashboard/recruiter/page.js): the stat
    cards computed from the recruiter's jobs and the three most recent ones
    (`Common.Recent`).
    The count of applications from the last seven days reads the wall
    clock and is not part of this model. */
module RecruiterDashboard {
  import opened Common
  import opened JobSchema
  import ApplicantsPage

  function AppStatus(): Application -> string {
    (a: Application) => a.status
  }

  /** The `reduce` over exact `Pending` matches, folded from the left. */
  function PendingApplications(jobs: seq<Job>): nat {
    if jobs == [] then 0
    else PendingApplications(jobs[..|jobs| - 1])
         + CountStatus(jobs[|jobs| - 1].applications, AppStatus(), "Pending")
  }

  /** No more pending applications than applications. */
  lemma {:induction false} PendingAtMostTotal(jobs: seq<Job>)
    ensures PendingApplications(jobs) <= TotalApplications(jobs)
    decreases |jobs|
  {
    if jobs != [] {
      PendingAtMostTotal(jobs[..|jobs| - 1]);
    }
  }

  /** The dashboard's pending count is the Pending card of the applicant
      list built from the same jobs. */
  lemma {:induction false} PendingMatchesApplicantList(jobs: seq<Job>)
    ensures PendingApplications(jobs)
         == CountStatus(ApplicantsPage.Flatten(jobs), ApplicantsPage.RowStatus(), "Pending")
    decreases |jobs|
  {
    if jobs != [] {
      var init, last := jobs[..|jobs| - 1], jobs[|jobs| - 1];
      PendingMatchesApplicantList(init);
      CountStatusAppend(ApplicantsPage.Flatten(init), ApplicantsPage.Tagged(last),
                        ApplicantsPage.RowStatus(), "Pending");
      CountStatusMap(last.applications, ApplicantsPage.TagWith(last), ApplicantsPage.RowStatus(),
                     AppStatus(), "Pending");
    }
  }

  datatype Stats = Stats(totalJobs: nat, totalApplications: nat, pendingApplications: nat)

  /** The three stat cards: one job count, one row per application of the
      applicant list, and a pending count bounded by that total. */
  function DashboardStats(jobs: seq<Job>): (s: Stats)
    ensures s.totalJobs == |jobs|
    ensures s.totalApplications == |ApplicantsPage.Flatten(jobs)|
    ensures s.pendingApplications <= s.totalApplications
    ensures s.pendingApplications
         == CountStatus(ApplicantsPage.Flatten(jobs), ApplicantsPage.RowStatus(), "Pending")
  {
    ApplicantsPage.FlattenLength(jobs);
    PendingAtMostTotal(jobs);
    PendingMatchesApplicantList(jobs);
    Stats(|jobs|, TotalApplications(jobs), PendingApplications(jobs))
  }
}
