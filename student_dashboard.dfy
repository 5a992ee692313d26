/** The student's overview (app/dashboard/student/page.js): the stat
    cards over the student's applications, the three most recent ones
    (`Common.Recent`), and the badge of each. The page names the interview status
    `Interview Scheduled`, which no writer of applications ever stores:
    the stores and the recruiter's buttons use `Interview`. Both readings
    are modelled; the rest of the model uses the one that matches the
    stored status. */
module StudentDashboard {
  import opened Common
  import opened JobSchema
  import opened DataHelpers

  function EntryStatus(): StudentEntry -> string {
    (e: StudentEntry) => e.status
  }

  datatype Stats = Stats(total: nat, pending: nat, accepted: nat, rejected: nat)

  /** The three statuses the cards count: pending, the interview status
      the page names, and rejected. */
  function StatsFor(apps: seq<StudentEntry>, interview: string): (s: Stats)
    requires interview != "Pending" && interview != "Rejected"
    ensures s.total == |apps|
    ensures s.pending == CountStatus(apps, EntryStatus(), "Pending")
    ensures s.accepted == CountStatus(apps, EntryStatus(), interview)
    ensures s.rejected == CountStatus(apps, EntryStatus(), "Rejected")
    ensures s.pending + s.accepted + s.rejected <= s.total
    ensures (exists i :: 0 <= i < |apps| && apps[i].status !in ["Pending", interview, "Rejected"]) ==>
              s.pending + s.accepted + s.rejected < s.total
  {
    var sts := ["Pending", interview, "Rejected"];
    var f := EntryStatus();
    var s := Stats(|apps|, CountStatus(apps, f, "Pending"), CountStatus(apps, f, interview),
                   CountStatus(apps, f, "Rejected"));
    assert sts[2..][1..] == [];
    assert SumCounts(apps, f, sts[2..]) == s.rejected;
    assert sts[1..][1..] == sts[2..];
    assert SumCounts(apps, f, sts) == s.pending + s.accepted + s.rejected;
    SumCountsBound(apps, f, sts);
    s
  }

  /** The stats as the page computes them, with `Interview Scheduled`. */
  function StatsAsWritten(apps: seq<StudentEntry>): Stats
  {
    StatsFor(apps, "Interview Scheduled")
  }

  /** Over statuses the backend accepts the "accepted" card is always 0,
      even for applications in Interview. */
  lemma AcceptedAsWrittenIsZero(apps: seq<StudentEntry>)
    requires forall i :: 0 <= i < |apps| ==> ValidStatus(apps[i].status)
    ensures StatsAsWritten(apps).accepted == 0
  {
    CountStatusAbsent(apps, EntryStatus(), "Interview Scheduled");
  }

  /** The stats with the stored interview status. */
  function DashboardStats(apps: seq<StudentEntry>): Stats
  {
    StatsFor(apps, StatusName(Interview))
  }

  /** The corrected "accepted" card is positive exactly when some
      application is in Interview. */
  lemma AcceptedCountsInterviews(apps: seq<StudentEntry>)
    ensures DashboardStats(apps).accepted > 0 <==>
              exists i :: 0 <= i < |apps| && apps[i].status == "Interview"
  {
    if forall i :: 0 <= i < |apps| ==> apps[i].status != "Interview" {
      CountStatusAbsent(apps, EntryStatus(), "Interview");
    } else {
      var i :| 0 <= i < |apps| && apps[i].status == "Interview";
      CountStatusPresent(apps, EntryStatus(), "Interview", i);
    }
  }

  lemma {:induction false} CountStatusPresent(s: seq<StudentEntry>, status: StudentEntry -> string,
                                              st: string, i: nat)
    requires i < |s| && status(s[i]) == st
    ensures CountStatus(s, status, st) > 0
    decreases i
  {
    if i > 0 {
      CountStatusPresent(s[1..], status, st, i - 1);
    }
  }

  // ---------------------------------------------------------------------
  // Badge
  // ---------------------------------------------------------------------

  datatype Badge = InterviewBadge | PendingBadge | RejectedBadge

  /** The label shown for each badge. */
  function BadgeText(b: Badge): string {
    match b
    case InterviewBadge => "\U{1F389} Interview!"
    case PendingBadge => "\U{23F3} Pending"
    case RejectedBadge => "\U{274C} Rejected"
  }

  /** The variant, chosen by the same tests as the label. */
  function BadgeVariant(b: Badge): string {
    match b
    case InterviewBadge => "default"
    case PendingBadge => "secondary"
    case RejectedBadge => "destructive"
  }

  /** The badge for an interview status name: that name is the interview
      badge, Pending is pending, and every other status, Reviewed and
      Accepted included, shows as rejected. */
  function BadgeFor(status: string, interview: string): (b: Badge)
    requires interview != "Pending"
    ensures b == InterviewBadge <==> status == interview
    ensures b == PendingBadge <==> status == "Pending"
    ensures b == RejectedBadge <==> status != interview && status != "Pending"
  {
    if status == interview then InterviewBadge
    else if status == "Pending" then PendingBadge
    else RejectedBadge
  }

  /** The badge as the page computes it, with `Interview Scheduled`. */
  function BadgeAsWritten(status: string): Badge
  {
    BadgeFor(status, "Interview Scheduled")
  }

  /** An application the recruiter moved to Interview shows the rejected
      badge on the dashboard as written. */
  lemma InterviewShownAsRejected()
    ensures ValidStatus("Interview")
    ensures BadgeAsWritten("Interview") == RejectedBadge
    ensures BadgeText(BadgeAsWritten("Interview")) == "\U{274C} Rejected"
  {
  }

  /** The badge with the stored interview status. */
  function StatusBadge(status: string): Badge
  {
    BadgeFor(status, StatusName(Interview))
  }

  /** With the stored name the interview badge marks exactly the
      applications the corrected "accepted" card counts. */
  lemma BadgeMatchesCard(apps: seq<StudentEntry>)
    ensures DashboardStats(apps).accepted > 0 <==>
              exists i :: 0 <= i < |apps| && StatusBadge(apps[i].status) == InterviewBadge
  {
    AcceptedCountsInterviews(apps);
  }
}
