/** The student's application list (app/dashboard/student/applications/page.js):
    a badge per application, the header count, and three status cards
    shown only for a non-empty list. */
module StudentApplicationsPage {
  import opened Common
  import opened JobSchema
  import opened DataHelpers

  datatype Badge = Badge(variant: string, text: string)

  const NamedStatuses: seq<string> := ["Pending", "Interview Scheduled", "Rejected"]

  /** `getStatusBadge`: three named badges and an outlined default. Every
      badge reads its status's own text, so a status the switch does not
      name is still shown as is. */
  function StatusBadge(status: string): (b: Badge)
    ensures b.text == status
    ensures b.variant == "outline" <==> status !in NamedStatuses
    ensures status == "Pending" ==> b.variant == "secondary"
    ensures status == "Interview Scheduled" ==> b.variant == "default"
    ensures status == "Rejected" ==> b.variant == "destructive"
  {
    match status
    case "Pending" => Badge("secondary", "Pending")
    case "Interview Scheduled" => Badge("default", "Interview Scheduled")
    case "Rejected" => Badge("destructive", "Rejected")
    case _ => Badge("outline", status)
  }

  function EntryStatus(): StudentEntry -> string {
    (e: StudentEntry) => e.status
  }

  datatype Summary = Summary(header: nat, showStatistics: bool, pending: nat, interview: nat, rejected: nat)

  /** The header count, whether the statistics show, and the three cards'
      exact-match counts, which never exceed the header count. */
  function Summarize(apps: seq<StudentEntry>): (s: Summary)
    ensures s.header == |apps|
    ensures s.showStatistics <==> |apps| > 0
    ensures s.pending == CountStatus(apps, EntryStatus(), "Pending")
    ensures s.interview == CountStatus(apps, EntryStatus(), "Interview Scheduled")
    ensures s.rejected == CountStatus(apps, EntryStatus(), "Rejected")
    ensures s.pending + s.interview + s.rejected <= s.header
  {
    var f := EntryStatus();
    var sts := NamedStatuses;
    var s := Summary(|apps|, |apps| > 0, CountStatus(apps, f, "Pending"),
                     CountStatus(apps, f, "Interview Scheduled"), CountStatus(apps, f, "Rejected"));
    assert sts[2..][1..] == [];
    assert SumCounts(apps, f, sts[2..]) == s.rejected;
    assert sts[1..][1..] == sts[2..];
    assert SumCounts(apps, f, sts) == s.pending + s.interview + s.rejected;
    SumCountsBound(apps, f, sts);
    s
  }

  /** The `Interview Scheduled` card stays at 0 over stored statuses, while
      an application in Interview falls through to the default badge and
      shows its own status. */
  lemma InterviewCardOverStoredStatuses(apps: seq<StudentEntry>)
    requires forall i :: 0 <= i < |apps| ==> ValidStatus(apps[i].status)
    ensures Summarize(apps).interview == 0
    ensures StatusBadge("Interview") == Badge("outline", "Interview")
  {
    CountStatusAbsent(apps, EntryStatus(), "Interview Scheduled");
  }
}
