/** The administrator's overview: the initial counters, the displayed first
    name, the stats fetch and the CSV report's file name. The greeting is
    `Dashboard.Greeting`, with the same thresholds. */
module AdminDashboard {
  import opened Text
  import opened AuthContext

  datatype AdminStats = AdminStats(totalUsers: int, totalUrls: int, totalClicks: int)

  const InitialStats: AdminStats := AdminStats(0, 0, 0)

  /** `user?.full_name?.split(' ')[0] || 'Admin'`. */
  function FirstName(user: Option<UserInfo>): (name: string)
    ensures name != ""
    ensures user.Some? && user.value.fullName.Some? && BeforeFirst(user.value.fullName.value, ' ') != "" ==>
      name == BeforeFirst(user.value.fullName.value, ' ')
    ensures user.None? || user.value.fullName.None? || BeforeFirst(user.value.fullName.value, ' ') == "" ==>
      name == "Admin"
  {
    FirstPieceOr(if user.Some? then user.value.fullName else None, ' ', "Admin")
  }

  /** `shawty_report_${iso.split('T')[0]}.csv`. */
  function ReportFilename(iso: string): (f: string)
    ensures |f| >= |"shawty_report_.csv"|
    ensures f[..14] == "shawty_report_" && f[|f| - 4..] == ".csv"
    ensures 'T' !in f[14..|f| - 4]
  {
    var r := "shawty_report_" + BeforeFirst(iso, 'T') + ".csv";
    assert r[14..|r| - 4] == BeforeFirst(iso, 'T');
    r
  }

  /** For an ISO timestamp (a date, 'T', the time) the file is named after
      the date alone. */
  lemma ReportNamedByDate(date: string, time: string)
    requires 'T' !in date
    ensures ReportFilename(date + "T" + time) == "shawty_report_" + date + ".csv"
  {
    BeforeFirstOfJoin(date, 'T', time);
  }

  class Page {
    var stats: AdminStats
    var loading: bool

    constructor ()
      ensures stats == InitialStats && loading
    {
      stats, loading := InitialStats, true;
    }

    /** The fetch on mount settled: a reply replaces the counters, a
        failure keeps the zeros; loading ends either way. */
    method FinishFetch(reply: Option<AdminStats>)
      modifies this
      ensures !loading
      ensures stats == reply.GetOr(old(stats))
    {
      if reply.Some? {
        stats := reply.value;
      }
      loading := false;
    }
  }

  /** `handleDownloadReport` once the download settled: the file name it
      saves under, or the alert. */
  method DownloadReport(downloaded: bool, isoNow: string) returns (saveAs: Option<string>, alert: Option<string>)
    ensures downloaded ==> saveAs == Some(ReportFilename(isoNow)) && alert.None?
    ensures !downloaded ==> saveAs.None? && alert == Some("Failed to download report")
  {
    if downloaded {
      saveAs, alert := Some(ReportFilename(isoNow)), None;
    } else {
      saveAs, alert := None, Some("Failed to download report");
    }
  }
}
