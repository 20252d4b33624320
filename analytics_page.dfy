/** The analytics page: the figures it derives from the `/analytics/dashboard`
    reply (total clicks, average per link, the top-link card, the ranked
    lists) and its loading states. */
module AnalyticsPage {
  import opened Text
  import Service
  import Models

  /** `chart_data.reduce((acc, curr) => acc + curr.clicks, 0)`, a left fold. */
  function TotalClicks(chart: seq<Service.DayCount>): nat {
    if chart == [] then 0 else TotalClicks(chart[..|chart| - 1]) + chart[|chart| - 1].clicks
  }

  /** The first `k` entries of a gap-filled chart add up to the clicks of its
      first `k` days. */
  lemma {:induction false} ChartPrefixTotal(events: seq<Models.ClickEvent>, ids: set<int>, now: int, days: nat,
                                            chart: seq<Service.DayCount>, k: nat)
    requires |chart| == days + 1 && k <= |chart|
    requires forall i :: 0 <= i < |chart| ==> chart[i] == Service.ChartEntry(events, ids, now, days, i)
    ensures TotalClicks(chart[..k])
            == Service.SumDays(events, ids, now - days * Service.SecondsPerDay, Service.Day(now) - days, k)
  {
    if k > 0 {
      ChartPrefixTotal(events, ids, now, days, chart, k - 1);
      assert chart[..k][..k - 1] == chart[..k - 1];
      Service.DayShift(now, days - (k - 1));
      assert chart[k - 1].day == Service.Day(now) - days + k - 1;
    }
  }

  /** The page's total equals the service's count of the owner's clicks in
      the window, for every chart the service builds. */
  lemma TotalIsWindowClicks(events: seq<Models.ClickEvent>, ids: set<int>, now: int, days: nat,
                            chart: seq<Service.DayCount>)
    requires |chart| == days + 1
    requires forall i :: 0 <= i < |chart| ==> chart[i] == Service.ChartEntry(events, ids, now, days, i)
    ensures TotalClicks(chart) == Service.WindowClicks(events, ids, now - days * Service.SecondsPerDay, Service.Day(now))
  {
    ChartPrefixTotal(events, ids, now, days, chart, days + 1);
    assert chart[..days + 1] == chart;
    Service.ChartCoversWindow(events, ids, now, days);
  }

  /** `Math.round(totalClicks / top_links.length)`, or 0 without links: the
      nearest integer, halves rounded up. */
  function AveragePerLink(total: nat, links: nat): (r: nat)
    ensures links == 0 ==> r == 0
    ensures links > 0 ==> 2 * links * r <= 2 * total + links < 2 * links * (r + 1)
  {
    if links == 0 then 0
    else
      var q := (2 * total + links) / (2 * links);
      assert 2 * total + links == 2 * links * q + (2 * total + links) % (2 * links);
      q
  }

  lemma AverageExamples()
    ensures AveragePerLink(5, 2) == 3 && AveragePerLink(4, 3) == 1 && AveragePerLink(7, 0) == 0
  {
  }

  function IntText(n: int): string {
    if n < 0 then "-" + NatToString(-n) else NatToString(n)
  }

  /** The "Top Link" card: the first ranked link's path and clicks, or a
      dash and 'No data'. */
  function TopLinkCard(topLinks: seq<Models.Url>): (card: (string, string))
    ensures topLinks == [] ==> card == ("-", "No data")
    ensures topLinks != [] ==>
      card == ("/" + topLinks[0].shortCode, IntText(topLinks[0].clicks) + " clicks")
  {
    if topLinks == [] then ("-", "No data")
    else ("/" + topLinks[0].shortCode, IntText(topLinks[0].clicks) + " clicks")
  }

  /** `item.name === 'None' ? 'Direct / Unknown' : item.name`. */
  function DisplayName(name: string): (shown: string)
    ensures name == "None" ==> shown == "Direct / Unknown"
    ensures name != "None" ==> shown == name
  {
    if name == "None" then "Direct / Unknown" else name
  }

  datatype StatsView = NoDataYet | Rows(rows: seq<(string, nat)>)

  /** `StatsList`: 'No data yet' for an empty list, else one row per entry. */
  function StatsList(data: seq<Service.NameValue>): (v: StatsView)
    ensures v.NoDataYet? <==> data == []
    ensures v.Rows? ==> |v.rows| == |data|
    ensures v.Rows? ==> forall i :: 0 <= i < |data| ==> v.rows[i] == (DisplayName(data[i].name), data[i].value)
  {
    if data == [] then NoDataYet
    else Rows(seq(|data|, i requires 0 <= i < |data| => (DisplayName(data[i].name), data[i].value)))
  }

  /** A missing referrer, device or country reaches the page as the
      service's 'Direct/Unknown' and is shown as such: the page's own
      'Direct / Unknown' only replaces a stored text 'None'. */
  lemma MissingNamesKeepServiceLabel(rows: seq<(Option<string>, nat)>, i: nat)
    requires i < |rows|
    ensures var v := StatsList(Service.TopEntries(rows));
            && v.Rows?
            && (!Truthy(rows[i].0) ==> v.rows[i].0 == "Direct/Unknown")
            && (rows[i].0 == Some("None") ==> v.rows[i].0 == "Direct / Unknown")
            && v.rows[i].1 == rows[i].1
  {
  }

  datatype Screen = Skeleton | LoadFailed | Report(data: Service.Analytics)

  /** While loading a skeleton; then the report, or "Failed to load data"
      when no reply ever arrived. */
  function View(loading: bool, data: Option<Service.Analytics>): (s: Screen)
    ensures s.Skeleton? <==> loading
    ensures s.LoadFailed? <==> !loading && data.None?
    ensures s.Report? ==> data == Some(s.data)
  {
    if loading then Skeleton else if data.None? then LoadFailed else Report(data.value)
  }

  class Page {
    var timeRange: string
    var data: Option<Service.Analytics>
    var loading: bool

    constructor ()
      ensures timeRange == "7d" && data.None? && loading
    {
      timeRange, data, loading := "7d", None, true;
    }

    /** The fetch effect (on mount and on every range change) up to the
        request: the range it asks for. Clicking the range already selected
        sets the same state, so React runs no effect; callers invoke this
        only on mount and when the range differs. */
    method BeginFetch(range: string) returns (requested: string)
      modifies this
      ensures timeRange == range && requested == range && loading && data == old(data)
    {
      timeRange, loading := range, true;
      requested := range;
    }

    /** The fetch effect after the request: a reply replaces the data, a
        failure keeps the previous data; loading ends either way. */
    method FinishFetch(reply: Option<Service.Analytics>)
      modifies this
      ensures !loading && timeRange == old(timeRange)
      ensures data == (if reply.Some? then reply else old(data))
    {
      if reply.Some? {
        data := reply;
      }
      loading := false;
    }
  }
}
