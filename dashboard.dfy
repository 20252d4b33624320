/** The signed-in user's dashboard: the greeting, the displayed first name,
    the choice between the empty state and the stat cards, and the cards'
    fallbacks for the `/dashboard/stats` reply. */
module Dashboard {
  import opened Text
  import opened AuthContext
  import Service

  /** `stats?.active_links > 0 || stats?.total_clicks > 0`; a missing reply
      compares `undefined`, which is never greater than 0. */
  predicate HasLinks(stats: Option<Service.DashboardStats>) {
    stats.Some? && (stats.value.activeLinks > 0 || stats.value.totalClicks > 0)
  }

  /** With the service's own stats, the dashboard shows links exactly when
      the user owns at least one URL. */
  lemma HasLinksIffOwner(store: Service.Store, uid: int)
    requires store.Valid()
    ensures HasLinks(Some(store.GetDashboardStats(uid)))
            <==> exists i :: 0 <= i < |store.urls| && store.urls[i].owner == Some(uid)
  {
  }

  /** `getGreeting()`, shared by this page and the administrator's. */
  function Greeting(hour: int): (g: string)
    ensures hour < 12 ==> g == "Good morning"
    ensures 12 <= hour < 18 ==> g == "Good afternoon"
    ensures 18 <= hour ==> g == "Good evening"
  {
    if hour < 12 then "Good morning" else if hour < 18 then "Good afternoon" else "Good evening"
  }

  /** `user?.email?.split('@')[0] || 'User'`. */
  function FirstName(user: Option<UserInfo>): (name: string)
    ensures name != ""
    ensures user.Some? && user.value.email.Some? && BeforeFirst(user.value.email.value, '@') != "" ==>
      name == BeforeFirst(user.value.email.value, '@')
    ensures user.None? || user.value.email.None? || BeforeFirst(user.value.email.value, '@') == "" ==>
      name == "User"
  {
    FirstPieceOr(if user.Some? then user.value.email else None, '@', "User")
  }

  /** The four stat cards. The reply carries no `unique_visitors` and no
      `avg_daily`, so the last two always show their fallbacks. */
  datatype Cards = Cards(totalClicks: int, activeLinks: int, clickRate: int, topSource: string)

  function StatCards(stats: Option<Service.DashboardStats>): (c: Cards)
    ensures c.clickRate == 0 && c.topSource == "Direct"
    ensures stats.Some? ==> c.totalClicks == stats.value.totalClicks && c.activeLinks == stats.value.activeLinks
    ensures stats.None? ==> c.totalClicks == 0 && c.activeLinks == 0
  {
    match stats
    case None => Cards(0, 0, 0, "Direct")
    case Some(s) => Cards(s.totalClicks, s.activeLinks, 0, "Direct")
  }

  datatype Screen =
    | Skeleton
    | Overview(greeting: string, firstName: string, emptyState: bool, newLinkButton: bool, cards: Option<Cards>)

  /** The rendered page: the empty state without links, the New Link button
      and the cards with them. */
  function View(loading: bool, stats: Option<Service.DashboardStats>, user: Option<UserInfo>, hour: int): (s: Screen)
    ensures s.Skeleton? <==> loading
    ensures s.Overview? ==>
      && s.greeting == Greeting(hour) && s.firstName == FirstName(user)
      && (s.emptyState <==> !HasLinks(stats))
      && (s.newLinkButton <==> HasLinks(stats))
      && (s.cards.Some? <==> HasLinks(stats))
      && (s.cards.Some? ==> s.cards.value == StatCards(stats))
  {
    if loading then Skeleton
    else
      var has := HasLinks(stats);
      Overview(Greeting(hour), FirstName(user), !has, has, if has then Some(StatCards(stats)) else None)
  }

  class Page {
    var stats: Option<Service.DashboardStats>
    var loading: bool

    constructor ()
      ensures stats.None? && loading
    {
      stats, loading := None, true;
    }

    /** The fetch on mount settled: a reply replaces the stats, a failure
        keeps them; loading ends either way. */
    method FinishFetch(reply: Option<Service.DashboardStats>)
      modifies this
      ensures !loading
      ensures stats == (if reply.Some? then reply else old(stats))
    {
      if reply.Some? {
        stats := reply;
      }
      loading := false;
    }
  }
}
