/** The link service's request handlers (the FastAPI application). The
    database is a `Store` object whose tables are sequences of rows in
    insertion order, and the Redis cache is a map from key to target URL. The
    random generator is a sequence of draws, bcrypt is a pair of function
    parameters, and each clock reading is an integer second. */
module Service {
  import opened Text
  import opened Models
  import opened Auth

  // ---------------------------------------------------------------------
  // Aliases and short codes

  /** The size of `string.ascii_letters + string.digits`. */
  const AlphabetSize: nat := 62

  /** Character `d` of `string.ascii_letters + string.digits`: the lower-case
      letters, the upper-case letters, then the digits. */
  function AlphabetChar(d: nat): (c: char)
    requires d < AlphabetSize
    ensures IsAlnum(c)
    ensures d < 26 ==> 'a' <= c <= 'z'
    ensures 26 <= d < 52 ==> 'A' <= c <= 'Z'
    ensures 52 <= d ==> '0' <= c <= '9'
  {
    if d < 26 then ('a' as int + d) as char
    else if d < 52 then ('A' as int + d - 26) as char
    else ('0' as int + d - 52) as char
  }

  const ReservedWords: set<string> := {"admin", "verify", "login", "dashboard", "api", "auth",
    "check", "unlock", "shorten", "analytics", "settings", "register", "links"}

  predicate IsAlnum(c: char) {
    'a' <= c <= 'z' || 'A' <= c <= 'Z' || '0' <= c <= '9'
  }

  /** A member of the class `[a-zA-Z0-9-_]`. */
  predicate IsAliasChar(c: char) {
    IsAlnum(c) || c == '-' || c == '_'
  }

  predicate AllAliasChars(s: string) {
    forall i :: 0 <= i < |s| ==> IsAliasChar(s[i])
  }

  /** `re.match(r'^[a-zA-Z0-9-_]+$', s)`: without MULTILINE, Python's `$`
      also matches just before a final newline. */
  predicate AliasPatternMatches(s: string) {
    || (|s| > 0 && AllAliasChars(s))
    || (|s| > 1 && s[|s| - 1] == '\n' && AllAliasChars(s[..|s| - 1]))
  }

  predicate IsReserved(alias: string) {
    Lower(alias) in ReservedWords
  }

  /** An alias that passes the pattern is a non-empty run of allowed
      characters, optionally followed by one newline. */
  lemma PatternShape(s: string)
    requires AliasPatternMatches(s)
    ensures exists w :: |w| > 0 && AllAliasChars(w) && (s == w || s == w + "\n")
  {
    if |s| > 0 && AllAliasChars(s) {
      assert s == s && |s| > 0;
    } else {
      assert s == s[..|s| - 1] + "\n";
    }
  }

  /** 'admin' followed by a newline passes both the pattern and the
      reserved-word check. */
  lemma TrailingNewlineSlipsThrough()
    ensures AliasPatternMatches("admin\n")
    ensures !IsReserved("admin\n")
    ensures IsReserved("ADMIN") && !AliasPatternMatches("ad min")
  {
    assert "admin\n"[..5] == "admin";
    assert Lower("admin\n") == "admin\n";
    assert Lower("ADMIN") == "admin";
    assert !IsAliasChar("ad min"[2]);
  }

  /** Each draw of `random.choice(chars)` is an index into the alphabet. */
  predicate ValidDraw(draw: seq<nat>) {
    forall i :: 0 <= i < |draw| ==> draw[i] < AlphabetSize
  }

  /** `generate_short_code(length)` for the given draws (`length` = `|draw|`). */
  function GenerateShortCode(draw: seq<nat>): (code: string)
    requires ValidDraw(draw)
    ensures |code| == |draw|
    ensures forall i :: 0 <= i < |code| ==> IsAlnum(code[i]) && code[i] == AlphabetChar(draw[i])
  {
    seq(|draw|, i requires 0 <= i < |draw| => AlphabetChar(draw[i]))
  }

  /** A generated code always fits the alias pattern, yet the random path
      skips the reserved-word check: six draws can spell 'verify'. */
  lemma GeneratedCodes(draw: seq<nat>)
    requires ValidDraw(draw) && |draw| == 6
    ensures AliasPatternMatches(GenerateShortCode(draw))
    ensures GenerateShortCode([21, 4, 17, 8, 5, 24]) == "verify" && IsReserved("verify")
  {
    var v := GenerateShortCode([21, 4, 17, 8, 5, 24]);
    assert v[0] == 'v' && v[1] == 'e' && v[2] == 'r' && v[3] == 'i' && v[4] == 'f' && v[5] == 'y';
    assert v == "verify";
    assert Lower("verify") == "verify";
  }

  /** The generator's draws, each six long (the default `length`). */
  predicate ValidDraws(draws: seq<seq<nat>>) {
    forall k :: 0 <= k < |draws| ==> |draws[k]| == 6 && ValidDraw(draws[k])
  }

  /** Draw `k` is the first whose code is not in use. */
  ghost predicate FirstFreeDraw(urls: seq<Url>, draws: seq<seq<nat>>, k: int)
    requires ValidDraws(draws)
  {
    && 0 <= k < |draws|
    && !CodeInUse(urls, GenerateShortCode(draws[k]))
    && forall j :: 0 <= j < k ==> CodeInUse(urls, GenerateShortCode(draws[j]))
  }

  /** The fields of the create request (`URLCreate`). */
  datatype UrlCreate = UrlCreate(
    originalUrl: string,
    customAlias: Option<string>,
    password: Option<string>,
    expiresAt: Option<int>,
    maxClicks: Option<int>)

  /** The fields of a profile update (`UserUpdate`), each optional. */
  datatype UserUpdate = UserUpdate(
    email: Option<string>,
    fullName: Option<string>,
    bio: Option<string>,
    password: Option<string>,
    currentPassword: Option<string>)

  /** The fields of a link update (`URLUpdate`), each optional. */
  datatype UrlUpdate = UrlUpdate(
    originalUrl: Option<string>,
    isActive: Option<bool>,
    maxClicks: Option<int>)

  /** The cache key of a short code. */
  function CacheKey(code: string): string {
    "url:" + code
  }

  /** The first row with this code that belongs to this owner, as the
      filtered `.scalars().first()` finds it. */
  function FindOwned(urls: seq<Url>, code: string, owner: int): (r: Option<nat>)
    ensures r.Some? ==> r.value < |urls| && urls[r.value].shortCode == code && urls[r.value].owner == Some(owner)
    ensures r.None? ==> forall i :: 0 <= i < |urls| ==> !(urls[i].shortCode == code && urls[i].owner == Some(owner))
  {
    if urls == [] then None
    else if urls[0].shortCode == code && urls[0].owner == Some(owner) then Some(0)
    else
      var rest := FindOwned(urls[1..], code, owner);
      if rest.Some? then Some(rest.value + 1) else None
  }

  /** The first row with this code. */
  function FindCode(urls: seq<Url>, code: string): (r: Option<nat>)
    ensures r.Some? ==> r.value < |urls| && urls[r.value].shortCode == code
    ensures r.None? <==> !CodeInUse(urls, code)
  {
    if urls == [] then None
    else if urls[0].shortCode == code then Some(0)
    else
      var rest := FindCode(urls[1..], code);
      if rest.Some? then Some(rest.value + 1) else None
  }

  /** The click rows after a URL row is deleted: SQLAlchemy's default
      relationship handling sets the foreign key of its click events to null. */
  function DetachClicks(clicks: seq<ClickEvent>, urlId: int): (r: seq<ClickEvent>)
    ensures |r| == |clicks|
    ensures forall k :: 0 <= k < |r| ==>
      r[k] == (if clicks[k].urlId == Some(urlId) then clicks[k].(urlId := None) else clicks[k])
  {
    seq(|clicks|, k requires 0 <= k < |clicks| =>
      if clicks[k].urlId == Some(urlId) then clicks[k].(urlId := None) else clicks[k])
  }

  /** The outcome of a profile update for the user at `ci`: the first failing
      check in the source's order, or the updated row. */
  function UpdateUserResult(users: seq<User>, ci: nat, upd: UserUpdate,
                            verify: (string, string) -> bool, hash: string -> string): (r: Result<User>)
    requires ci < |users|
    ensures Truthy(upd.currentPassword) && !verify(upd.currentPassword.value, users[ci].hashedPassword) ==>
      r == Err(HttpError(400, "Incorrect current password"))
    ensures !Truthy(upd.currentPassword) && Truthy(upd.password) ==>
      r == Err(HttpError(400, "Current password required to change password"))
    ensures r.Ok? ==> Truthy(upd.currentPassword) || !Truthy(upd.password)
    ensures r.Ok? && Truthy(upd.currentPassword) ==> verify(upd.currentPassword.value, users[ci].hashedPassword)
    ensures (Truthy(upd.currentPassword) ==> verify(upd.currentPassword.value, users[ci].hashedPassword))
            && (Truthy(upd.currentPassword) || !Truthy(upd.password))
            && Truthy(upd.email) && upd.email.value != users[ci].email
            && FindByEmail(users, upd.email.value).Some? ==>
      r == Err(HttpError(400, "Email already registered"))
    ensures r.Ok? && Truthy(upd.email) ==>
      upd.email.value == users[ci].email || FindByEmail(users, upd.email.value).None?
    ensures r.Ok? && Truthy(upd.password) ==> Utf8Length(upd.password.value) <= MaxPasswordBytes
    ensures r.Ok? <==>
      && (Truthy(upd.currentPassword) ==> verify(upd.currentPassword.value, users[ci].hashedPassword))
      && (Truthy(upd.currentPassword) || !Truthy(upd.password))
      && !(Truthy(upd.email) && upd.email.value != users[ci].email && FindByEmail(users, upd.email.value).Some?)
      && (Truthy(upd.password) ==> Utf8Length(upd.password.value) <= MaxPasswordBytes)
    ensures (Truthy(upd.currentPassword) ==> verify(upd.currentPassword.value, users[ci].hashedPassword))
            && (Truthy(upd.currentPassword) || !Truthy(upd.password))
            && !(Truthy(upd.email) && upd.email.value != users[ci].email && FindByEmail(users, upd.email.value).Some?)
            && Truthy(upd.password) && Utf8Length(upd.password.value) > MaxPasswordBytes ==>
      r == Err(GetPasswordHash(upd.password.value, hash).error)
      && r == Err(HttpError(500, "Password cannot exceed 72 bytes"))
    ensures r.Ok? ==>
      && r.value.id == users[ci].id
      && r.value.isActive == users[ci].isActive
      && r.value.isSuperuser == users[ci].isSuperuser
      && r.value.email == (if Truthy(upd.email) then upd.email.value else users[ci].email)
      && r.value.fullName == (if upd.fullName.Some? then upd.fullName else users[ci].fullName)
      && r.value.bio == (if upd.bio.Some? then upd.bio else users[ci].bio)
      && r.value.hashedPassword ==
           (if Truthy(upd.password) then hash(upd.password.value) else users[ci].hashedPassword)
  {
    var cur := users[ci];
    if Truthy(upd.currentPassword) && !verify(upd.currentPassword.value, cur.hashedPassword) then
      Err(HttpError(400, "Incorrect current password"))
    else if !Truthy(upd.currentPassword) && Truthy(upd.password) then
      Err(HttpError(400, "Current password required to change password"))
    else if Truthy(upd.email) && upd.email.value != cur.email && FindByEmail(users, upd.email.value).Some? then
      Err(HttpError(400, "Email already registered"))
    else if Truthy(upd.password) && GetPasswordHash(upd.password.value, hash).Err? then
      Err(GetPasswordHash(upd.password.value, hash).error)
    else
      Ok(cur.(
        email := if Truthy(upd.email) then upd.email.value else cur.email,
        fullName := if upd.fullName.Some? then upd.fullName else cur.fullName,
        bio := if upd.bio.Some? then upd.bio else cur.bio,
        hashedPassword := if Truthy(upd.password) then GetPasswordHash(upd.password.value, hash).value
                          else cur.hashedPassword))
  }

  /** An update that names no field leaves the row as it was, and re-sending
      one's own email is not a conflict. */
  lemma EmptyUserUpdate(users: seq<User>, ci: nat, verify: (string, string) -> bool, hash: string -> string)
    requires ci < |users|
    ensures UpdateUserResult(users, ci, UserUpdate(None, None, None, None, None), verify, hash) == Ok(users[ci])
    ensures UpdateUserResult(users, ci, UserUpdate(Some(users[ci].email), None, None, None, None), verify, hash)
            == Ok(users[ci])
  {
  }

  /** Changing the email asks for no password: an unused address is taken
      as soon as it is sent, with or without the current password. */
  lemma EmailChangeNeedsNoPassword(users: seq<User>, ci: nat, email: string,
                                   verify: (string, string) -> bool, hash: string -> string)
    requires ci < |users| && email != "" && FindByEmail(users, email).None?
    ensures var r := UpdateUserResult(users, ci, UserUpdate(Some(email), None, None, None, None), verify, hash);
            r.Ok? && r.value.email == email && r.value.hashedPassword == users[ci].hashedPassword
  {
  }

  /** A URL row after an update: a truthy target, any given active flag, and
      a positive click limit replace the stored values; nothing else moves. */
  function UrlAfterUpdate(u: Url, upd: UrlUpdate): (v: Url)
    ensures v.id == u.id && v.shortCode == u.shortCode && v.owner == u.owner
    ensures v.clicks == u.clicks && v.createdAt == u.createdAt
    ensures v.password == u.password && v.expiresAt == u.expiresAt
    ensures v.originalUrl == (if Truthy(upd.originalUrl) then upd.originalUrl.value else u.originalUrl)
    ensures v.isActive == upd.isActive.GetOr(u.isActive)
    ensures v.maxClicks == (if upd.maxClicks.Some? && upd.maxClicks.value > 0 then upd.maxClicks else u.maxClicks)
  {
    u.(originalUrl := if Truthy(upd.originalUrl) then upd.originalUrl.value else u.originalUrl,
       isActive := upd.isActive.GetOr(u.isActive),
       maxClicks := if upd.maxClicks.Some? && upd.maxClicks.value > 0 then upd.maxClicks else u.maxClicks)
  }

  /** The cache after an update: a new target is written, then deactivation
      drops the key. */
  function CacheAfterUpdate(cache: map<string, string>, code: string, upd: UrlUpdate): (c: map<string, string>)
    ensures forall k :: k != CacheKey(code) ==> (k in c <==> k in cache) && (k in c ==> c[k] == cache[k])
    ensures upd.isActive == Some(false) ==> CacheKey(code) !in c
    ensures upd.isActive != Some(false) && Truthy(upd.originalUrl) ==>
      CacheKey(code) in c && c[CacheKey(code)] == upd.originalUrl.value
    ensures upd.isActive != Some(false) && !Truthy(upd.originalUrl) ==>
      (CacheKey(code) in c <==> CacheKey(code) in cache) && (CacheKey(code) in c ==> c[CacheKey(code)] == cache[CacheKey(code)])
  {
    var c1 := if Truthy(upd.originalUrl) then cache[CacheKey(code) := upd.originalUrl.value] else cache;
    if upd.isActive == Some(false) then c1 - {CacheKey(code)} else c1
  }

  /** As written, editing the target of a deactivated link puts that target
      back in the cache, where the redirect serves it without the 410 check. */
  lemma InactiveLinkRecached(u: Url)
    requires !u.isActive
    ensures var upd := UrlUpdate(Some("https://example.org"), None, None);
            var c := CacheAfterUpdate(map[], u.shortCode, upd);
            && !UrlAfterUpdate(u, upd).isActive
            && CacheKey(u.shortCode) in c && c[CacheKey(u.shortCode)] == "https://example.org"
  {
  }

  /** The cache after an update, as evidently intended: a link that ends up
      inactive loses its entry, and only an active link gets its new target. */
  function CacheAfterUpdateFixed(cache: map<string, string>, u: Url, upd: UrlUpdate): (c: map<string, string>)
    ensures forall k :: k != CacheKey(u.shortCode) ==> (k in c <==> k in cache) && (k in c ==> c[k] == cache[k])
    ensures !UrlAfterUpdate(u, upd).isActive ==> CacheKey(u.shortCode) !in c
  {
    var key := CacheKey(u.shortCode);
    if !UrlAfterUpdate(u, upd).isActive then cache - {key}
    else if Truthy(upd.originalUrl) then cache[key := upd.originalUrl.value]
    else cache
  }

  /** With the corrected update, the entry for an updated link, if any, is
      its new target and the link is active. */
  lemma {:induction false} CacheFollowsUpdate(cache: map<string, string>, u: Url, upd: UrlUpdate)
    requires CacheKey(u.shortCode) in cache ==> cache[CacheKey(u.shortCode)] == u.originalUrl
    ensures var c := CacheAfterUpdateFixed(cache, u, upd);
            CacheKey(u.shortCode) in c ==>
              c[CacheKey(u.shortCode)] == UrlAfterUpdate(u, upd).originalUrl && UrlAfterUpdate(u, upd).isActive
  {
    var c := CacheAfterUpdateFixed(cache, u, upd);
    var v := UrlAfterUpdate(u, upd);
    if CacheKey(u.shortCode) in c && !Truthy(upd.originalUrl) {
      assert c[CacheKey(u.shortCode)] == cache[CacheKey(u.shortCode)];
    }
  }

  /** Distinct codes have distinct cache keys. */
  lemma CacheKeyInjective(a: string, b: string)
    ensures CacheKey(a) == CacheKey(b) ==> a == b
  {
    if CacheKey(a) == CacheKey(b) {
      assert a == CacheKey(a)[4..] && b == CacheKey(b)[4..];
    }
  }

  /** Every cached entry is the target of an active stored link with that
      code: a cache hit answers what the database would. */
  ghost predicate CacheCoherent(cache: map<string, string>, urls: seq<Url>) {
    forall k :: k in cache ==>
      exists i :: 0 <= i < |urls| && CacheKey(urls[i].shortCode) == k
                  && urls[i].isActive && cache[k] == urls[i].originalUrl
  }

  // ---------------------------------------------------------------------
  // Analytics

  const SecondsPerDay: int := 86400

  /** The UTC calendar day of an instant. */
  function Day(t: int): int {
    t / SecondsPerDay
  }

  /** `time_range` to the number of days it covers. */
  function RangeDays(timeRange: string): (days: nat)
    ensures timeRange == "24h" ==> days == 1
    ensures timeRange == "30d" ==> days == 30
    ensures timeRange == "90d" ==> days == 90
    ensures timeRange !in {"24h", "30d", "90d"} ==> days == 7
  {
    if timeRange == "24h" then 1
    else if timeRange == "30d" then 30
    else if timeRange == "90d" then 90
    else 7
  }

  /** A click of one of the user's URLs at or after the window start. */
  predicate InWindow(e: ClickEvent, ids: set<int>, start: int) {
    e.urlId.Some? && e.urlId.value in ids && e.timestamp >= start
  }

  /** The grouped count for one day (`chart_dict.get(day, 0)`). */
  function ClicksOn(events: seq<ClickEvent>, ids: set<int>, start: int, day: int): nat {
    if events == [] then 0
    else (if InWindow(events[0], ids, start) && Day(events[0].timestamp) == day then 1 else 0)
         + ClicksOn(events[1..], ids, start, day)
  }

  /** The windowed clicks whose day lies in `lo..hi`. */
  function ClicksBetween(events: seq<ClickEvent>, ids: set<int>, start: int, lo: int, hi: int): nat {
    if events == [] then 0
    else (if InWindow(events[0], ids, start) && lo <= Day(events[0].timestamp) <= hi then 1 else 0)
         + ClicksBetween(events[1..], ids, start, lo, hi)
  }

  /** The windowed clicks on or before `lastDay`. */
  function WindowClicks(events: seq<ClickEvent>, ids: set<int>, start: int, lastDay: int): nat {
    if events == [] then 0
    else (if InWindow(events[0], ids, start) && Day(events[0].timestamp) <= lastDay then 1 else 0)
         + WindowClicks(events[1..], ids, start, lastDay)
  }

  /** The per-day counts of `n` consecutive days from `lo`, summed. */
  function SumDays(events: seq<ClickEvent>, ids: set<int>, start: int, lo: int, n: nat): nat {
    if n == 0 then 0 else SumDays(events, ids, start, lo, n - 1) + ClicksOn(events, ids, start, lo + n - 1)
  }

  /** Going back whole days moves the calendar day back by as many days. */
  lemma DayShift(t: int, k: int)
    ensures Day(t - k * SecondsPerDay) == Day(t) - k
  {
    var q, r := t / SecondsPerDay, t % SecondsPerDay;
    assert t - k * SecondsPerDay == (q - k) * SecondsPerDay + r;
  }

  lemma DayMonotone(a: int, b: int)
    requires a <= b
    ensures Day(a) <= Day(b)
  {
  }

  /** Chart entry `i` is for the day `days - i` days before today: the chart
      runs over consecutive days, oldest first, and ends today. */
  lemma ChartDays(events: seq<ClickEvent>, ids: set<int>, now: int, days: nat, i: int)
    ensures ChartEntry(events, ids, now, days, i).day == Day(now) - days + i
  {
    DayShift(now, days - i);
  }

  /** Summing the per-day counts of consecutive days counts each windowed
      click of those days once. */
  lemma {:induction false} SumDaysCountsBetween(events: seq<ClickEvent>, ids: set<int>, start: int, lo: int, n: nat)
    ensures SumDays(events, ids, start, lo, n) == ClicksBetween(events, ids, start, lo, lo + n - 1)
  {
    if events == [] {
      SumDaysEmpty(ids, start, lo, n);
    } else {
      SumDaysCountsBetween(events[1..], ids, start, lo, n);
      SumDaysSplit(events, ids, start, lo, n);
    }
  }

  lemma {:induction false} SumDaysEmpty(ids: set<int>, start: int, lo: int, n: nat)
    ensures SumDays([], ids, start, lo, n) == 0
  {
    if n > 0 {
      SumDaysEmpty(ids, start, lo, n - 1);
    }
  }

  lemma {:induction false} SumDaysSplit(events: seq<ClickEvent>, ids: set<int>, start: int, lo: int, n: nat)
    requires events != []
    ensures SumDays(events, ids, start, lo, n)
            == SumDays(events[1..], ids, start, lo, n)
               + (if InWindow(events[0], ids, start) && lo <= Day(events[0].timestamp) <= lo + n - 1 then 1 else 0)
  {
    if n > 0 {
      SumDaysSplit(events, ids, start, lo, n - 1);
    }
  }

  /** No windowed click falls before the window's first day, so counting
      from that day on misses none. */
  lemma {:induction false} WindowFromFirstDay(events: seq<ClickEvent>, ids: set<int>, start: int, hi: int)
    ensures ClicksBetween(events, ids, start, Day(start), hi) == WindowClicks(events, ids, start, hi)
  {
    if events != [] {
      if InWindow(events[0], ids, start) {
        DayMonotone(start, events[0].timestamp);
      }
      WindowFromFirstDay(events[1..], ids, start, hi);
    }
  }

  /** The gap-filled chart of `days + 1` entries, summed day by day, counts
      every click of the user's links inside the window up to today. */
  lemma ChartCoversWindow(events: seq<ClickEvent>, ids: set<int>, now: int, days: nat)
    ensures SumDays(events, ids, now - days * SecondsPerDay, Day(now) - days, days + 1)
            == WindowClicks(events, ids, now - days * SecondsPerDay, Day(now))
  {
    var start := now - days * SecondsPerDay;
    SumDaysCountsBetween(events, ids, start, Day(now) - days, days + 1);
    DayShift(now, days);
    WindowFromFirstDay(events, ids, start, Day(now));
  }

  datatype DayCount = DayCount(day: int, clicks: nat)
  datatype NameValue = NameValue(name: string, value: nat)

  /** Entry `i` of the gap-filled chart: the day `days - i` days before now. */
  function ChartEntry(events: seq<ClickEvent>, ids: set<int>, now: int, days: nat, i: int): DayCount {
    var d := Day(now - (days - i) * SecondsPerDay);
    DayCount(d, ClicksOn(events, ids, now - days * SecondsPerDay, d))
  }

  /** `get_top`'s naming of the grouped rows: a null or empty value is
      reported as 'Direct/Unknown'. */
  function TopEntries(rows: seq<(Option<string>, nat)>): (r: seq<NameValue>)
    ensures |r| == |rows|
    ensures forall i :: 0 <= i < |r| ==> r[i].value == rows[i].1 && r[i].name != ""
    ensures forall i :: 0 <= i < |r| && Truthy(rows[i].0) ==> r[i].name == rows[i].0.value
    ensures forall i :: 0 <= i < |r| && !Truthy(rows[i].0) ==> r[i].name == "Direct/Unknown"
  {
    seq(|rows|, i requires 0 <= i < |rows| => NameValue(OrElse(rows[i].0, "Direct/Unknown"), rows[i].1))
  }

  /** The analytics document. `totalClicks` and `avgCtr` only appear in the
      early answer for a user without links. */
  datatype Analytics = Analytics(
    chart: seq<DayCount>,
    topReferrers: seq<NameValue>,
    topDevices: seq<NameValue>,
    topCountries: seq<NameValue>,
    topLinks: seq<Url>,
    totalClicks: Option<int>,
    avgCtr: Option<int>)

  /** Keys of the URLs a user owns (`user_url_ids`). */
  function OwnedIds(urls: seq<Url>, uid: int): set<int> {
    set i | 0 <= i < |urls| && urls[i].owner == Some(uid) :: urls[i].id
  }

  function OwnedCount(urls: seq<Url>, uid: int): nat {
    if urls == [] then 0
    else (if urls[0].owner == Some(uid) then 1 else 0) + OwnedCount(urls[1..], uid)
  }

  function OwnedClicks(urls: seq<Url>, uid: int): int {
    if urls == [] then 0
    else (if urls[0].owner == Some(uid) then urls[0].clicks else 0) + OwnedClicks(urls[1..], uid)
  }

  datatype DashboardStats = DashboardStats(totalClicks: int, activeLinks: nat)

  // ---------------------------------------------------------------------
  // The store

  /** The table constraints: unique short codes, keys and emails, click
      foreign keys that are null or point at a stored URL, click counts that
      never go below zero, and a cache that agrees with the table. */
  ghost predicate Consistent(urls: seq<Url>, clicks: seq<ClickEvent>, users: seq<User>,
                             cache: map<string, string>, nextUrlId: int, nextClickId: int)
  {
    && UniqueCodes(urls)
    && UniqueUrlIds(urls)
    && UrlIdsBelow(urls, nextUrlId)
    && ClickIdsBelow(clicks, nextClickId)
    && ClicksReferToUrls(clicks, urls)
    && UniqueEmails(users)
    && (forall i :: 0 <= i < |urls| ==> urls[i].clicks >= 0)
    && CacheCoherent(cache, urls)
  }

  // ---------------------------------------------------------------------
  // Routing of the create endpoints

  /** The handlers registered for `POST`: the placeholder `create_short_url`,
      whose body is only `pass`, and the two real create handlers. */
  datatype Endpoint = ShortenPlaceholder | CreateAuthenticated | CreatePublic

  /** The `POST` routes in the order the module registers them. */
  const PostRoutesAsWritten: seq<(string, Endpoint)> :=
    [("/shorten", ShortenPlaceholder), ("/shorten_auth", CreateAuthenticated), ("/shorten", CreatePublic)]

  /** The routes with the placeholder removed. */
  const PostRoutes: seq<(string, Endpoint)> :=
    [("/shorten_auth", CreateAuthenticated), ("/shorten", CreatePublic)]

  /** The router answers with the first route whose path matches. */
  function Dispatch(routes: seq<(string, Endpoint)>, path: string): (r: Option<Endpoint>)
    ensures r.None? <==> forall i :: 0 <= i < |routes| ==> routes[i].0 != path
    ensures r.Some? ==> exists i :: 0 <= i < |routes| && routes[i] == (path, r.value)
                                   && forall j :: 0 <= j < i ==> routes[j].0 != path
  {
    if routes == [] then None
    else if routes[0].0 == path then Some(routes[0].1)
    else
      var r := Dispatch(routes[1..], path);
      assert r.Some? ==> exists i :: 0 < i < |routes| && routes[i] == (path, r.value)
                                    && forall j :: 0 <= j < i ==> routes[j].0 != path by {
        if r.Some? {
          var k :| 0 <= k < |routes[1..]| && routes[1..][k] == (path, r.value)
                   && forall j :: 0 <= j < k ==> routes[1..][j].0 != path;
          assert routes[k + 1] == (path, r.value);
          assert forall j :: 1 <= j < k + 1 ==> routes[j].0 == routes[1..][j - 1].0;
        }
      }
      r
  }

  /** What the placeholder sends: it returns None, which fails its declared
      `response_model`, so the client gets a 500. */
  function PlaceholderReply(): (r: Result<Url>)
    ensures r.Err? && r.error.status == 500
  {
    Err(HttpError(500, "Internal Server Error"))
  }

  /** As registered, every anonymous `POST /shorten` reaches the placeholder
      and fails with 500; the public create handler is never reached. The
      authenticated endpoint is unaffected. */
  lemma PublicCreateShadowed()
    ensures Dispatch(PostRoutesAsWritten, "/shorten") == Some(ShortenPlaceholder)
    ensures PlaceholderReply().Err? && PlaceholderReply().error.status == 500
    ensures Dispatch(PostRoutesAsWritten, "/shorten_auth") == Some(CreateAuthenticated)
  {
  }

  /** Without the placeholder, `POST /shorten` reaches the public handler
      (`Store.CreateShortUrl` with no owner) and `POST /shorten_auth` the
      authenticated one. */
  lemma PublicCreateReachable()
    ensures Dispatch(PostRoutes, "/shorten") == Some(CreatePublic)
    ensures Dispatch(PostRoutes, "/shorten_auth") == Some(CreateAuthenticated)
  {
  }

  class Store {
    var urls: seq<Url>
    var clicks: seq<ClickEvent>
    var users: seq<User>
    var cache: map<string, string>
    var nextUrlId: int
    var nextClickId: int

    /** The table constraints and the cache's agreement with them. */
    ghost predicate Valid()
      reads this
    {
      Consistent(urls, clicks, users, cache, nextUrlId, nextClickId)
    }

    constructor (users0: seq<User>)
      requires UniqueEmails(users0)
      ensures Valid()
      ensures urls == [] && clicks == [] && users == users0 && cache == map[]
    {
      urls, clicks, users, cache := [], [], users0, map[];
      nextUrlId, nextClickId := 1, 1;
    }

    /** `check_slug`: the alias is available exactly when no row has it. */
    function CheckSlug(slug: string): (available: bool)
      reads this
      ensures available <==> forall i :: 0 <= i < |urls| ==> urls[i].shortCode != slug
    {
      !CodeInUse(urls, slug)
    }

    /** The retry loop of `create_short_url_impl`: draw codes until one is
        not in use. */
    method PickFreeCode(draws: seq<seq<nat>>) returns (code: string)
      requires ValidDraws(draws)
      requires exists k :: 0 <= k < |draws| && !CodeInUse(urls, GenerateShortCode(draws[k]))
      ensures !CodeInUse(urls, code) && |code| == 6
      ensures exists k :: FirstFreeDraw(urls, draws, k) && code == GenerateShortCode(draws[k])
    {
      var k := 0;
      code := GenerateShortCode(draws[0]);
      while FindCode(urls, code).Some?
        invariant 0 <= k < |draws|
        invariant code == GenerateShortCode(draws[k])
        invariant forall j :: 0 <= j < k ==> CodeInUse(urls, GenerateShortCode(draws[j]))
        decreases |draws| - k
      {
        k := k + 1;
        code := GenerateShortCode(draws[k]);
      }
      assert FirstFreeDraw(urls, draws, k);
    }

    /** `create_short_url_impl`. For a random code it needs the generator to
        produce, eventually, a code not in use: the loop runs until then. */
    method CreateShortUrl(req: UrlCreate, owner: Option<int>, draws: seq<seq<nat>>, now: int)
      returns (r: Result<Url>)
      requires Valid()
      requires ValidDraws(draws)
      requires !Truthy(req.customAlias) ==>
        exists k :: 0 <= k < |draws| && !CodeInUse(urls, GenerateShortCode(draws[k]))
      modifies this
      ensures Valid()
      ensures clicks == old(clicks) && users == old(users) && cache == old(cache)
      ensures nextClickId == old(nextClickId)
      ensures r.Err? ==> urls == old(urls) && nextUrlId == old(nextUrlId)
      ensures Truthy(req.customAlias) && !AliasPatternMatches(req.customAlias.value) ==>
        r == Err(HttpError(400, "Alias alphanumeric only"))
      ensures Truthy(req.customAlias) && AliasPatternMatches(req.customAlias.value)
              && IsReserved(req.customAlias.value) ==>
        r == Err(HttpError(400, "Reserved alias"))
      ensures Truthy(req.customAlias) && AliasPatternMatches(req.customAlias.value)
              && !IsReserved(req.customAlias.value) ==>
        (r == Err(HttpError(400, "Alias taken")) <==> !old(CheckSlug(req.customAlias.value)))
      ensures r.Ok? <==>
        (!Truthy(req.customAlias)
         || (AliasPatternMatches(req.customAlias.value) && !IsReserved(req.customAlias.value)
             && old(CheckSlug(req.customAlias.value))))
      ensures r.Ok? ==> urls == old(urls) + [r.value] && nextUrlId == old(nextUrlId) + 1
      ensures r.Ok? ==> r.value == NewUrl(old(nextUrlId), req.originalUrl, r.value.shortCode, now,
                                          req.password, req.expiresAt, req.maxClicks, owner)
      ensures r.Ok? ==> !CodeInUse(old(urls), r.value.shortCode)
      ensures r.Ok? && Truthy(req.customAlias) ==> r.value.shortCode == req.customAlias.value
      ensures r.Ok? && !Truthy(req.customAlias) ==>
        exists k :: FirstFreeDraw(old(urls), draws, k) && r.value.shortCode == GenerateShortCode(draws[k])
    {
      var code: string;
      if req.customAlias.Some? && req.customAlias.value != "" {
        var alias := req.customAlias.value;
        if !AliasPatternMatches(alias) {
          return Err(HttpError(400, "Alias alphanumeric only"));
        }
        if Lower(alias) in ReservedWords {
          return Err(HttpError(400, "Reserved alias"));
        }
        if FindCode(urls, alias).Some? {
          return Err(HttpError(400, "Alias taken"));
        }
        code := alias;
      } else {
        code := PickFreeCode(draws);
      }
      var u := NewUrl(nextUrlId, req.originalUrl, code, now, req.password, req.expiresAt, req.maxClicks, owner);
      AppendFreshCode(urls, u);
      AppendKeepsValid(urls, clicks, cache, u, nextUrlId);
      urls := urls + [u];
      nextUrlId := nextUrlId + 1;
      r := Ok(u);
    }

    /** `update_user` for the caller at `ci` (the authenticated user). The
        checks run in the source's order and a failure commits nothing. */
    method UpdateUser(ci: nat, upd: UserUpdate, verify: (string, string) -> bool, hash: string -> string)
      returns (r: Result<User>)
      requires Valid() && ci < |users|
      modifies this
      ensures Valid()
      ensures r == UpdateUserResult(old(users), ci, upd, verify, hash)
      ensures urls == old(urls) && clicks == old(clicks) && cache == old(cache)
      ensures nextUrlId == old(nextUrlId) && nextClickId == old(nextClickId)
      ensures r.Err? ==> users == old(users)
      ensures r.Ok? ==> users == old(users)[ci := r.value]
    {
      r := UpdateUserResult(users, ci, upd, verify, hash);
      if r.Ok? {
        EmailChangeKeepsUnique(users, ci, r.value);
        users := users[ci := r.value];
      }
    }

    /** `update_user_url`: only the caller's own row changes, and the cache
        follows the new target. */
    method UpdateUserUrl(uid: int, code: string, upd: UrlUpdate) returns (r: Result<Url>)
      requires Valid()
      modifies this
      ensures Valid()
      ensures clicks == old(clicks) && users == old(users)
      ensures nextUrlId == old(nextUrlId) && nextClickId == old(nextClickId)
      ensures r.Err? <==> FindOwned(old(urls), code, uid).None?
      ensures r.Err? ==> r.error == HttpError(404, "URL not found") && urls == old(urls) && cache == old(cache)
      ensures r.Ok? ==>
        var i := FindOwned(old(urls), code, uid).value;
        && r.value == UrlAfterUpdate(old(urls[i]), upd)
        && urls == old(urls)[i := r.value]
        && cache == CacheAfterUpdateFixed(old(cache), old(urls[i]), upd)
    {
      var found := FindOwned(urls, code, uid);
      if found.None? {
        return Err(HttpError(404, "URL not found"));
      }
      var i := found.value;
      var u := urls[i];
      if upd.originalUrl.Some? && upd.originalUrl.value != "" {
        u := u.(originalUrl := upd.originalUrl.value);
      }
      if upd.isActive.Some? {
        u := u.(isActive := upd.isActive.value);
      }
      if upd.maxClicks.Some? && upd.maxClicks.value > 0 {
        u := u.(maxClicks := upd.maxClicks);
      }
      UpdateKeepsConsistent(urls, clicks, users, cache, nextUrlId, nextClickId, i, upd);
      if !u.isActive {
        cache := cache - {CacheKey(code)};
      } else if upd.originalUrl.Some? && upd.originalUrl.value != "" {
        cache := cache[CacheKey(code) := upd.originalUrl.value];
      }
      urls := urls[i := u];
      r := Ok(u);
    }

    /** `delete_user_url`: removes the caller's own row and its cache entry. */
    method DeleteUserUrl(uid: int, code: string) returns (r: Result<string>)
      requires Valid()
      modifies this
      ensures Valid()
      ensures users == old(users) && nextUrlId == old(nextUrlId) && nextClickId == old(nextClickId)
      ensures r.Err? <==> FindOwned(old(urls), code, uid).None?
      ensures r.Err? ==>
        r.error == HttpError(404, "URL not found or access denied")
        && urls == old(urls) && clicks == old(clicks) && cache == old(cache)
      ensures r.Ok? ==>
        var i := FindOwned(old(urls), code, uid).value;
        && r.value == "URL deleted successfully"
        && urls == old(urls[..i]) + old(urls[i + 1..])
        && clicks == DetachClicks(old(clicks), old(urls[i].id))
        && cache == old(cache) - {CacheKey(code)}
      ensures r.Ok? ==> !CodeInUse(urls, code)
    {
      var found := FindOwned(urls, code, uid);
      if found.None? {
        return Err(HttpError(404, "URL not found or access denied"));
      }
      var i := found.value;
      RemoveKeepsValid(urls, clicks, i);
      RemoveKeepsCoherent(cache, urls, i);
      clicks := DetachClicks(clicks, urls[i].id);
      urls := urls[..i] + urls[i + 1..];
      cache := cache - {CacheKey(code)};
      r := Ok("URL deleted successfully");
    }

    /** `redirect_to_url`: a cache hit answers at once; otherwise an unknown
        code is 404, an inactive link 410, and a served link gets one click
        event and one more click, and its target is cached. */
    method Redirect(code: string, referer: Option<string>, userAgent: Option<string>, now: int)
      returns (r: Result<string>)
      requires Valid()
      modifies this
      ensures Valid()
      ensures users == old(users) && nextUrlId == old(nextUrlId)
      ensures CacheKey(code) in old(cache) && old(cache)[CacheKey(code)] != "" ==>
        r == Ok(old(cache)[CacheKey(code)]) && unchanged(this)
        && CodeInUse(old(urls), code)
        && old(urls[FindCode(urls, code).value].isActive)
        && r.value == old(urls[FindCode(urls, code).value].originalUrl)
      ensures !(CacheKey(code) in old(cache) && old(cache)[CacheKey(code)] != "") ==>
        && (!CodeInUse(old(urls), code) ==> r == Err(HttpError(404, "URL not found")))
        && (CodeInUse(old(urls), code) && !old(urls)[FindCode(old(urls), code).value].isActive ==>
              r == Err(HttpError(410, "Inactive")))
      ensures !(CacheKey(code) in old(cache) && old(cache)[CacheKey(code)] != "") ==>
        (r.Ok? <==> CodeInUse(old(urls), code) && old(urls)[FindCode(old(urls), code).value].isActive)
      ensures r.Err? ==> unchanged(this)
      ensures r.Ok? && !(CacheKey(code) in old(cache) && old(cache)[CacheKey(code)] != "") ==>
        var i := FindCode(old(urls), code).value;
        && old(urls[i].isActive)
        && r.value == old(urls[i].originalUrl)
        && urls == old(urls)[i := old(urls[i]).(clicks := old(urls[i].clicks) + 1)]
        && clicks == old(clicks) + [ClickEvent(old(nextClickId), Some(old(urls[i].id)), now,
                                              Some(OrElse(referer, "Direct")),
                                              Some(userAgent.GetOr("Unknown")),
                                              Some("Processing..."))]
        && nextClickId == old(nextClickId) + 1
        && cache == old(cache)[CacheKey(code) := old(urls[i].originalUrl)]
    {
      var key := CacheKey(code);
      if key in cache && cache[key] != "" {
        CacheHitAgrees(cache, urls, code);
        return Ok(cache[key]);
      }
      var found := FindCode(urls, code);
      if found.None? {
        return Err(HttpError(404, "URL not found"));
      }
      var i := found.value;
      var u := urls[i];
      if !u.isActive {
        return Err(HttpError(410, "Inactive"));
      }
      RecordClick(i, referer, userAgent, now);
      r := Ok(u.originalUrl);
    }

    /** The served branch of the redirect: one click event (referrer and
        user agent as sent, the country still to be filled in), one more
        click on the row, and its target cached. */
    method RecordClick(i: nat, referer: Option<string>, userAgent: Option<string>, now: int)
      requires Valid() && i < |urls| && urls[i].isActive
      modifies this
      ensures Valid()
      ensures users == old(users) && nextUrlId == old(nextUrlId)
      ensures urls == old(urls)[i := old(urls[i]).(clicks := old(urls[i].clicks) + 1)]
      ensures clicks == old(clicks) + [ClickEvent(old(nextClickId), Some(old(urls[i].id)), now,
                                                  Some(OrElse(referer, "Direct")),
                                                  Some(userAgent.GetOr("Unknown")),
                                                  Some("Processing..."))]
      ensures nextClickId == old(nextClickId) + 1
      ensures cache == old(cache)[CacheKey(old(urls[i].shortCode)) := old(urls[i].originalUrl)]
    {
      var u := urls[i];
      var click := ClickEvent(nextClickId, Some(u.id), now, Some(OrElse(referer, "Direct")),
                              Some(userAgent.GetOr("Unknown")), Some("Processing..."));
      CountKeepsConsistent(urls, clicks, users, cache, nextUrlId, nextClickId, i, click);
      urls, clicks, cache, nextClickId :=
        urls[i := u.(clicks := u.clicks + 1)], clicks + [click], cache[CacheKey(u.shortCode) := u.originalUrl],
        nextClickId + 1;
    }

    /** `get_user_analytics` for user `uid` at time `now`. The top lists are
        the rows of their grouped queries, given. */
    method GetUserAnalytics(uid: int, timeRange: string, now: int,
                            referrerRows: seq<(Option<string>, nat)>,
                            deviceRows: seq<(Option<string>, nat)>,
                            countryRows: seq<(Option<string>, nat)>,
                            topLinkRows: seq<Url>)
      returns (a: Analytics)
      ensures OwnedIds(urls, uid) == {} ==> a == Analytics([], [], [], [], [], Some(0), Some(0))
      ensures OwnedIds(urls, uid) != {} ==>
        && |a.chart| == RangeDays(timeRange) + 1
        && (forall i :: 0 <= i < |a.chart| ==>
              a.chart[i] == ChartEntry(clicks, OwnedIds(urls, uid), now, RangeDays(timeRange), i))
        && a.topReferrers == TopEntries(referrerRows)
        && a.topDevices == TopEntries(deviceRows)
        && a.topCountries == TopEntries(countryRows)
        && a.topLinks == topLinkRows
        && a.totalClicks.None? && a.avgCtr.None?
    {
      var days := RangeDays(timeRange);
      var ids := OwnedIds(urls, uid);
      if ids == {} {
        return Analytics([], [], [], [], [], Some(0), Some(0));
      }
      var chart: seq<DayCount> := [];
      var i := 0;
      while i < days + 1
        invariant 0 <= i <= days + 1
        invariant |chart| == i
        invariant forall j :: 0 <= j < i ==> chart[j] == ChartEntry(clicks, ids, now, days, j)
      {
        chart := chart + [ChartEntry(clicks, ids, now, days, i)];
        i := i + 1;
      }
      a := Analytics(chart, TopEntries(referrerRows), TopEntries(deviceRows), TopEntries(countryRows),
                     topLinkRows, None, None);
    }

    /** `get_dashboard_stats`: the summed clicks (null sum read as 0) and the
        number of the user's links. */
    function GetDashboardStats(uid: int): (s: DashboardStats)
      reads this
      requires Valid()
      ensures s.activeLinks == |OwnedIndices(urls, uid)|
      ensures s.totalClicks == OwnedClicks(urls, uid)
      ensures s.activeLinks == 0 ==> s.totalClicks == 0
      ensures s.totalClicks >= 0
      ensures s.activeLinks == 0 <==> forall i :: 0 <= i < |urls| ==> urls[i].owner != Some(uid)
    {
      OwnedCountIsIndexCount(urls, uid);
      OwnedFacts(urls, uid);
      DashboardStats(OwnedClicks(urls, uid), OwnedCount(urls, uid))
    }
  }

  // ---------------------------------------------------------------------
  // Proofs about the store's invariant

  /** The positions of the user's rows, the rows `count(URL.id)` counts. */
  ghost function OwnedIndices(urls: seq<Url>, uid: int): set<nat> {
    set i: nat | i < |urls| && urls[i].owner == Some(uid)
  }

  lemma {:induction false} OwnedCountAppend(p: seq<Url>, x: Url, uid: int)
    ensures OwnedCount(p + [x], uid) == OwnedCount(p, uid) + (if x.owner == Some(uid) then 1 else 0)
    ensures OwnedClicks(p + [x], uid) == OwnedClicks(p, uid) + (if x.owner == Some(uid) then x.clicks else 0)
  {
    if p == [] {
      assert [x][1..] == [];
    } else {
      assert (p + [x])[1..] == p[1..] + [x];
      OwnedCountAppend(p[1..], x, uid);
    }
  }

  /** The count of the user's links is the number of rows they own. */
  lemma {:induction false} OwnedCountIsIndexCount(urls: seq<Url>, uid: int)
    ensures OwnedCount(urls, uid) == |OwnedIndices(urls, uid)|
    decreases |urls|
  {
    if urls == [] {
      assert OwnedIndices(urls, uid) == {};
    } else {
      var p, x := urls[..|urls| - 1], urls[|urls| - 1];
      assert urls == p + [x];
      OwnedCountIsIndexCount(p, uid);
      OwnedCountAppend(p, x, uid);
      if x.owner == Some(uid) {
        assert OwnedIndices(urls, uid) == OwnedIndices(p, uid) + {|p|};
      } else {
        assert OwnedIndices(urls, uid) == OwnedIndices(p, uid);
      }
    }
  }

  /** A served redirect adds one to the owner's dashboard total and
      leaves every other user's total and every link count as it was. */
  lemma {:induction false} ClickRaisesOwnerTotal(urls: seq<Url>, i: nat, uid: int)
    requires i < |urls|
    ensures var bumped := urls[i := urls[i].(clicks := urls[i].clicks + 1)];
      && OwnedClicks(bumped, uid) == OwnedClicks(urls, uid) + (if urls[i].owner == Some(uid) then 1 else 0)
      && OwnedCount(bumped, uid) == OwnedCount(urls, uid)
  {
    var bumped := urls[i := urls[i].(clicks := urls[i].clicks + 1)];
    if i > 0 {
      assert bumped[1..] == urls[1..][i - 1 := urls[i].(clicks := urls[i].clicks + 1)];
      ClickRaisesOwnerTotal(urls[1..], i - 1, uid);
    } else {
      assert bumped[1..] == urls[1..];
    }
  }

  lemma {:induction false} OwnedFacts(urls: seq<Url>, uid: int)
    requires forall i :: 0 <= i < |urls| ==> urls[i].clicks >= 0
    ensures OwnedClicks(urls, uid) >= 0
    ensures OwnedCount(urls, uid) == 0 ==> OwnedClicks(urls, uid) == 0
    ensures OwnedCount(urls, uid) == 0 <==> forall i :: 0 <= i < |urls| ==> urls[i].owner != Some(uid)
  {
    if urls != [] {
      OwnedFacts(urls[1..], uid);
      assert forall i :: 1 <= i < |urls| ==> urls[i] == urls[1..][i - 1];
    }
  }

  lemma UpdateKeepsConsistent(urls: seq<Url>, clicks: seq<ClickEvent>, users: seq<User>,
                              cache: map<string, string>, nextUrlId: int, nextClickId: int, i: nat, upd: UrlUpdate)
    requires Consistent(urls, clicks, users, cache, nextUrlId, nextClickId) && i < |urls|
    ensures Consistent(urls[i := UrlAfterUpdate(urls[i], upd)], clicks, users,
                       CacheAfterUpdateFixed(cache, urls[i], upd), nextUrlId, nextClickId)
  {
    ReplaceKeepsValid(urls, clicks, i, UrlAfterUpdate(urls[i], upd));
    UpdateKeepsCoherent(cache, urls, i, upd);
  }

  lemma CountKeepsConsistent(urls: seq<Url>, clicks: seq<ClickEvent>, users: seq<User>,
                             cache: map<string, string>, nextUrlId: int, nextClickId: int, i: nat, click: ClickEvent)
    requires Consistent(urls, clicks, users, cache, nextUrlId, nextClickId)
    requires i < |urls| && urls[i].isActive && click.urlId == Some(urls[i].id) && click.id == nextClickId
    ensures Consistent(urls[i := urls[i].(clicks := urls[i].clicks + 1)], clicks + [click], users,
                       cache[CacheKey(urls[i].shortCode) := urls[i].originalUrl], nextUrlId, nextClickId + 1)
  {
    CountKeepsValid(urls, clicks, i, click, nextClickId);
    CountKeepsCoherent(cache, urls, i);
  }

  lemma EmailChangeKeepsUnique(users: seq<User>, ci: nat, cur: User)
    requires UniqueEmails(users) && ci < |users|
    requires cur.email == users[ci].email || FindByEmail(users, cur.email).None?
    ensures UniqueEmails(users[ci := cur])
  {
  }

  lemma AppendKeepsValid(urls: seq<Url>, clicks: seq<ClickEvent>, cache: map<string, string>, u: Url, next: int)
    requires u.id == next && UrlIdsBelow(urls, next) && UniqueUrlIds(urls)
    requires ClicksReferToUrls(clicks, urls) && CacheCoherent(cache, urls)
    ensures UniqueUrlIds(urls + [u]) && UrlIdsBelow(urls + [u], next + 1)
    ensures ClicksReferToUrls(clicks, urls + [u]) && CacheCoherent(cache, urls + [u])
  {
    var s := urls + [u];
    forall k | 0 <= k < |clicks| && clicks[k].urlId.Some?
      ensures HasUrlId(s, clicks[k].urlId.value)
    {
      var j :| 0 <= j < |urls| && urls[j].id == clicks[k].urlId.value;
      assert s[j] == urls[j];
    }
    forall key | key in cache
      ensures exists j :: 0 <= j < |s| && CacheKey(s[j].shortCode) == key
                          && s[j].isActive && cache[key] == s[j].originalUrl
    {
      var j :| 0 <= j < |urls| && CacheKey(urls[j].shortCode) == key
               && urls[j].isActive && cache[key] == urls[j].originalUrl;
      assert s[j] == urls[j];
    }
  }

  lemma UpdateKeepsCoherent(cache: map<string, string>, urls: seq<Url>, i: nat, upd: UrlUpdate)
    requires i < |urls| && UniqueCodes(urls) && CacheCoherent(cache, urls)
    ensures CacheCoherent(CacheAfterUpdateFixed(cache, urls[i], upd), urls[i := UrlAfterUpdate(urls[i], upd)])
  {
    var u := urls[i];
    var c := CacheAfterUpdateFixed(cache, u, upd);
    var s := urls[i := UrlAfterUpdate(u, upd)];
    forall k | k in c
      ensures exists j :: 0 <= j < |s| && CacheKey(s[j].shortCode) == k && s[j].isActive && c[k] == s[j].originalUrl
    {
      if k == CacheKey(u.shortCode) {
        if Truthy(upd.originalUrl) {
          assert CacheKey(s[i].shortCode) == k && c[k] == s[i].originalUrl;
        } else {
          var j :| 0 <= j < |urls| && CacheKey(urls[j].shortCode) == k
                   && urls[j].isActive && cache[k] == urls[j].originalUrl;
          CacheKeyInjective(urls[j].shortCode, u.shortCode);
          assert j == i;
          assert CacheKey(s[i].shortCode) == k && c[k] == s[i].originalUrl;
        }
      } else {
        var j :| 0 <= j < |urls| && CacheKey(urls[j].shortCode) == k
                 && urls[j].isActive && cache[k] == urls[j].originalUrl;
        assert j != i;
        assert s[j] == urls[j];
      }
    }
  }

  lemma RemoveKeepsCoherent(cache: map<string, string>, urls: seq<Url>, i: nat)
    requires i < |urls| && CacheCoherent(cache, urls)
    ensures CacheCoherent(cache - {CacheKey(urls[i].shortCode)}, urls[..i] + urls[i + 1..])
  {
    var c := cache - {CacheKey(urls[i].shortCode)};
    var s := urls[..i] + urls[i + 1..];
    forall k | k in c
      ensures exists m :: 0 <= m < |s| && CacheKey(s[m].shortCode) == k && s[m].isActive && c[k] == s[m].originalUrl
    {
      var j :| 0 <= j < |urls| && CacheKey(urls[j].shortCode) == k
               && urls[j].isActive && cache[k] == urls[j].originalUrl;
      assert j != i;
      var m := if j < i then j else j - 1;
      assert s[m] == urls[j];
    }
  }

  lemma CountKeepsCoherent(cache: map<string, string>, urls: seq<Url>, i: nat)
    requires i < |urls| && urls[i].isActive && CacheCoherent(cache, urls)
    ensures CacheCoherent(cache[CacheKey(urls[i].shortCode) := urls[i].originalUrl],
                          urls[i := urls[i].(clicks := urls[i].clicks + 1)])
  {
    var c := cache[CacheKey(urls[i].shortCode) := urls[i].originalUrl];
    var s := urls[i := urls[i].(clicks := urls[i].clicks + 1)];
    forall k | k in c
      ensures exists j :: 0 <= j < |s| && CacheKey(s[j].shortCode) == k && s[j].isActive && c[k] == s[j].originalUrl
    {
      if k == CacheKey(urls[i].shortCode) {
        assert CacheKey(s[i].shortCode) == k;
      } else {
        var j :| 0 <= j < |urls| && CacheKey(urls[j].shortCode) == k
                 && urls[j].isActive && cache[k] == urls[j].originalUrl;
        assert CacheKey(s[j].shortCode) == k;
      }
    }
  }

  /** Under the store's invariant, a cache hit serves exactly what the
      database path would: the target of the stored, active row. */
  lemma CacheHitAgrees(cache: map<string, string>, urls: seq<Url>, code: string)
    requires UniqueCodes(urls) && CacheCoherent(cache, urls) && CacheKey(code) in cache
    ensures CodeInUse(urls, code)
    ensures urls[FindCode(urls, code).value].isActive
    ensures cache[CacheKey(code)] == urls[FindCode(urls, code).value].originalUrl
  {
    var j :| 0 <= j < |urls| && CacheKey(urls[j].shortCode) == CacheKey(code)
             && urls[j].isActive && cache[CacheKey(code)] == urls[j].originalUrl;
    CacheKeyInjective(urls[j].shortCode, code);
    assert CodeInUse(urls, code);
    var f := FindCode(urls, code).value;
    assert f == j;
  }

  lemma ReplaceKeepsValid(urls: seq<Url>, clicks: seq<ClickEvent>, i: nat, u: Url)
    requires i < |urls| && u.shortCode == urls[i].shortCode && u.id == urls[i].id
    requires UniqueCodes(urls) && UniqueUrlIds(urls) && ClicksReferToUrls(clicks, urls)
    ensures UniqueCodes(urls[i := u]) && UniqueUrlIds(urls[i := u])
    ensures ClicksReferToUrls(clicks, urls[i := u])
  {
    var s := urls[i := u];
    forall k | 0 <= k < |clicks| && clicks[k].urlId.Some?
      ensures HasUrlId(s, clicks[k].urlId.value)
    {
      var j :| 0 <= j < |urls| && urls[j].id == clicks[k].urlId.value;
      assert s[j].id == urls[j].id;
    }
  }

  lemma CountKeepsValid(urls: seq<Url>, clicks: seq<ClickEvent>, i: nat, click: ClickEvent, next: int)
    requires i < |urls| && click.urlId == Some(urls[i].id) && click.id == next
    requires ClicksReferToUrls(clicks, urls) && ClickIdsBelow(clicks, next)
    ensures ClicksReferToUrls(clicks + [click], urls[i := urls[i].(clicks := urls[i].clicks + 1)])
    ensures ClickIdsBelow(clicks + [click], next + 1)
  {
    var s := urls[i := urls[i].(clicks := urls[i].clicks + 1)];
    var cs := clicks + [click];
    forall k | 0 <= k < |cs| && cs[k].urlId.Some?
      ensures HasUrlId(s, cs[k].urlId.value)
    {
      var j: int;
      if k == |clicks| {
        j := i;
      } else {
        assert cs[k] == clicks[k];
        j :| 0 <= j < |urls| && urls[j].id == clicks[k].urlId.value;
      }
      assert s[j].id == urls[j].id;
    }
  }

  lemma RemoveKeepsValid(urls: seq<Url>, clicks: seq<ClickEvent>, i: nat)
    requires i < |urls|
    requires UniqueCodes(urls) && UniqueUrlIds(urls) && ClicksReferToUrls(clicks, urls)
    ensures UniqueCodes(urls[..i] + urls[i + 1..]) && UniqueUrlIds(urls[..i] + urls[i + 1..])
    ensures ClicksReferToUrls(DetachClicks(clicks, urls[i].id), urls[..i] + urls[i + 1..])
    ensures !CodeInUse(urls[..i] + urls[i + 1..], urls[i].shortCode)
  {
    var s := urls[..i] + urls[i + 1..];
    assert forall k :: 0 <= k < |s| ==> s[k] == urls[if k < i then k else k + 1];
    var d := DetachClicks(clicks, urls[i].id);
    forall k | 0 <= k < |d| && d[k].urlId.Some?
      ensures HasUrlId(s, d[k].urlId.value)
    {
      var j :| 0 <= j < |urls| && urls[j].id == clicks[k].urlId.value;
      assert j != i;
      var m := if j < i then j else j - 1;
      assert s[m] == urls[j];
    }
  }
}
