/** The backend's table rows. `URL` and `ClickEvent` follow the declared
    columns; `User`, which the service reads and writes but whose declaration
    is not part of this model, is inferred from its uses (email, hashed
    password, full name, bio, active and superuser flags). Times are integer
    seconds (UTC). The owner column `user_id` of a URL is `owner`. */
module Models {
  import opened Text

  datatype Url = Url(
    id: int,
    originalUrl: string,
    shortCode: string,
    createdAt: int,
    clicks: int,
    password: Option<string>,
    expiresAt: Option<int>,
    maxClicks: Option<int>,
    isActive: bool,
    owner: Option<int>)

  datatype ClickEvent = ClickEvent(
    id: int,
    urlId: Option<int>,
    timestamp: int,
    referrer: Option<string>,
    userAgent: Option<string>,
    country: Option<string>)

  datatype User = User(
    id: int,
    email: string,
    hashedPassword: string,
    fullName: Option<string>,
    bio: Option<string>,
    isActive: bool,
    isSuperuser: bool)

  /** A new URL row: the column defaults (`clicks` 0, active) and the given
      values; the optional columns keep whatever was supplied, null included. */
  function NewUrl(id: int, originalUrl: string, shortCode: string, createdAt: int,
                  password: Option<string>, expiresAt: Option<int>, maxClicks: Option<int>,
                  owner: Option<int>): (u: Url)
    ensures u.clicks == 0 && u.isActive
    ensures u.id == id && u.createdAt == createdAt && u.owner == owner
    ensures u.originalUrl == originalUrl && u.shortCode == shortCode
    ensures u.password == password && u.expiresAt == expiresAt && u.maxClicks == maxClicks
  {
    Url(id, originalUrl, shortCode, createdAt, 0, password, expiresAt, maxClicks, true, owner)
  }

  /** Some row already carries this short code. */
  predicate CodeInUse(urls: seq<Url>, code: string) {
    exists i :: 0 <= i < |urls| && urls[i].shortCode == code
  }

  /** The `unique=True` constraint on `short_code`. */
  ghost predicate UniqueCodes(urls: seq<Url>) {
    forall i, j :: 0 <= i < j < |urls| ==> urls[i].shortCode != urls[j].shortCode
  }

  /** Primary keys are distinct and below the next key to hand out. */
  ghost predicate UrlIdsBelow(urls: seq<Url>, next: int) {
    forall i :: 0 <= i < |urls| ==> urls[i].id < next
  }

  ghost predicate UniqueUrlIds(urls: seq<Url>) {
    forall i, j :: 0 <= i < j < |urls| ==> urls[i].id != urls[j].id
  }

  ghost predicate ClickIdsBelow(clicks: seq<ClickEvent>, next: int) {
    forall i :: 0 <= i < |clicks| ==> clicks[i].id < next
  }

  /** Some row has this primary key. */
  predicate HasUrlId(urls: seq<Url>, id: int) {
    exists i :: 0 <= i < |urls| && urls[i].id == id
  }

  /** The foreign key `click_events.url_id`: null or the key of a stored URL. */
  ghost predicate ClicksReferToUrls(clicks: seq<ClickEvent>, urls: seq<Url>) {
    forall i :: 0 <= i < |clicks| && clicks[i].urlId.Some? ==> HasUrlId(urls, clicks[i].urlId.value)
  }

  ghost predicate UniqueEmails(users: seq<User>) {
    forall i, j :: 0 <= i < j < |users| ==> users[i].email != users[j].email
  }

  /** Appending a row whose code is not in use keeps the codes unique. */
  lemma {:induction false} AppendFreshCode(urls: seq<Url>, u: Url)
    requires UniqueCodes(urls) && !CodeInUse(urls, u.shortCode)
    ensures UniqueCodes(urls + [u])
  {
    var s := urls + [u];
    forall i, j | 0 <= i < j < |s| ensures s[i].shortCode != s[j].shortCode {
      if j == |urls| {
        assert s[i] == urls[i];
      } else {
        assert s[i] == urls[i] && s[j] == urls[j];
      }
    }
  }
}
