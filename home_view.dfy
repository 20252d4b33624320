/** The public landing page: the theme toggle, the alias availability effect
    and the two halves of `handleSubmit` for the anonymous shortening form.
    The browser's own form validation (`required`, `pattern`) is outside. */
module HomeView {
  import opened Text

  // ---------------------------------------------------------------------
  // Theme

  const InitialTheme: string := "dark"

  /** `prev === 'light' ? 'dark' : 'light'`. */
  function NextTheme(theme: string): (t: string)
    ensures t == "dark" <==> theme == "light"
    ensures t == "light" <==> theme != "light"
  {
    if theme == "light" then "dark" else "light"
  }

  /** Toggling swaps the two themes, so toggling twice restores either one. */
  lemma ToggleTwice(theme: string)
    requires theme == "light" || theme == "dark"
    ensures NextTheme(NextTheme(theme)) == theme
    ensures NextTheme(InitialTheme) == "light"
  {
  }

  // ---------------------------------------------------------------------
  // parseInt

  predicate IsDigit(c: char) {
    '0' <= c <= '9'
  }

  /** The longest run of digits at the start. */
  function DigitPrefix(s: string): (r: string)
    ensures r <= s
    ensures forall i :: 0 <= i < |r| ==> IsDigit(r[i])
    ensures |r| < |s| ==> !IsDigit(s[|r|])
  {
    if s == [] || !IsDigit(s[0]) then [] else [s[0]] + DigitPrefix(s[1..])
  }

  /** The decimal value of a run of digits. */
  function DigitsValue(ds: string): nat
    requires forall i :: 0 <= i < |ds| ==> IsDigit(ds[i])
  {
    if ds == [] then 0
    else
      var last := ds[|ds| - 1];
      assert IsDigit(last);
      DigitsValue(ds[..|ds| - 1]) * 10 + (last as int - '0' as int)
  }

  /** `parseInt(value)` for the text of a number field: an optional sign,
      then the leading digits; no digits is NaN, which the JSON body carries
      as null. */
  function ParseInt(s: string): (r: Option<int>)
    ensures r.None? <==> DigitPrefix(if s != [] && (s[0] == '-' || s[0] == '+') then s[1..] else s) == []
    ensures r.Some? && s != [] && s[0] == '-' ==> r.value <= 0
    ensures r.Some? && !(s != [] && s[0] == '-') ==> r.value >= 0
  {
    var negative := s != [] && s[0] == '-';
    var body := if s != [] && (s[0] == '-' || s[0] == '+') then s[1..] else s;
    var digits := DigitPrefix(body);
    var magnitude: int := if digits == [] then 0 else DigitsValue(digits);
    if digits == [] then None
    else if negative then Some(-magnitude)
    else Some(magnitude)
  }

  lemma {:induction false} DigitPrefixOfDigits(s: string)
    requires forall i :: 0 <= i < |s| ==> IsDigit(s[i])
    ensures DigitPrefix(s) == s
  {
    if s != [] {
      DigitPrefixOfDigits(s[1..]);
      assert [s[0]] + s[1..] == s;
    }
  }

  lemma {:induction false} ValueOfDecimal(n: nat)
    ensures forall i :: 0 <= i < |NatToString(n)| ==> IsDigit(NatToString(n)[i])
    ensures DigitsValue(NatToString(n)) == n
    decreases n
  {
    var s := NatToString(n);
    if n >= 10 {
      ValueOfDecimal(n / 10);
      assert s[..|s| - 1] == NatToString(n / 10);
    }
  }

  /** The decimal text of a count parses back to that count; a fraction or an
      exponent is cut at its first non-digit. */
  lemma ParseIntRoundTrip(n: nat)
    ensures ParseInt(NatToString(n)) == Some(n)
    ensures ParseInt("1.5") == Some(1) && ParseInt("-3") == Some(-3) && ParseInt("e") == None
  {
    ValueOfDecimal(n);
    DigitPrefixOfDigits(NatToString(n));
    assert NatToString(n)[0] != '-' && NatToString(n)[0] != '+';
    assert DigitPrefix(".5") == [];
    assert DigitPrefix("1.5") == "1";
    assert DigitPrefix("3") == "3";
    assert DigitsValue("1") == 1 && DigitsValue("3") == 3;
  }

  // ---------------------------------------------------------------------
  // The form

  /** The anonymous create request body. */
  datatype Payload = Payload(
    originalUrl: string,
    customAlias: Option<string>,
    password: Option<string>,
    expiresAt: Option<string>,
    maxClicks: Option<int>)

  /** The payload: empty text fields are sent as null, and the click limit
      is parsed when given. */
  function BuildPayload(url: string, alias: string, password: string, expiresAt: string, maxClicks: string): (p: Payload)
    ensures p.originalUrl == url
    ensures p.customAlias == NonEmptyOrNull(alias) && p.password == NonEmptyOrNull(password)
    ensures p.expiresAt == NonEmptyOrNull(expiresAt)
    ensures maxClicks == "" ==> p.maxClicks.None?
    ensures maxClicks != "" ==> p.maxClicks == ParseInt(maxClicks)
  {
    Payload(url, NonEmptyOrNull(alias), NonEmptyOrNull(password), NonEmptyOrNull(expiresAt),
            if maxClicks != "" then ParseInt(maxClicks) else None)
  }

  /** The answer to the request: the created code, an error response with
      its detail, or a request that never got an answer. */
  datatype Reply = Created(shortCode: string) | Rejected(detail: Option<string>) | FetchFailed(message: string)

  class Page {
    var url: string
    var customAlias: string
    var aliasAvailable: Option<bool>
    var password: string
    var expiresAt: string
    var maxClicks: string
    var shortUrl: Option<string>
    var loading: bool
    var error: Option<string>
    var theme: string

    constructor ()
      ensures url == "" && customAlias == "" && aliasAvailable.None?
      ensures password == "" && expiresAt == "" && maxClicks == ""
      ensures shortUrl.None? && !loading && error.None? && theme == InitialTheme
    {
      url, customAlias, aliasAvailable := "", "", None;
      password, expiresAt, maxClicks := "", "", "";
      shortUrl, loading, error, theme := None, false, None, InitialTheme;
    }

    method ToggleTheme()
      modifies this
      ensures theme == NextTheme(old(theme))
      ensures url == old(url) && customAlias == old(customAlias) && aliasAvailable == old(aliasAvailable)
      ensures shortUrl == old(shortUrl) && loading == old(loading) && error == old(error)
      ensures password == old(password) && expiresAt == old(expiresAt) && maxClicks == old(maxClicks)
    {
      theme := NextTheme(theme);
    }

    /** Typing into the alias field (no sanitising here). When the alias
        changes, an empty one clears the availability and sends no check. */
    method TypeAlias(typed: string) returns (checkIssued: bool)
      modifies this
      ensures customAlias == typed
      ensures checkIssued <==> typed != old(customAlias) && typed != ""
      ensures aliasAvailable == (if typed != old(customAlias) && typed == "" then None else old(aliasAvailable))
      ensures url == old(url) && shortUrl == old(shortUrl) && loading == old(loading) && error == old(error)
      ensures password == old(password) && expiresAt == old(expiresAt) && maxClicks == old(maxClicks)
      ensures theme == old(theme)
    {
      checkIssued := false;
      if typed != customAlias {
        customAlias := typed;
        if typed == "" {
          aliasAvailable := None;
        } else {
          checkIssued := true;
        }
      }
    }

    /** The availability check answered (None when the request failed). */
    method CheckAnswered(available: Option<bool>)
      modifies this
      ensures aliasAvailable == available
      ensures url == old(url) && customAlias == old(customAlias)
      ensures shortUrl == old(shortUrl) && loading == old(loading) && error == old(error)
      ensures password == old(password) && expiresAt == old(expiresAt) && maxClicks == old(maxClicks)
      ensures theme == old(theme)
    {
      aliasAvailable := available;
    }

    /** `handleSubmit` up to the request. Sending clears the error and the
        previous short URL and raises `loading`. */
    method BeginSubmit() returns (sent: Option<Payload>)
      modifies this
      ensures url == old(url) && customAlias == old(customAlias) && aliasAvailable == old(aliasAvailable)
      ensures theme == old(theme)
      ensures password == old(password) && expiresAt == old(expiresAt) && maxClicks == old(maxClicks)
      ensures old(url) == "" ==> sent.None? && error == old(error) && loading == old(loading) && shortUrl == old(shortUrl)
      ensures old(url) != "" && old(customAlias) != "" && old(aliasAvailable) == Some(false) ==>
        sent.None? && error == Some("Custom alias is already taken.") && loading == old(loading) && shortUrl == old(shortUrl)
      ensures sent.Some? <==> old(url) != "" && !(old(customAlias) != "" && old(aliasAvailable) == Some(false))
      ensures sent.Some? ==>
        && sent.value == BuildPayload(old(url), old(customAlias), old(password), old(expiresAt), old(maxClicks))
        && loading && error.None? && shortUrl.None?
    {
      if url == "" {
        return None;
      }
      if customAlias != "" && aliasAvailable == Some(false) {
        error := Some("Custom alias is already taken.");
        return None;
      }
      loading := true;
      error := None;
      shortUrl := None;
      sent := Some(BuildPayload(url, customAlias, password, expiresAt, maxClicks));
    }

    /** `handleSubmit` after the request; `loading` ends false either way. */
    method FinishSubmit(origin: string, reply: Reply)
      modifies this
      ensures !loading
      ensures reply.Created? ==> shortUrl == Some(origin + "/" + reply.shortCode) && error == old(error)
      ensures reply.Rejected? ==> error == Some(OrElse(reply.detail, "Failed to shorten URL")) && shortUrl == old(shortUrl)
      ensures reply.FetchFailed? ==> error == Some(reply.message) && shortUrl == old(shortUrl)
      ensures url == old(url) && customAlias == old(customAlias) && theme == old(theme)
      ensures password == old(password) && expiresAt == old(expiresAt) && maxClicks == old(maxClicks)
      ensures aliasAvailable == old(aliasAvailable)
    {
      match reply {
        case Created(code) => shortUrl := Some(origin + "/" + code);
        case Rejected(detail) => error := Some(OrElse(detail, "Failed to shorten URL"));
        case FetchFailed(message) => error := Some(message);
      }
      loading := false;
    }
  }
}
