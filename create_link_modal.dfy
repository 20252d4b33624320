/** The dashboard's "create link" modal: the alias sanitiser, the reset when
    the modal opens, the availability effect and the two halves of
    `handleSubmit` (before and after the request). The debounced availability
    request itself is outside: its answer arrives through `CheckAnswered`. */
module CreateLinkModal {
  import opened Text
  import opened Seqs
  import Service
  import opened AuthContext

  /** `value.replace(/[^a-zA-Z0-9-_]/g, '')`: the characters outside the
      alias class are dropped, the rest kept in order. */
  function SanitizeAlias(typed: string): (r: string)
    ensures |r| <= |typed|
    ensures forall i :: 0 <= i < |r| ==> Service.IsAliasChar(r[i])
  {
    Filter(typed, Service.IsAliasChar)
  }

  /** The sanitised alias is the typed text with characters deleted. */
  lemma SanitizeIsSubsequence(typed: string)
    ensures IsSubsequence(SanitizeAlias(typed), typed)
  {
    FilterIsSubsequence(typed, Service.IsAliasChar);
  }

  /** Text made only of allowed characters passes through unchanged. */
  lemma SanitizeKeepsClean(s: string)
    requires forall i :: 0 <= i < |s| ==> Service.IsAliasChar(s[i])
    ensures SanitizeAlias(s) == s
  {
    FilterKeepsAll(s, Service.IsAliasChar);
  }

  /** Sanitising twice is sanitising once. */
  lemma SanitizeIdempotent(typed: string)
    ensures SanitizeAlias(SanitizeAlias(typed)) == SanitizeAlias(typed)
  {
    FilterIdempotent(typed, Service.IsAliasChar);
  }

  /** The create request body. */
  datatype Payload = Payload(originalUrl: string, customAlias: Option<string>, password: Option<string>)

  /** The payload: an empty alias or password is sent as null. */
  function BuildPayload(url: string, alias: string, password: string): (p: Payload)
    ensures p.originalUrl == url
    ensures p.customAlias.None? <==> alias == ""
    ensures p.customAlias.Some? ==> p.customAlias.value == alias
    ensures p.password.None? <==> password == ""
    ensures p.password.Some? ==> p.password.value == password
  {
    Payload(url, NonEmptyOrNull(alias), NonEmptyOrNull(password))
  }

  /** An alias typed into the modal never fails the service's format check:
      the service can only answer "Reserved alias" or "Alias taken" for it. */
  lemma ModalAliasNeverMalformed(url: string, typed: string, password: string)
    ensures var p := BuildPayload(url, SanitizeAlias(typed), password);
            Truthy(p.customAlias) ==> Service.AliasPatternMatches(p.customAlias.value)
  {
  }

  class Form {
    var url: string
    var customAlias: string
    var password: string
    var aliasAvailable: Option<bool>
    var showOptions: bool
    var loading: bool
    var error: Option<string>
    var result: Option<string>

    constructor ()
      ensures url == "" && customAlias == "" && password == ""
      ensures aliasAvailable.None? && !showOptions && !loading && error.None? && result.None?
    {
      url, customAlias, password := "", "", "";
      aliasAvailable, showOptions, loading, error, result := None, false, false, None, None;
    }

    /** The effect that runs when the modal opens: every input, the
        availability, the options panel, the result and the error are reset;
        `loading` is left as it is. */
    method Open()
      modifies this
      ensures url == "" && customAlias == "" && password == ""
      ensures aliasAvailable.None? && !showOptions && result.None? && error.None?
      ensures loading == old(loading)
    {
      url, customAlias, password := "", "", "";
      aliasAvailable, showOptions, result, error := None, false, None, None;
    }

    /** Typing into the alias field. When the sanitised alias changes, the
        availability effect runs: an empty alias clears the availability and
        sends no check; any other starts a check. */
    method TypeAlias(typed: string) returns (checkIssued: bool)
      modifies this
      ensures customAlias == SanitizeAlias(typed)
      ensures checkIssued <==> customAlias != old(customAlias) && customAlias != ""
      ensures aliasAvailable == (if customAlias != old(customAlias) && customAlias == "" then None else old(aliasAvailable))
      ensures url == old(url) && password == old(password) && showOptions == old(showOptions)
      ensures loading == old(loading) && error == old(error) && result == old(result)
    {
      var next := SanitizeAlias(typed);
      checkIssued := false;
      if next != customAlias {
        customAlias := next;
        if customAlias == "" {
          aliasAvailable := None;
        } else {
          checkIssued := true;
        }
      }
    }

    /** The availability check answered (None when the request failed). */
    method CheckAnswered(available: Option<bool>)
      modifies this
      ensures aliasAvailable == available
      ensures url == old(url) && customAlias == old(customAlias) && password == old(password)
      ensures showOptions == old(showOptions) && loading == old(loading)
      ensures error == old(error) && result == old(result)
    {
      aliasAvailable := available;
    }

    /** `handleSubmit` up to the request: an empty url does nothing; an alias
        known to be taken sets the error and sends nothing (an unknown
        availability does not block); otherwise the request is sent. */
    method BeginSubmit() returns (sent: Option<Payload>)
      modifies this
      ensures url == old(url) && customAlias == old(customAlias) && password == old(password)
      ensures aliasAvailable == old(aliasAvailable) && showOptions == old(showOptions)
      ensures result == old(result)
      ensures old(url) == "" ==> sent.None? && loading == old(loading) && error == old(error)
      ensures old(url) != "" && old(customAlias) != "" && old(aliasAvailable) == Some(false) ==>
        sent.None? && loading == old(loading) && error == Some("Custom alias is already taken")
      ensures sent.Some? <==> old(url) != "" && !(old(customAlias) != "" && old(aliasAvailable) == Some(false))
      ensures sent.Some? ==> sent.value == BuildPayload(url, customAlias, password) && loading && error.None?
    {
      if url == "" {
        return None;
      }
      if customAlias != "" && aliasAvailable == Some(false) {
        error := Some("Custom alias is already taken");
        return None;
      }
      loading := true;
      error := None;
      sent := Some(BuildPayload(url, customAlias, password));
    }

    /** `handleSubmit` after the request: the full short URL on success, the
        service's detail or a fixed message on failure; `loading` ends false
        either way. */
    method FinishSubmit(origin: string, response: Response<string>)
      modifies this
      ensures !loading
      ensures response.Ok? ==> result == Some(origin + "/" + response.body) && error == old(error)
      ensures response.Failed? ==> error == Some(OrElse(response.detail, "Failed to create link")) && result == old(result)
      ensures url == old(url) && customAlias == old(customAlias) && password == old(password)
      ensures aliasAvailable == old(aliasAvailable) && showOptions == old(showOptions)
    {
      if response.Ok? {
        result := Some(origin + "/" + response.body);
      } else {
        error := Some(OrElse(response.detail, "Failed to create link"));
      }
      loading := false;
    }
  }
}
