/** The "My Links" page: the search filter, deletion by short code and the
    URL put on the clipboard. */
module Links {
  import opened Text
  import opened Seqs

  /** The fields of a listed link the page reads. */
  datatype Link = Link(shortCode: string, originalUrl: string)

  /** A link matches when its code or its target contains the search text,
      ignoring case. */
  predicate Matches(link: Link, search: string) {
    Includes(Lower(link.shortCode), Lower(search)) || Includes(Lower(link.originalUrl), Lower(search))
  }

  /** `filteredLinks`: the matching links, in list order. */
  function Visible(links: seq<Link>, search: string): (r: seq<Link>)
    ensures forall i :: 0 <= i < |r| ==> r[i] in links && Matches(r[i], search)
    ensures forall i :: 0 <= i < |links| && Matches(links[i], search) ==> links[i] in r
    ensures IsSubsequence(r, links)
  {
    var keep := (l: Link) => Matches(l, search);
    FilterIsSubsequence(links, keep);
    Filter(links, keep)
  }

  /** An empty search shows every link. */
  lemma EmptySearchShowsAll(links: seq<Link>)
    ensures Visible(links, "") == links
  {
    forall i | 0 <= i < |links|
      ensures Matches(links[i], "")
    {
      IncludesEmpty(Lower(links[i].shortCode));
    }
    FilterKeepsAll(links, (l: Link) => Matches(l, ""));
  }

  /** `links.filter(l => l.short_code !== shortCode)`. */
  function WithoutCode(links: seq<Link>, code: string): (r: seq<Link>)
    ensures forall i :: 0 <= i < |r| ==> r[i] in links && r[i].shortCode != code
    ensures forall i :: 0 <= i < |links| && links[i].shortCode != code ==> links[i] in r
    ensures IsSubsequence(r, links)
  {
    var keep := (l: Link) => l.shortCode != code;
    FilterIsSubsequence(links, keep);
    Filter(links, keep)
  }

  /** Deleting a code the list does not hold leaves the list as it is. */
  lemma WithoutAbsentCode(links: seq<Link>, code: string)
    requires forall i :: 0 <= i < |links| ==> links[i].shortCode != code
    ensures WithoutCode(links, code) == links
  {
    FilterKeepsAll(links, (l: Link) => l.shortCode != code);
  }

  class Page {
    var links: seq<Link>
    var search: string
    var deleteLoading: Option<string>
    var copiedId: Option<string>

    constructor ()
      ensures links == [] && search == "" && deleteLoading.None? && copiedId.None?
    {
      links, search, deleteLoading, copiedId := [], "", None, None;
    }

    /** `handleCopy`: the full short URL is copied and the code marked. */
    method Copy(origin: string, code: string) returns (url: string)
      modifies this
      ensures url == origin + "/" + code && copiedId == Some(code)
      ensures links == old(links) && deleteLoading == old(deleteLoading)
      ensures search == old(search)
    {
      url := origin + "/" + code;
      copiedId := Some(code);
    }

    /** `handleDelete` up to the request. Declining the confirmation changes
        nothing; otherwise the code is marked as being deleted, and the list
        the handler closed over is what the request's success will filter. */
    method BeginDelete(code: string, confirmed: bool) returns (captured: Option<seq<Link>>)
      modifies this
      ensures links == old(links) && copiedId == old(copiedId)
      ensures search == old(search)
      ensures !confirmed ==> captured.None? && deleteLoading == old(deleteLoading)
      ensures confirmed ==> captured == Some(links) && deleteLoading == Some(code)
    {
      if !confirmed {
        return None;
      }
      deleteLoading := Some(code);
      captured := Some(links);
    }

    /** `handleDelete` after the request: success replaces the list by the
        captured list without that code; failure alerts and keeps the list;
        the deletion mark is cleared either way. */
    method FinishDelete(code: string, captured: seq<Link>, deleted: bool) returns (alert: Option<string>)
      modifies this
      ensures deleteLoading.None? && copiedId == old(copiedId)
      ensures search == old(search)
      ensures deleted ==> links == WithoutCode(captured, code) && alert.None?
      ensures !deleted ==> links == old(links) && alert == Some("Failed to delete link")
    {
      if deleted {
        links := WithoutCode(captured, code);
        alert := None;
      } else {
        alert := Some("Failed to delete link");
      }
      deleteLoading := None;
    }
  }
}
