/** The toast list behind `useToast`: `addToast` appends, `removeToast`
    drops by id, and the style a toast is drawn with. The random id and the
    removal timer are parameters: `Add` is given the id and returns the
    removal it schedules. */
module ToastContext {
  import opened Text
  import opened Seqs

  datatype Toast = Toast(id: string, message: string, kind: string)

  const DefaultKind: string := "success"
  const DefaultDuration: int := 2000

  /** `prev.filter(t => t.id !== id)`. */
  function WithoutId(toasts: seq<Toast>, id: string): (r: seq<Toast>)
    ensures forall i :: 0 <= i < |r| ==> r[i] in toasts && r[i].id != id
    ensures forall i :: 0 <= i < |toasts| && toasts[i].id != id ==> toasts[i] in r
    ensures IsSubsequence(r, toasts)
  {
    var keep := (t: Toast) => t.id != id;
    FilterIsSubsequence(toasts, keep);
    Filter(toasts, keep)
  }

  /** Removing an id no toast carries changes nothing. */
  lemma RemoveAbsentId(toasts: seq<Toast>, id: string)
    requires forall i :: 0 <= i < |toasts| ==> toasts[i].id != id
    ensures WithoutId(toasts, id) == toasts
  {
    FilterKeepsAll(toasts, (t: Toast) => t.id != id);
  }

  /** Adding a toast with a fresh id and then removing that id gives back
      the list as it was. */
  lemma AddThenRemove(toasts: seq<Toast>, t: Toast)
    requires forall i :: 0 <= i < |toasts| ==> toasts[i].id != t.id
    ensures WithoutId(toasts + [t], t.id) == toasts
  {
    var keep := (x: Toast) => x.id != t.id;
    FilterAppend(toasts, [t], keep);
    FilterKeepsAll(toasts, keep);
    assert Filter([t], keep) == [];
  }

  datatype Style = SuccessStyle | ErrorStyle | InfoStyle

  /** `styles[type] || styles.info`, and the matching icon: the two known
      kinds have their own look, any other kind looks like 'info'. */
  function StyleOf(kind: string): (s: Style)
    ensures s == SuccessStyle <==> kind == "success"
    ensures s == ErrorStyle <==> kind == "error"
    ensures s == InfoStyle <==> kind != "success" && kind != "error"
  {
    if kind == "success" then SuccessStyle else if kind == "error" then ErrorStyle else InfoStyle
  }

  class Provider {
    var toasts: seq<Toast>

    constructor ()
      ensures toasts == []
    {
      toasts := [];
    }

    /** `addToast(message, type, duration)`: one toast appended at the end,
        an omitted kind or duration taking its default; the result is the
        scheduled removal (id, delay). */
    method Add(message: string, kind: Option<string>, duration: Option<int>, id: string)
      returns (removal: (string, int))
      modifies this
      ensures toasts == old(toasts) + [Toast(id, message, kind.GetOr(DefaultKind))]
      ensures removal == (id, duration.GetOr(DefaultDuration))
    {
      toasts := toasts + [Toast(id, message, kind.GetOr(DefaultKind))];
      removal := (id, duration.GetOr(DefaultDuration));
    }

    /** `removeToast(id)`: every toast with that id goes, the others stay in
        order. */
    method Remove(id: string)
      modifies this
      ensures toasts == WithoutId(old(toasts), id)
    {
      toasts := WithoutId(toasts, id);
    }
  }
}
