/** The administrator's user list: the search filter and the create, update
    and delete handlers around the user dialogs. */
module AdminUsers {
  import opened Text
  import opened Seqs
  import opened AuthContext

  /** The fields of a listed account the page reads. */
  datatype Account = Account(id: int, email: string, fullName: Option<string>)

  /** The email, or a present name, contains the term, ignoring case. */
  predicate Shown(user: Account, term: string) {
    Includes(Lower(user.email), Lower(term))
    || (Truthy(user.fullName) && Includes(Lower(user.fullName.value), Lower(term)))
  }

  /** `filteredUsers`: the accounts shown, in list order. */
  function FilterUsers(users: seq<Account>, term: string): (r: seq<Account>)
    ensures forall i :: 0 <= i < |r| ==> r[i] in users && Shown(r[i], term)
    ensures forall i :: 0 <= i < |users| && Shown(users[i], term) ==> users[i] in r
    ensures IsSubsequence(r, users)
  {
    var keep := (u: Account) => Shown(u, term);
    FilterIsSubsequence(users, keep);
    Filter(users, keep)
  }

  /** An empty term shows every account. */
  lemma EmptyTermShowsAll(users: seq<Account>)
    ensures FilterUsers(users, "") == users
  {
    forall i | 0 <= i < |users|
      ensures Shown(users[i], "")
    {
      IncludesEmpty(Lower(users[i].email));
    }
    FilterKeepsAll(users, (u: Account) => Shown(u, ""));
  }

  /** The "No users found" block appears exactly when no account matches. */
  function NoUsersFound(users: seq<Account>, term: string): (shown: bool)
    ensures shown <==> forall i :: 0 <= i < |users| ==> !Shown(users[i], term)
  {
    var r := FilterUsers(users, term);
    assert r != [] ==> r[0] in r;
    |r| == 0
  }

  datatype Action = Create | Update | Delete

  function Verb(action: Action): (v: string)
    ensures v != ""
  {
    match action
    case Create => "create"
    case Update => "update"
    case Delete => "delete"
  }

  class Page {
    var users: seq<Account>
    var loading: bool
    var isAddModalOpen: bool
    var editingUser: Option<Account>
    var deletingUser: Option<Account>
    var actionLoading: bool

    constructor ()
      ensures users == [] && loading && !isAddModalOpen
      ensures editingUser.None? && deletingUser.None? && !actionLoading
    {
      users, loading, isAddModalOpen := [], true, false;
      editingUser, deletingUser, actionLoading := None, None, false;
    }

    /** `fetchUsers` as the mount effect runs it: a reply replaces the
        list, a failed request keeps it, and `loading` ends false. */
    method FinishLoad(fetched: Option<seq<Account>>)
      modifies this
      ensures users == fetched.GetOr(old(users)) && !loading
      ensures isAddModalOpen == old(isAddModalOpen) && actionLoading == old(actionLoading)
      ensures editingUser == old(editingUser) && deletingUser == old(deletingUser)
    {
      users := fetched.GetOr(users);
      loading := false;
    }

    /** Any of the three handlers up to its request. */
    method BeginAction()
      modifies this
      ensures actionLoading
      ensures users == old(users) && loading == old(loading) && isAddModalOpen == old(isAddModalOpen)
      ensures editingUser == old(editingUser) && deletingUser == old(deletingUser)
    {
      actionLoading := true;
    }

    /** A handler after its request. Success refetches the list (a failed
        refetch, None, keeps it) and closes the dialog of that action; a
        failure alerts with the detail or the error's message and leaves the
        dialog open; `actionLoading` ends false every time. */
    method FinishAction(action: Action, result: Settled, refetched: Option<seq<Account>>)
      returns (alert: Option<string>)
      modifies this
      ensures !actionLoading
      ensures result.Fulfilled? ==>
        && alert.None? && users == refetched.GetOr(old(users)) && !loading
        && isAddModalOpen == (if action == Create then false else old(isAddModalOpen))
        && editingUser == (if action == Update then None else old(editingUser))
        && deletingUser == (if action == Delete then None else old(deletingUser))
      ensures result.Rejected? ==>
        && alert == Some("Failed to " + Verb(action) + " user: " + OrElse(result.detail, result.message))
        && users == old(users) && loading == old(loading) && isAddModalOpen == old(isAddModalOpen)
        && editingUser == old(editingUser) && deletingUser == old(deletingUser)
    {
      if result.Fulfilled? {
        users := refetched.GetOr(users);
        loading := false;
        match action {
          case Create => isAddModalOpen := false;
          case Update => editingUser := None;
          case Delete => deletingUser := None;
        }
        alert := None;
      } else {
        alert := Some("Failed to " + Verb(action) + " user: " + OrElse(result.detail, result.message));
      }
      actionLoading := false;
    }
  }
}
