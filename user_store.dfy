/** The signed-in user's store (apps/web-app/src/shared/store/userStore.ts). */
module UserStoreState {
  import opened JsText

  /** The fields of a user record that the booking pages read; the full record
      type of the users API is not part of this model. */
  datatype User = User(id: int, realname: string, phone: string)

  /** The store's data as a value: `user` (`null` is `None`) and `isAuthenticated`. */
  datatype UserState = UserState(user: Option<User>, isAuthenticated: bool)

  const InitialUserState := UserState(None, false)

  /** Signed in exactly when a user is present. */
  predicate Consistent(s: UserState) {
    s.isAuthenticated <==> s.user.Some?
  }

  /** `setUser`. */
  function SetUser(s: UserState, u: User): (r: UserState)
    ensures r.user == Some(u) && r.isAuthenticated
  {
    UserState(Some(u), true)
  }

  /** `clearUser`. */
  function ClearUser(s: UserState): (r: UserState)
    ensures r.user == None && !r.isAuthenticated
  {
    UserState(None, false)
  }

  /** The invariant holds initially and after every action, from any state. */
  lemma ActionsKeepConsistent(s: UserState, u: User)
    ensures Consistent(InitialUserState)
    ensures Consistent(SetUser(s, u)) && Consistent(ClearUser(s))
  {
  }

  /** Signing out returns to the initial state, whatever came before. */
  lemma ClearUserIsInitial(s: UserState)
    ensures ClearUser(s) == InitialUserState
  {
  }

  class UserStore {
    var user: Option<User>
    var isAuthenticated: bool

    function State(): (s: UserState)
      reads this
      ensures s.user == user && s.isAuthenticated == isAuthenticated
    {
      UserState(user, isAuthenticated)
    }

    ghost predicate Valid()
      reads this
    {
      Consistent(State())
    }

    constructor ()
      ensures Valid() && State() == InitialUserState
    {
      user := None;
      isAuthenticated := false;
    }

    method SetUserAction(u: User)
      modifies this
      ensures Valid() && State() == SetUser(old(State()), u)
    {
      user := Some(u);
      isAuthenticated := true;
    }

    method ClearUserAction()
      modifies this
      ensures Valid() && State() == ClearUser(old(State()))
    {
      user := None;
      isAuthenticated := false;
    }
  }
}
