/** `UserContext`: the page's signed-in user. The id of the last signed-in
    user is kept in the browser's storage (`storedId`); the profile is
    fetched from the server, whose answer is a parameter (`None` when the
    request failed). Each asynchronous step is taken to run to completion
    before the next begins. */
module UserContext {
  import opened Wrappers

  /** The user as the page receives it. */
  datatype Profile = Profile(id: string, email: string, name: Option<string>, available: int, reserved: int)

  /** JavaScript truthiness of a stored string: present and non-empty. */
  predicate Truthy(s: Option<string>) {
    s.Some? && s.value != ""
  }

  class UserSession {
    var user: Option<Profile>
    var isLoading: bool
    var storedId: Option<string>

    /** A profile is only shown while an id is stored for it. */
    predicate Consistent()
      reads this
    {
      user.Some? ==> storedId.Some?
    }

    /** The provider's first render: no user, loading, storage as the
        browser holds it. */
    constructor(storedId: Option<string>)
      ensures user.None? && isLoading && this.storedId == storedId
      ensures Consistent()
    {
      user := None;
      isLoading := true;
      this.storedId := storedId;
    }

    /** `fetchUser`: on success the profile is shown and its id stored; on
        failure the stored id is removed and no profile is shown. Loading
        is over either way. */
    method FetchUser(userId: string, response: Option<Profile>)
      modifies this
      ensures response.Some? ==> user == response && storedId == Some(userId)
      ensures response.None? ==> user.None? && storedId.None?
      ensures !isLoading
      ensures Consistent()
    {
      if response.Some? {
        user := response;
        storedId := Some(userId);
      } else {
        storedId := None;
        user := None;
      }
      isLoading := false;
    }

    /** The mount effect: fetches the stored user when an id is stored;
        otherwise just ends loading. */
    method Mount(response: Option<Profile>)
      requires Consistent()
      modifies this
      ensures !isLoading && Consistent()
      ensures Truthy(old(storedId)) && response.Some? ==> user == response && storedId == old(storedId)
      ensures Truthy(old(storedId)) && response.None? ==> user.None? && storedId.None?
      ensures !Truthy(old(storedId)) ==> user == old(user) && storedId == old(storedId)
    {
      if Truthy(storedId) {
        FetchUser(storedId.value, response);
      } else {
        isLoading := false;
      }
    }

    /** `login`: starts loading, then fetches the given user. */
    method Login(userId: string, response: Option<Profile>)
      modifies this
      ensures response.Some? ==> user == response && storedId == Some(userId)
      ensures response.None? ==> user.None? && storedId.None?
      ensures !isLoading && Consistent()
    {
      isLoading := true;
      FetchUser(userId, response);
    }

    /** `logout`: forgets the stored id and the profile; loading is untouched. */
    method Logout()
      modifies this
      ensures user.None? && storedId.None? && isLoading == old(isLoading)
      ensures Consistent()
    {
      storedId := None;
      user := None;
    }

    /** `refreshUser`: fetches the stored user again when an id is stored;
        otherwise nothing changes. */
    method RefreshUser(response: Option<Profile>)
      modifies this
      ensures Truthy(old(storedId)) ==>
                && !isLoading
                && (response.Some? ==> user == response && storedId == old(storedId))
                && (response.None? ==> user.None? && storedId.None?)
      ensures !Truthy(old(storedId)) ==>
                user == old(user) && storedId == old(storedId) && isLoading == old(isLoading)
      ensures old(Consistent()) ==> Consistent()
    {
      if Truthy(storedId) {
        FetchUser(storedId.value, response);
      }
    }
  }
}
