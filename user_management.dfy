/** The admin user-management panel (src/components/admin/UserManagement.tsx).
    It keeps its own `users` and `loading` state and repeats, line for line,
    the normalisation and toggle of the user-list hook, which it reuses here. */
module UserManagement {
  import opened Types
  import opened Rows
  import UseUsers

  class UserManagementState {
    var users: seq<User>
    var loading: bool

    constructor ()
      ensures users == [] && loading
    {
      users, loading := [], true;
    }

    /** The panel renders "Loading..." until the fetch has settled. */
    function ShowsLoading(): bool
      reads this
    {
      loading
    }

    method FinishFetch(result: UseUsers.FetchResult)
      modifies this
      ensures !loading && !ShowsLoading()
      ensures users == if result.Fetched? && result.data.Some? then UseUsers.ToUsers(result.data.value)
                       else old(users)
    {
      if result.Fetched? && result.data.Some? {
        users := UseUsers.ToUsers(result.data.value);
      }
      loading := false;
    }

    method HandleToggleBan(userId: string, currentBanStatus: bool, remoteOk: bool)
      modifies this`users
      ensures |users| == |old(users)|
      ensures users == if remoteOk then UseUsers.ToggleBan(old(users), userId, currentBanStatus)
                       else old(users)
    {
      if remoteOk {
        users := UseUsers.ToggleBan(users, userId, currentBanStatus);
      }
    }
  }
}
