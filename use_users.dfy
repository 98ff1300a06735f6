/** The admin user list (src/components/admin/users/use-users.ts): profile rows
    normalised to users, the `loading` flag, and the local ban toggle applied
    once the remote update has succeeded. */
module UseUsers {
  import opened Types
  import opened Rows

  /** The profile-row to user normalisation. */
  function ToUser(p: ProfileRow): (u: User)
    ensures u.id == p.id && u.name == p.name && u.userType == p.userType
    ensures u.email == "" && u.avatarUrl.None? && u.createdAt == p.createdAt
    ensures u.isBanned <==> p.isBanned == Some(true)
    ensures u.isScammer <==> p.isScammer == Some(true)
    ensures u.phoneNumber.None? <==> p.phoneNumber.None? || p.phoneNumber.value == ""
    ensures u.phoneNumber.Some? ==> u.phoneNumber == p.phoneNumber
    ensures u.location.None? <==> p.location.None? || p.location.value == ""
    ensures u.location.Some? ==> u.location == p.location
  {
    User(p.id, "", p.name, p.userType, OrUndefined(p.phoneNumber), OrUndefined(p.location),
         OrFalse(p.isBanned), OrFalse(p.isScammer), None, p.createdAt)
  }

  /** `data.map(...)`: one user per row, in the order fetched. */
  function ToUsers(ps: seq<ProfileRow>): (us: seq<User>)
    ensures |us| == |ps|
    ensures forall i :: 0 <= i < |ps| ==> us[i] == ToUser(ps[i])
  {
    seq(|ps|, i requires 0 <= i < |ps| => ToUser(ps[i]))
  }

  /** `users.map(...)` after a successful update: every user with the id takes
      the negation of the argument, whatever it held before; the rest are untouched. */
  function ToggleBan(users: seq<User>, userId: string, currentBanStatus: bool): (r: seq<User>)
    ensures |r| == |users|
    ensures forall i :: 0 <= i < |users| && users[i].id == userId ==>
              r[i].isBanned == !currentBanStatus && r[i].(isBanned := users[i].isBanned) == users[i]
    ensures forall i :: 0 <= i < |users| && users[i].id != userId ==> r[i] == users[i]
  {
    if users == [] then []
    else
      var u := users[0];
      [if u.id == userId then u.(isBanned := !currentBanStatus) else u]
      + ToggleBan(users[1..], userId, currentBanStatus)
  }

  /** Applying the same toggle twice gives what applying it once gives. */
  lemma {:induction false} ToggleBanIdempotent(users: seq<User>, userId: string, currentBanStatus: bool)
    ensures ToggleBan(ToggleBan(users, userId, currentBanStatus), userId, currentBanStatus)
            == ToggleBan(users, userId, currentBanStatus)
    decreases |users|
  {
    if users != [] {
      var once := ToggleBan(users, userId, currentBanStatus);
      ToggleBanIdempotent(users[1..], userId, currentBanStatus);
      assert once[1..] == ToggleBan(users[1..], userId, currentBanStatus);
    }
  }

  /** When the argument is the status the list shows, banning and then
      unbanning restores the list. */
  lemma {:induction false} ToggleBanUndo(users: seq<User>, userId: string, status: bool)
    requires forall i :: 0 <= i < |users| && users[i].id == userId ==> users[i].isBanned == status
    ensures ToggleBan(ToggleBan(users, userId, status), userId, !status) == users
    decreases |users|
  {
    if users != [] {
      var once := ToggleBan(users, userId, status);
      ToggleBanUndo(users[1..], userId, status);
      assert once[1..] == ToggleBan(users[1..], userId, status);
    }
  }

  /** The outcome of the profiles query: an error, or possibly absent data. */
  datatype FetchResult = FetchFailed | Fetched(data: Option<seq<ProfileRow>>)

  /** The hook's state. */
  class UsersState {
    var users: seq<User>
    var loading: bool

    constructor ()
      ensures users == [] && loading
    {
      users, loading := [], true;
    }

    /** The end of `fetchUsers`: the list is replaced only when data arrived;
        `loading` is cleared in every case. */
    method FinishFetch(result: FetchResult)
      modifies this
      ensures !loading
      ensures users == if result.Fetched? && result.data.Some? then ToUsers(result.data.value)
                       else old(users)
    {
      if result.Fetched? && result.data.Some? {
        users := ToUsers(result.data.value);
      }
      loading := false;
    }

    /** `handleToggleBan`, with the remote update's success as a parameter. */
    method HandleToggleBan(userId: string, currentBanStatus: bool, remoteOk: bool)
      modifies this`users
      ensures users == if remoteOk then ToggleBan(old(users), userId, currentBanStatus)
                       else old(users)
    {
      if remoteOk {
        users := ToggleBan(users, userId, currentBanStatus);
      }
    }
  }
}
