/** The local user directory: a list of users kept under the key "users",
    looked up or extended by name at login. The list is passed in and
    returned; the fresh id and the current time are parameters. */
module UserStorage {
  import opened Maybe
  import opened Lists
  import opened Strings

  datatype User = User(id: string, name: string, createdAt: string, lastAccessedAt: string)

  /** Outcome of a login by name: rejected for a blank name, or the user now
      current together with the saved user list. */
  datatype Login = EmptyName | LoggedIn(user: User, users: seq<User>)

  predicate UniqueNames(users: seq<User>) {
    forall i, j :: 0 <= i < j < |users| ==> users[i].name != users[j].name
  }

  function Names(users: seq<User>): (r: seq<string>)
    ensures |r| == |users| && forall i :: 0 <= i < |users| ==> r[i] == users[i].name
  {
    seq(|users|, i requires 0 <= i < |users| => users[i].name)
  }

  function Ids(users: seq<User>): (r: seq<string>)
    ensures |r| == |users| && forall i :: 0 <= i < |users| ==> r[i] == users[i].id
  {
    seq(|users|, i requires 0 <= i < |users| => users[i].id)
  }

  /** `users.find(u => u.name === name)`, as the index of the first match. */
  function FindByName(users: seq<User>, name: string): (r: Option<nat>)
    ensures r.Some? ==> r.value < |users| && users[r.value].name == name
    ensures r.Some? ==> forall j :: 0 <= j < r.value ==> users[j].name != name
    ensures r.None? <==> forall j :: 0 <= j < |users| ==> users[j].name != name
  {
    Find(Names(users), name)
  }

  /** `users.find(u => u.id === id)`, as the index of the first match. */
  function FindById(users: seq<User>, id: string): (r: Option<nat>)
    ensures r.Some? ==> r.value < |users| && users[r.value].id == id
    ensures r.Some? ==> forall j :: 0 <= j < r.value ==> users[j].id != id
    ensures r.None? <==> forall j :: 0 <= j < |users| ==> users[j].id != id
  {
    Find(Ids(users), id)
  }

  /** Stamps the first user with `userId` as accessed at `now`; without such a
      user the list is returned unchanged (and not saved). */
  function UpdateUserLastAccessed(users: seq<User>, userId: string, now: string): (r: seq<User>)
    ensures |r| == |users|
    ensures forall i :: 0 <= i < |users| ==> r[i] == users[i].(lastAccessedAt := r[i].lastAccessedAt)
    ensures forall i :: 0 <= i < |users| && FindById(users, userId) != Some(i) ==> r[i] == users[i]
    ensures FindById(users, userId).Some? ==> r[FindById(users, userId).value].lastAccessedAt == now
    ensures FindById(users, userId).None? ==> r == users
  {
    match FindById(users, userId)
    case None => users
    case Some(i) => users[i := users[i].(lastAccessedAt := now)]
  }

  /** Log in as `name`: the name is trimmed and must not be blank; the first
      user with exactly that name is reused and stamped with `now`, otherwise
      a user with id `freshId` is appended. Making the user current stamps it
      once more through `UpdateUserLastAccessed`. */
  function FindOrCreateUser(users: seq<User>, name: string, freshId: string, now: string): (r: Login)
    ensures r.EmptyName? <==> IsBlank(name)
    ensures r.LoggedIn? ==> r.user.name == Trim(name) && r.user.lastAccessedAt == now
    ensures r.LoggedIn? && FindByName(users, Trim(name)).Some? ==>
              |r.users| == |users| && r.user.id == users[FindByName(users, Trim(name)).value].id
                && r.user.createdAt == users[FindByName(users, Trim(name)).value].createdAt
                && r.users[FindByName(users, Trim(name)).value] == r.user
    ensures r.LoggedIn? ==>
              |r.users| >= |users|
              && (forall k :: 0 <= k < |users| ==> r.users[k] == users[k].(lastAccessedAt := r.users[k].lastAccessedAt))
    ensures r.LoggedIn? ==>
              forall k :: (0 <= k < |users| && FindByName(users, Trim(name)) != Some(k)
                           && FindById(users, r.user.id) != Some(k)) ==> r.users[k] == users[k]
    ensures r.LoggedIn? ==> forall k :: 0 <= k < |users| && users[k].id != r.user.id ==> r.users[k] == users[k]
    ensures r.LoggedIn? && FindByName(users, Trim(name)).None? ==>
              |r.users| == |users| + 1 && r.users[|users|] == r.user
                && r.user == User(freshId, Trim(name), now, now)
    ensures r.LoggedIn? && FindByName(users, Trim(name)).None? && FindById(users, freshId).None? ==>
              r.users == users + [r.user]
  {
    TrimEmptyIffBlank(name);
    var trimmed := Trim(name);
    if trimmed == [] then EmptyName
    else
      match FindByName(users, trimmed)
      case Some(i) =>
        var user := users[i].(lastAccessedAt := now);
        StampedFrame(users, i, now);
        LoggedIn(user, UpdateUserLastAccessed(users[i := user], user.id, now))
      case None =>
        var user := User(freshId, trimmed, now, now);
        var saved := users + [user];
        assert saved[|users|].id == freshId;
        AppendedFrame(users, user, now);
        LoggedIn(user, UpdateUserLastAccessed(saved, user.id, now))
  }

  /** Reusing user `i`: it is stamped, and then the first user with its id is
      stamped again; no other user changes. */
  lemma StampedFrame(users: seq<User>, i: nat, now: string)
    requires i < |users|
    ensures var r := UpdateUserLastAccessed(users[i := users[i].(lastAccessedAt := now)], users[i].id, now);
            |r| == |users|
            && (forall k :: 0 <= k < |users| && k != i && FindById(users, users[i].id) != Some(k) ==> r[k] == users[k])
            && (forall k :: 0 <= k < |users| && users[k].id != users[i].id ==> r[k] == users[k])
  {
    var stamped := users[i := users[i].(lastAccessedAt := now)];
    assert forall k :: 0 <= k < |users| ==> Ids(stamped)[k] == Ids(users)[k];
    assert Ids(stamped) == Ids(users);
  }

  /** Appending `user`: then the first user with its id is stamped; no other
      existing user changes. */
  lemma AppendedFrame(users: seq<User>, user: User, now: string)
    ensures var r := UpdateUserLastAccessed(users + [user], user.id, now);
            |r| == |users| + 1
            && (forall k :: 0 <= k < |users| && FindById(users, user.id) != Some(k) ==> r[k] == users[k])
            && (forall k :: 0 <= k < |users| && users[k].id != user.id ==> r[k] == users[k])
  {
    var saved := users + [user];
    var r := UpdateUserLastAccessed(saved, user.id, now);
    forall k | 0 <= k < |users| && FindById(users, user.id) != Some(k)
      ensures r[k] == users[k]
    {
      if FindById(saved, user.id) == Some(k) {
        assert forall j :: 0 <= j < k ==> users[j].id == saved[j].id != user.id;
        FirstIdMatch(users, user.id, k);
      }
    }
  }

  /** A user with the id and none before it is the one the lookup finds. */
  lemma FirstIdMatch(users: seq<User>, id: string, p: nat)
    requires p < |users| && users[p].id == id
    requires forall j :: 0 <= j < p ==> users[j].id != id
    ensures FindById(users, id) == Some(p)
  {
  }

  /** Logging in never changes any user's name, so unique names stay unique. */
  lemma FindOrCreateKeepsNamesUnique(users: seq<User>, name: string, freshId: string, now: string)
    requires UniqueNames(users)
    ensures FindOrCreateUser(users, name, freshId, now).LoggedIn? ==>
              UniqueNames(FindOrCreateUser(users, name, freshId, now).users)
  {
    var r := FindOrCreateUser(users, name, freshId, now);
    if r.LoggedIn? {
      var trimmed := Trim(name);
      match FindByName(users, trimmed)
      case Some(i) =>
        var user := users[i].(lastAccessedAt := now);
        var stamped := users[i := user];
        assert forall k :: 0 <= k < |stamped| ==> stamped[k].name == users[k].name;
        StampKeepsNamesUnique(stamped, user.id, now);
        assert r.users == UpdateUserLastAccessed(stamped, user.id, now);
      case None =>
        var user := User(freshId, trimmed, now, now);
        var saved := users + [user];
        assert forall k :: 0 <= k < |users| ==> saved[k].name != trimmed;
        assert UniqueNames(saved);
        StampKeepsNamesUnique(saved, user.id, now);
        assert r.users == UpdateUserLastAccessed(saved, user.id, now);
    }
  }

  lemma StampKeepsNamesUnique(users: seq<User>, userId: string, now: string)
    requires UniqueNames(users)
    ensures UniqueNames(UpdateUserLastAccessed(users, userId, now))
  {
    var r := UpdateUserLastAccessed(users, userId, now);
    assert forall k :: 0 <= k < |r| ==> r[k].name == users[k].name;
  }

  /** Logging in again with the same name finds the user the first login
      produced, and the list does not grow. */
  lemma LoginTwiceFindsSameUser(users: seq<User>, name: string, id1: string, id2: string, t1: string, t2: string)
    requires FindOrCreateUser(users, name, id1, t1).LoggedIn?
    ensures var first := FindOrCreateUser(users, name, id1, t1);
            var second := FindOrCreateUser(first.users, name, id2, t2);
            second.LoggedIn? && |second.users| == |first.users| && second.user.id == first.user.id
  {
    var first := FindOrCreateUser(users, name, id1, t1);
    var trimmed := Trim(name);
    var p: nat := if FindByName(users, trimmed).Some? then FindByName(users, trimmed).value else |users|;
    assert p < |first.users| && first.users[p] == first.user;
    assert first.user.name == trimmed;
    assert forall j :: 0 <= j < p ==> first.users[j].name == users[j].name != trimmed;
    FirstNameMatch(first.users, trimmed, p);
  }

  /** A user with the name, preceded by none, is what the lookup finds. */
  lemma FirstNameMatch(users: seq<User>, name: string, p: nat)
    requires p < |users| && users[p].name == name
    requires forall j :: 0 <= j < p ==> users[j].name != name
    ensures FindByName(users, name) == Some(p)
  {
  }

  /** The per-user storage key: the data type, an underscore, the user id. */
  function GetUserDataKey(userId: string, dataType: string): (key: string)
    ensures |key| == |dataType| + 1 + |userId|
    ensures key[..|dataType|] == dataType && key[|dataType|] == '_' && key[|dataType| + 1..] == userId
  {
    dataType + "_" + userId
  }

  /** For one data type, different users get different keys. */
  lemma UserDataKeyInjective(a: string, b: string, dataType: string)
    requires GetUserDataKey(a, dataType) == GetUserDataKey(b, dataType)
    ensures a == b
  {
    assert a == GetUserDataKey(a, dataType)[|dataType| + 1..];
  }

  /** Across data types the key is ambiguous when ids or types contain "_". */
  lemma UserDataKeyAmbiguousAcrossTypes()
    ensures GetUserDataKey("b_c", "a") == GetUserDataKey("c", "a_b")
  {
  }
}
