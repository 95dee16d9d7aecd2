/**
 * `UserServiceImpl` over the persistent user table: lookups, the update with
 * its email check placed before the existence check, and deletion.
 */
module UserService {
  import opened Common
  import opened Users

  /** `getUserById`: the stored user, or `NotFound`. Every other service looks users up through it. */
  function GetUserById(users: map<Id, User>, userId: Id): (r: Result<User>)
    ensures r.Ok? <==> userId in users
    ensures r.Ok? ==> r.value == users[userId]
    ensures r.Err? ==> r.error == NotFound
  {
    if userId in users then Ok(users[userId]) else Err(NotFound)
  }

  /**
   * `updateUser`: a present email held by any stored user fails `AlreadyExists`
   * first, even for an unknown id and even when it is the user's own email; then
   * an unknown id fails `NotFound`; otherwise the name patch applies and a
   * present email replaces the old one.
   */
  function DecideUserUpdate(users: map<Id, User>, userId: Id, patch: UserPatch): (r: Result<User>)
    ensures patch.email.Some? && EmailTaken(users, patch.email.value) ==> r == Err(AlreadyExists)
    ensures !(patch.email.Some? && EmailTaken(users, patch.email.value)) && userId !in users ==> r == Err(NotFound)
    ensures r.Ok? <==> userId in users && !(patch.email.Some? && EmailTaken(users, patch.email.value))
    ensures r.Ok? ==> r.value.id == users[userId].id
    ensures r.Ok? ==> r.value.name == Rename(users[userId], patch.name).name
    ensures r.Ok? ==> r.value.email == (if patch.email.Some? then patch.email.value else users[userId].email)
  {
    if patch.email.Some? && EmailTaken(users, patch.email.value) then Err(AlreadyExists)
    else if userId !in users then Err(NotFound)
    else
      var renamed := Rename(users[userId], patch.name);
      Ok(if patch.email.Some? then renamed.(email := patch.email.value) else renamed)
  }

  /** A successful update keeps emails unique. */
  lemma {:induction false} UpdateKeepsUnique(users: map<Id, User>, userId: Id, patch: UserPatch)
    requires UniqueEmails(users)
    requires DecideUserUpdate(users, userId, patch).Ok?
    ensures UniqueEmails(users[userId := DecideUserUpdate(users, userId, patch).value])
  {
    var u := DecideUserUpdate(users, userId, patch).value;
    RenameKeepsUnique(users, userId, patch.name);
    var renamed := users[userId := Rename(users[userId], patch.name)];
    if patch.email.Some? {
      assert !EmailTaken(renamed, patch.email.value) by {
        forall k | k in renamed ensures renamed[k].email != patch.email.value {
          assert renamed[k].email == users[k].email;
        }
      }
      StoreFreshEmailKeepsUnique(renamed, userId, u);
      assert renamed[userId := u] == users[userId := u];
    } else {
      assert u == Rename(users[userId], patch.name);
    }
  }

  /** The user table behind the service, with an identity column. */
  class UserTable {
    var users: map<Id, User>
    var nextId: Id

    ghost predicate Valid()
      reads this
    {
      && nextId >= 1
      && (forall k :: k in users ==> 1 <= k < nextId && users[k].id == k)
      && UniqueEmails(users)
    }

    constructor ()
      ensures Valid()
      ensures users == map[] && nextId == 1
    {
      users := map[];
      nextId := 1;
    }

    /**
     * `addUser`: the insert fails on the unique email column, and the service
     * reports `AlreadyExists`. The identity column has advanced by then, so a
     * rejected insert still uses up an id.
     */
    method AddUser(user: User) returns (r: Result<User>)
      requires Valid()
      modifies this
      ensures Valid()
      ensures nextId == old(nextId) + 1
      ensures r.Err? <==> EmailTaken(old(users), user.email)
      ensures r.Err? ==> r.error == AlreadyExists && users == old(users)
      ensures r.Ok? ==> r.value == user.(id := old(nextId)) && users == old(users)[old(nextId) := r.value]
    {
      var generated := nextId;
      nextId := nextId + 1;
      if EmailTaken(users, user.email) {
        return Err(AlreadyExists);
      }
      var stored := user.(id := generated);
      StoreFreshEmailKeepsUnique(users, generated, stored);
      users := users[generated := stored];
      r := Ok(stored);
    }

    /** `updateUser`: the decision above, applied to the stored row on success. */
    method UpdateUser(userId: Id, patch: UserPatch) returns (r: Result<User>)
      requires Valid()
      modifies this
      ensures Valid()
      ensures nextId == old(nextId)
      ensures r == DecideUserUpdate(old(users), userId, patch)
      ensures users == if r.Ok? then old(users)[userId := r.value] else old(users)
    {
      r := DecideUserUpdate(users, userId, patch);
      if r.Ok? {
        UpdateKeepsUnique(users, userId, patch);
        users := users[userId := r.value];
      }
    }

    /** `deleteUser`: `NotFound` for an absent id, otherwise removes exactly that user. */
    method DeleteUser(userId: Id) returns (r: Outcome)
      requires Valid()
      modifies this
      ensures Valid()
      ensures nextId == old(nextId)
      ensures r == (if userId in old(users) then Pass else Fail(NotFound))
      ensures users == old(users) - {userId}
    {
      var found := GetUserById(users, userId);
      if found.Err? {
        return Fail(found.error);
      }
      users := users - {userId};
      r := Pass;
    }
  }
}
