/**
 * The early in-memory user store: a hash map from id to user and an id
 * counter that starts at 1 and is post-incremented for each stored user.
 */
module UserRepository {
  import opened Common
  import opened Users
  import opened Text
  import opened Ordering

  class InMemoryUsers {
    var allUsers: map<Id, User>
    var id: Id

    /** Every stored user sits under its own id, below the counter, and emails are unique. */
    ghost predicate Valid()
      reads this
    {
      && id >= 1
      && (forall k :: k in allUsers ==> 1 <= k < id && allUsers[k].id == k)
      && UniqueEmails(allUsers)
    }

    constructor ()
      ensures Valid()
      ensures allUsers == map[] && id == 1
    {
      allUsers := map[];
      id := 1;
    }

    /**
     * Fails `AlreadyExists`, consuming no id and storing nothing, when the email
     * is taken; otherwise stores the user under the next id.
     */
    method AddUser(user: User) returns (r: Result<User>)
      requires Valid()
      modifies this
      ensures Valid()
      ensures r.Err? <==> EmailTaken(old(allUsers), user.email)
      ensures r.Err? ==> r.error == AlreadyExists && allUsers == old(allUsers) && id == old(id)
      ensures r.Ok? ==> r.value == user.(id := old(id))
      ensures r.Ok? ==> allUsers == old(allUsers)[old(id) := r.value] && id == old(id) + 1
    {
      if EmailTaken(allUsers, user.email) {
        return Err(AlreadyExists);
      }
      var stored := user.(id := id);
      id := id + 1;
      StoreFreshEmailKeepsUnique(allUsers, stored.id, stored);
      allUsers := allUsers[stored.id := stored];
      r := Ok(stored);
    }

    /**
     * Fails `NotFound` for an absent id. Otherwise applies the name patch, and
     * only then checks the email: a taken email (including the user's own)
     * fails `AlreadyExists` with the new name already stored.
     */
    method UpdateUser(userId: Id, patch: UserPatch) returns (r: Result<User>)
      requires Valid()
      modifies this
      ensures Valid()
      ensures id == old(id)
      ensures userId !in old(allUsers) ==> r == Err(NotFound) && allUsers == old(allUsers)
      ensures userId in old(allUsers) ==>
        var renamed := Rename(old(allUsers)[userId], patch.name);
        if patch.email.None? then
          r == Ok(renamed) && allUsers == old(allUsers)[userId := renamed]
        else if EmailTaken(old(allUsers), patch.email.value) then
          r == Err(AlreadyExists) && allUsers == old(allUsers)[userId := renamed]
        else
          var updated := renamed.(email := patch.email.value);
          r == Ok(updated) && allUsers == old(allUsers)[userId := updated]
    {
      if userId !in allUsers {
        return Err(NotFound);
      }
      var renamed := Rename(allUsers[userId], patch.name);
      RenameKeepsUnique(allUsers, userId, patch.name);
      allUsers := allUsers[userId := renamed];
      assert forall k :: k in allUsers ==> allUsers[k].email == old(allUsers)[k].email;
      if patch.email.Some? {
        if EmailTaken(allUsers, patch.email.value) {
          return Err(AlreadyExists);
        }
        var updated := renamed.(email := patch.email.value);
        StoreFreshEmailKeepsUnique(allUsers, userId, updated);
        allUsers := allUsers[userId := updated];
        r := Ok(updated);
      } else {
        r := Ok(renamed);
      }
    }

    /** Removes exactly that user, or fails `NotFound` and changes nothing. */
    method DeleteUser(userId: Id) returns (r: Outcome)
      requires Valid()
      modifies this
      ensures Valid()
      ensures id == old(id)
      ensures r == (if userId in old(allUsers) then Pass else Fail(NotFound))
      ensures allUsers == old(allUsers) - {userId}
    {
      if userId !in allUsers {
        return Fail(NotFound);
      }
      allUsers := allUsers - {userId};
      r := Pass;
    }

    /** The stored user, or `NotFound`. */
    function GetUserById(userId: Id): (r: Result<User>)
      reads this
      ensures r.Ok? <==> userId in allUsers
      ensures r.Ok? ==> r.value == allUsers[userId]
      ensures r.Err? ==> r.error == NotFound
    {
      if userId in allUsers then Ok(allUsers[userId]) else Err(NotFound)
    }

    /**
     * Every stored user exactly once. The source's order is the `HashMap`'s
     * bucket order, which this contract leaves open.
     */
    function GetAllUsers(): (r: seq<User>)
      reads this
      requires Valid()
      ensures forall k :: k in allUsers ==> allUsers[k] in r
      ensures forall i :: 0 <= i < |r| ==> r[i].id in allUsers && allUsers[r[i].id] == r[i]
      ensures forall i, j :: 0 <= i < j < |r| ==> r[i].id != r[j].id
    {
      Rows(allUsers, id)
    }
  }

  /** Ids 1, 2, 3 in call order; a rejected duplicate consumes no id. */
  method SequentialIdsScenario() returns (a: Result<User>, b: Result<User>, dup: Result<User>, c: Result<User>)
    ensures a == Ok(User(1, "first", "first@mail"))
    ensures b == Ok(User(2, "second", "second@mail"))
    ensures dup == Err(AlreadyExists)
    ensures c == Ok(User(3, "third", "third@mail"))
  {
    var repo := new InMemoryUsers();
    a := repo.AddUser(User(0, "first", "first@mail"));
    b := repo.AddUser(User(0, "second", "second@mail"));
    assert repo.allUsers[1].email == "first@mail";
    dup := repo.AddUser(User(0, "again", "first@mail"));
    assert !EmailTaken(repo.allUsers, "third@mail") by {
      assert repo.allUsers.Keys == {1, 2};
    }
    c := repo.AddUser(User(0, "third", "third@mail"));
  }

  /** The name change made before a failing email check stays in the store. */
  method PartialUpdateScenario() returns (r: Result<User>, stored: Result<User>)
    ensures r == Err(AlreadyExists)
    ensures stored == Ok(User(2, "renamed", "second@mail"))
  {
    var repo := new InMemoryUsers();
    var _ := repo.AddUser(User(0, "first", "first@mail"));
    assert !EmailTaken(repo.allUsers, "second@mail") by {
      assert repo.allUsers.Keys == {1};
    }
    var _ := repo.AddUser(User(0, "second", "second@mail"));
    assert repo.allUsers[1].email == "first@mail";
    assert !IsBlank("renamed") by {
      assert !IsWhitespace("renamed"[0]);
    }
    r := repo.UpdateUser(2, UserPatch(Some("renamed"), Some("first@mail")));
    stored := repo.GetUserById(2);
  }
}
