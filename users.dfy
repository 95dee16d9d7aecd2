/**
 * Users of the identity store and the rules both user stores share: the
 * name-patch rule and the unique-email invariant.
 */
module Users {
  import opened Common
  import opened Text

  datatype User = User(id: Id, name: string, email: string)

  /** The fields of an update request; `None` stands for a Java `null`. */
  datatype UserPatch = UserPatch(name: Option<string>, email: Option<string>)

  /** The name of `u` is replaced only by a present, non-blank name; nothing else changes. */
  function Rename(u: User, name: Option<string>): (r: User)
    ensures r == u.(name := r.name)
    ensures r.name != u.name ==> name == Some(r.name) && !IsBlank(r.name)
    ensures name.Some? && !IsBlank(name.value) ==> r.name == name.value
  {
    if name.Some? && !IsBlank(name.value) then u.(name := name.value) else u
  }

  /** Some stored user already holds `email`. */
  predicate EmailTaken(users: map<Id, User>, email: string) {
    exists k :: k in users && users[k].email == email
  }

  /** No two stored users share an email. */
  ghost predicate UniqueEmails(users: map<Id, User>) {
    forall a, b :: a in users && b in users && users[a].email == users[b].email ==> a == b
  }

  /** Storing a user whose email nobody holds keeps emails unique. */
  lemma {:induction false} StoreFreshEmailKeepsUnique(users: map<Id, User>, k: Id, u: User)
    requires UniqueEmails(users)
    requires !EmailTaken(users, u.email)
    ensures UniqueEmails(users[k := u])
  {
    var m := users[k := u];
    forall b | b in m && b != k ensures m[b].email != u.email {
      assert m[b] == users[b];
    }
  }

  /** Renaming a stored user leaves every email where it was. */
  lemma {:induction false} RenameKeepsUnique(users: map<Id, User>, k: Id, name: Option<string>)
    requires UniqueEmails(users)
    requires k in users
    ensures UniqueEmails(users[k := Rename(users[k], name)])
  {
    var m := users[k := Rename(users[k], name)];
    forall a | a in m ensures m[a].email == users[a].email {
    }
  }

  /** Applying the same name patch twice changes nothing more. */
  lemma RenameIdempotent(u: User, name: Option<string>)
    ensures Rename(Rename(u, name), name) == Rename(u, name)
  {
  }
}
