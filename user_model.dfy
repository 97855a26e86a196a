/** The `users` table: the row shape, the unique email column and the lookup by email. */
module UserModel {
  import opened Base

  /** A stored user; only profileImage may be null. `password` holds the hash. */
  datatype User = User(
    id: nat,
    firstName: string,
    lastName: string,
    email: string,
    phone: string,
    password: string,
    profileImage: Option<string>)

  /** The unique constraint on email. */
  predicate UniqueEmails(users: seq<User>) {
    forall i, j :: 0 <= i < j < |users| ==> users[i].email != users[j].email
  }

  /** Rows in key order, every key issued by the auto-increment counter, which now stands at `nextId`. */
  predicate KeysIssued(users: seq<User>, nextId: nat) {
    && 0 < nextId
    && (forall i :: 0 <= i < |users| ==> 0 < users[i].id < nextId)
    && (forall i, j :: 0 <= i < j < |users| ==> users[i].id < users[j].id)
  }

  /** `User.findOne({ where: { email } })`: the first row with that email, if any. */
  function FindByEmail(users: seq<User>, email: string): (r: Option<User>)
    ensures r.None? <==> forall i :: 0 <= i < |users| ==> users[i].email != email
    ensures r.Some? ==> r.value.email == email && r.value in users
  {
    if users == [] then None
    else if users[0].email == email then Some(users[0])
    else FindByEmail(users[1..], email)
  }

  /** A row appended with an email nobody had is the one found by that email. */
  lemma {:induction false} FindAppended(users: seq<User>, u: User)
    requires forall i :: 0 <= i < |users| ==> users[i].email != u.email
    ensures FindByEmail(users + [u], u.email) == Some(u)
  {
    if users != [] {
      assert (users + [u])[1..] == users[1..] + [u];
      FindAppended(users[1..], u);
    }
  }

  /** Under the unique constraint, looking up a row's email finds that very row. */
  lemma {:induction false} FindUnique(users: seq<User>, i: nat)
    requires UniqueEmails(users) && i < |users|
    ensures FindByEmail(users, users[i].email) == Some(users[i])
  {
    if i > 0 {
      FindUnique(users[1..], i - 1);
    }
  }
}
