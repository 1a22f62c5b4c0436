/** The users collection as backend/server.js reads it. */
module Users {
  import opened Outcomes
  import opened Posts

  /** A user document; `password` holds the bcrypt hash. */
  datatype User = User(id: ObjectId, username: string, email: string, mobile: string, password: string)

  /** The lookups the handlers issue: `findOne({ username })`,
      `findOne({ email })` and `findById(id)`. */
  datatype Key = ByUsername(name: string) | ByEmail(address: string) | ById(uid: ObjectId)

  predicate HasKey(u: User, k: Key) {
    match k
    case ByUsername(name) => u.username == name
    case ByEmail(address) => u.email == address
    case ById(uid) => u.id == uid
  }

  /** The first user, in collection order, that the key selects. */
  function FindUser(users: seq<User>, k: Key): (r: Option<User>)
    ensures r.Some? ==> r.value in users && HasKey(r.value, k)
    ensures r.None? <==> forall i :: 0 <= i < |users| ==> !HasKey(users[i], k)
  {
    if |users| == 0 then None
    else if HasKey(users[0], k) then Some(users[0])
    else FindUser(users[1..], k)
  }

  /** Ids, usernames and emails are each held by one user at most (the
      `unique` indexes). */
  predicate UniqueUsers(users: seq<User>) {
    forall i, j :: 0 <= i < j < |users| ==>
      users[i].id != users[j].id && users[i].username != users[j].username && users[i].email != users[j].email
  }

  /** Under the unique indexes, a lookup by username finds exactly that user. */
  lemma {:induction false} FindByOwnUsername(users: seq<User>, i: nat)
    requires UniqueUsers(users) && i < |users|
    ensures FindUser(users, ByUsername(users[i].username)) == Some(users[i])
  {
    if i > 0 {
      assert users[0].username != users[i].username;
      FindByOwnUsername(users[1..], i - 1);
    }
  }
}
