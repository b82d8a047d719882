/** The User model's statics: registration, login, the follow and save
    lists, and profile updates. */
module Users {
  import opened Outcomes
  import opened Media
  import opened Crypto
  import opened RefLists
  import opened Documents

  const UserExists := "User already exists"
  const NoSuchUser := "user does not exists"
  const WrongPassword := "incorrect password"
  const NotAuthenticated := "not authenticated"
  const UserNotFound := "user not found"
  /** What bcrypt rejects a comparison against a missing hash with. */
  const BcryptArguments := "data and hash arguments required"
  /** What the login endpoint reports for an error it does not recognise. */
  const UnknownLoginError := "Unknown error occurred"

  /** The reference lists a user document keeps. */
  datatype UserList = Recipes | Followers | Followings | Saves

  function ListOf(u: User, l: UserList): seq<Id>
  {
    match l
    case Recipes => u.recipes
    case Followers => u.followers
    case Followings => u.followings
    case Saves => u.saves
  }

  /** The user with list `l` replaced by `xs` and everything else kept. */
  function WithList(u: User, l: UserList, xs: seq<Id>): (r: User)
    ensures ListOf(r, l) == xs
    ensures forall l' :: l' != l ==> ListOf(r, l') == ListOf(u, l')
    ensures && r.name == u.name && r.email == u.email && r.password == u.password
            && r.avatar == u.avatar && r.role == u.role && r.comments == u.comments
  {
    match l
    case Recipes => u.(recipes := xs)
    case Followers => u.(followers := xs)
    case Followings => u.(followings := xs)
    case Saves => u.(saves := xs)
  }

  /** `User.updateOne({ _id: userId }, { $push: { <l>: x } })`: `x` is appended
      to that one list of that one user; an id that matches no user changes
      nothing. */
  function PushTo(db: Db, userId: Id, l: UserList, x: Id): (r: Db)
    ensures r.users.Keys == db.users.Keys
    ensures forall id :: id in db.users && id != userId ==> r.users[id] == db.users[id]
    ensures userId in db.users ==>
              && ListOf(r.users[userId], l) == ListOf(db.users[userId], l) + [x]
              && r.users[userId] == WithList(db.users[userId], l, ListOf(r.users[userId], l))
    ensures r == db.(users := r.users)
  {
    if userId in db.users then
      var u := db.users[userId];
      db.(users := db.users[userId := WithList(u, l, Push(ListOf(u, l), x))])
    else db
  }

  /** `User.updateOne({ _id: userId }, { $pull: { <l>: x } })`: every `x` is
      removed from that one list of that one user, the rest keeping its
      order; an id that matches no user changes nothing. */
  function PullFrom(db: Db, userId: Id, l: UserList, x: Id): (r: Db)
    ensures r.users.Keys == db.users.Keys
    ensures forall id :: id in db.users && id != userId ==> r.users[id] == db.users[id]
    ensures userId in db.users ==>
              && ListOf(r.users[userId], l) == Pull(ListOf(db.users[userId], l), x)
              && x !in ListOf(r.users[userId], l)
              && multiset(ListOf(r.users[userId], l)) == multiset(ListOf(db.users[userId], l))[x := 0]
              && r.users[userId] == WithList(db.users[userId], l, ListOf(r.users[userId], l))
    ensures r == db.(users := r.users)
  {
    if userId in db.users then
      var u := db.users[userId];
      db.(users := db.users[userId := WithList(u, l, Pull(ListOf(u, l), x))])
    else db
  }

  /** `findOne({ email })` over the ids in `[from, bound)`: the first user, in
      insertion order, with that email. */
  function FindByEmail(users: map<Id, User>, email: string, from: nat, bound: nat): (r: Option<Id>)
    ensures r.Some? ==> from <= r.value < bound && r.value in users && users[r.value].email == email
    ensures r.None? ==> forall id :: from <= id < bound && id in users ==> users[id].email != email
    decreases bound - from
  {
    if from >= bound then None
    else if from in users && users[from].email == email then Some(from)
    else FindByEmail(users, email, from + 1, bound)
  }

  /** `User.findOne({ email })`: in a store whose ids are all below the
      counter, it finds a user exactly when one has that email. */
  function FindOne(db: Db, email: string): (r: Option<Id>)
    ensures r.Some? ==> r.value in db.users && db.users[r.value].email == email
    ensures Fresh(db) && r.None? ==> forall id :: id in db.users ==> db.users[id].email != email
  {
    FindByEmail(db.users, email, 0, db.next)
  }

  /** `User.register(name, email, password, role)`.  Nothing catches here, so
      every error keeps its name: the driver's, the schema check's, or
      `RegisterUserExists` when the email is taken.  On success the new user,
      with the password hashed and every list empty, is stored under a fresh
      id and nothing else changes. */
  function Register(db: Db, name: string, email: string, password: string, role: bool,
                    salt: nat, faults: Faults): (r: Run<Stored<User>>)
    ensures r.result.Fail? ==> r.db == db
    ensures FindUser !in faults && Fresh(db) ==>
              ((exists id :: id in db.users && db.users[id].email == email)
               <==> r.result == Fail(Error(RegisterUserExists, UserExists)))
    ensures r.result.Ok? ==>
              && r.result.value.id == db.next
              && r.db == db.(users := db.users[db.next := r.result.value.doc], next := db.next + 1)
    ensures r.result.Ok? ==>
              var u := r.result.value.doc;
              && u.name == name && u.email == email && u.role == role && u.avatar.None?
              && u.password == Some(Hash(password, salt)) && Matches(password, u.password.value)
              && u.recipes == [] && u.comments == [] && u.followers == [] && u.followings == [] && u.saves == []
    ensures r.result.Ok? <==>
              FindUser !in faults && FindOne(db, email).None? && name != "" && email != "" && SaveUser !in faults
  {
    if FindUser in faults then Run(db, Fail(Fault(faults, FindUser)))
    else if FindOne(db, email).Some? then Run(db, Fail(Error(RegisterUserExists, UserExists)))
    else
      var user := User(name, email, Some(Hash(password, salt)), None, role, [], [], [], [], []);
      if !ValidUser(user) then Run(db, Fail(Invalid("User")))
      else if SaveUser in faults then Run(db, Fail(Fault(faults, SaveUser)))
      else Run(db.(users := db.users[db.next := user], next := db.next + 1), Ok(Stored(db.next, user)))
  }

  /** Registering keeps every stored document valid, and in particular keeps
      emails unique. */
  lemma RegisterKeepsValid(db: Db, name: string, email: string, password: string, role: bool,
                           salt: nat, faults: Faults)
    requires Valid(db)
    ensures Valid(Register(db, name, email, password, role, salt, faults).db)
  {
    var r := Register(db, name, email, password, role, salt, faults);
    if r.result.Ok? {
      var users := r.db.users;
      assert EmailsUnique(users) by {
        forall a, b | a in users && b in users && users[a].email == users[b].email ensures a == b {
        }
      }
      assert UsersValid(users);
    }
  }

  /** The body of `User.login`'s try block: what it would report if its
      catch passed errors on unchanged. */
  function LoginKeepingNames(db: Db, email: string, password: string, faults: Faults): (r: Result<Stored<User>>)
    ensures r.Ok? ==>
              && r.value.id in db.users && db.users[r.value.id] == r.value.doc
              && r.value.doc.email == email
              && r.value.doc.password.Some? && Matches(password, r.value.doc.password.value)
    ensures FindUser !in faults && Fresh(db) ==>
              ((forall id :: id in db.users ==> db.users[id].email != email)
               <==> r == Fail(Error(LoginUserDoesNotExist, NoSuchUser)))
    ensures FindUser !in faults && Fresh(db) && EmailsUnique(db.users) ==>
              forall id :: id in db.users && db.users[id].email == email ==>
                r == (if db.users[id].password.None? then Fail(Raise(BcryptArguments))
                      else if Matches(password, db.users[id].password.value) then Ok(Stored(id, db.users[id]))
                      else Fail(Error(LoginIncorrectPassword, WrongPassword)))
  {
    if FindUser in faults then Fail(Fault(faults, FindUser))
    else
      match FindOne(db, email)
      case None => Fail(Error(LoginUserDoesNotExist, NoSuchUser))
      case Some(id) =>
        var user := db.users[id];
        if user.password.None? then Fail(Raise(BcryptArguments))
        else if Matches(password, user.password.value) then Ok(Stored(id, user))
        else Fail(Error(LoginIncorrectPassword, WrongPassword))
  }

  /** `User.login(email, password)` as written: the catch rethrows every
      error as a plain `Error` with the same message, so the names set for a
      missing user and a wrong password are lost. */
  function Login(db: Db, email: string, password: string, faults: Faults): (r: Result<Stored<User>>)
    ensures r.Ok? <==> LoginKeepingNames(db, email, password, faults).Ok?
    ensures r.Ok? ==> r == LoginKeepingNames(db, email, password, faults)
    ensures r.Fail? ==> r.error == Raise(LoginKeepingNames(db, email, password, faults).error.message)
  {
    match LoginKeepingNames(db, email, password, faults)
    case Ok(u) => Ok(u)
    case Fail(e) => Fail(Rethrow(e))
  }

  /** The message the login endpoint reports for a failed login: the error's
      own message for the two login error names, a generic one otherwise. */
  function LoginErrorMessage(e: Error): string
  {
    if e.name == LoginIncorrectPassword || e.name == LoginUserDoesNotExist then e.message
    else UnknownLoginError
  }

  /** As written, every failed login is reported as an unknown error, even
      for an email no user has. */
  lemma LoginFailureIsAlwaysUnknown(db: Db, email: string, password: string, faults: Faults)
    requires Login(db, email, password, faults).Fail?
    ensures LoginErrorMessage(Login(db, email, password, faults).error) == UnknownLoginError
  {
  }

  /** The concrete case: a store with no users and a login attempt. */
  lemma LoginOfUnknownEmailSaysUnknown(email: string, password: string)
    ensures var db := Db(map[], map[], map[], map[], map[], 0);
            && LoginKeepingNames(db, email, password, map[]) == Fail(Error(LoginUserDoesNotExist, NoSuchUser))
            && Login(db, email, password, map[]).Fail?
            && LoginErrorMessage(Login(db, email, password, map[]).error) == UnknownLoginError
  {
  }

  /** With the names kept, the endpoint reports the actual cause: a missing
      user and a wrong password each get their own message. */
  lemma LoginKeepingNamesReportsCause(db: Db, email: string, password: string, faults: Faults)
    requires FindUser !in faults && Fresh(db)
    ensures (forall id :: id in db.users ==> db.users[id].email != email) ==>
              LoginErrorMessage(LoginKeepingNames(db, email, password, faults).error) == NoSuchUser
    ensures (exists id :: id in db.users && db.users[id].email == email
                          && db.users[id].password.Some? && !Matches(password, db.users[id].password.value)
                          && EmailsUnique(db.users)) ==>
              LoginErrorMessage(LoginKeepingNames(db, email, password, faults).error) == WrongPassword
  {
    var r := LoginKeepingNames(db, email, password, faults);
    if exists id :: id in db.users && db.users[id].email == email
                    && db.users[id].password.Some? && !Matches(password, db.users[id].password.value)
                    && EmailsUnique(db.users) {
      var id :| id in db.users && db.users[id].email == email
                && db.users[id].password.Some? && !Matches(password, db.users[id].password.value)
                && EmailsUnique(db.users);
      var found := FindOne(db, email);
      assert found == Some(id);
    }
  }

  /** The right email and password log in: in a valid store, the user with
      that email is returned when the password matches its hash. */
  lemma LoginSucceeds(db: Db, id: Id, password: string, faults: Faults)
    requires FindUser !in faults && Valid(db) && id in db.users
    requires db.users[id].password.Some? && Matches(password, db.users[id].password.value)
    ensures Login(db, db.users[id].email, password, faults) == Ok(Stored(id, db.users[id]))
  {
    assert LoginKeepingNames(db, db.users[id].email, password, faults) == Ok(Stored(id, db.users[id]));
  }

  /** `User.addFollowings(followed, follower)`: the follower is appended to
      the followed user's followers, then the followed user to the
      follower's followings.  A failure of the second write leaves the
      first in place. */
  function AddFollowings(db: Db, followed: Id, follower: Id, faults: Faults): (r: Run<()>)
    ensures r.db.users.Keys == db.users.Keys
    ensures PushFollower in faults ==> r == Run(db, Fail(Raise(faults[PushFollower])))
    ensures PushFollower !in faults && PushFollowing in faults ==>
              r == Run(PushTo(db, followed, Followers, follower), Fail(Raise(faults[PushFollowing])))
    ensures r.result.Ok? ==>
              && (followed in db.users ==> follower in ListOf(r.db.users[followed], Followers))
              && (follower in db.users ==> followed in ListOf(r.db.users[follower], Followings))
    ensures r.result.Ok? ==>
              && r.db == PushTo(PushTo(db, followed, Followers, follower), follower, Followings, followed)
              && (followed in db.users ==>
                    ListOf(r.db.users[followed], Followers) == ListOf(db.users[followed], Followers) + [follower])
              && (follower in db.users ==>
                    ListOf(r.db.users[follower], Followings) == ListOf(db.users[follower], Followings) + [followed])
              && (forall id :: id in db.users && id != followed && id != follower ==> r.db.users[id] == db.users[id])
              && r.db == db.(users := r.db.users)
  {
    if PushFollower in faults then Run(db, Fail(Rethrow(Fault(faults, PushFollower))))
    else
      var first := PushTo(db, followed, Followers, follower);
      if PushFollowing in faults then Run(first, Fail(Rethrow(Fault(faults, PushFollowing))))
      else Run(PushTo(first, follower, Followings, followed), Ok(()))
  }

  /** `User.removeFollowings(followed, follower)`: the follower is pulled from
      the followed user's followers, then the followed user from the
      follower's followings. */
  function RemoveFollowings(db: Db, followed: Id, follower: Id, faults: Faults): (r: Run<()>)
    ensures r.db.users.Keys == db.users.Keys
    ensures PullFollower in faults ==> r == Run(db, Fail(Raise(faults[PullFollower])))
    ensures PullFollower !in faults && PullFollowing in faults ==>
              r == Run(PullFrom(db, followed, Followers, follower), Fail(Raise(faults[PullFollowing])))
    ensures r.result.Ok? ==>
              && (followed in db.users ==> follower !in ListOf(r.db.users[followed], Followers))
              && (follower in db.users ==> followed !in ListOf(r.db.users[follower], Followings))
    ensures r.result.Ok? ==>
              && r.db == PullFrom(PullFrom(db, followed, Followers, follower), follower, Followings, followed)
              && (followed in db.users ==>
                    ListOf(r.db.users[followed], Followers) == Pull(ListOf(db.users[followed], Followers), follower))
              && (follower in db.users ==>
                    ListOf(r.db.users[follower], Followings) == Pull(ListOf(db.users[follower], Followings), followed))
              && (forall id :: id in db.users && id != followed && id != follower ==> r.db.users[id] == db.users[id])
              && r.db == db.(users := r.db.users)
  {
    if PullFollower in faults then Run(db, Fail(Rethrow(Fault(faults, PullFollower))))
    else
      var first := PullFrom(db, followed, Followers, follower);
      if PullFollowing in faults then Run(first, Fail(Rethrow(Fault(faults, PullFollowing))))
      else Run(PullFrom(first, follower, Followings, followed), Ok(()))
  }

  /** `User.addSaves(recipe, user)`: the recipe is appended to the user's saves. */
  function AddSaves(db: Db, recipe: Id, user: Id, faults: Faults): (r: Run<()>)
    ensures r.db.users.Keys == db.users.Keys
    ensures PushSave in faults ==> r == Run(db, Fail(Raise(faults[PushSave])))
    ensures r.result.Ok? ==> user in db.users ==> recipe in ListOf(r.db.users[user], Saves)
    ensures r.result.Ok? ==>
              && r.db == PushTo(db, user, Saves, recipe)
              && (user in db.users ==> r.db.users[user] == db.users[user].(saves := db.users[user].saves + [recipe]))
              && (forall id :: id in db.users && id != user ==> r.db.users[id] == db.users[id])
              && r.db == db.(users := r.db.users)
  {
    if PushSave in faults then Run(db, Fail(Rethrow(Fault(faults, PushSave))))
    else Run(PushTo(db, user, Saves, recipe), Ok(()))
  }

  /** `User.removeSaves(recipe, user)`: every copy of the recipe is pulled
      from the user's saves. */
  function RemoveSaves(db: Db, recipe: Id, user: Id, faults: Faults): (r: Run<()>)
    ensures r.db.users.Keys == db.users.Keys
    ensures PullSave in faults ==> r == Run(db, Fail(Raise(faults[PullSave])))
    ensures r.result.Ok? ==> user in db.users ==> recipe !in ListOf(r.db.users[user], Saves)
    ensures r.result.Ok? ==>
              && r.db == PullFrom(db, user, Saves, recipe)
              && (user in db.users ==> r.db.users[user] == db.users[user].(saves := Pull(db.users[user].saves, recipe)))
              && (forall id :: id in db.users && id != user ==> r.db.users[id] == db.users[id])
              && r.db == db.(users := r.db.users)
  {
    if PullSave in faults then Run(db, Fail(Rethrow(Fault(faults, PullSave))))
    else Run(PullFrom(db, user, Saves, recipe), Ok(()))
  }

  /** A `$push` onto a user's list keeps every document valid: name and
      email, the fields the schema checks, are untouched. */
  lemma PushToKeepsValid(db: Db, userId: Id, l: UserList, x: Id)
    requires Valid(db)
    ensures Valid(PushTo(db, userId, l, x))
  {
    var u := PushTo(db, userId, l, x).users;
    assert forall id :: id in u ==> u[id].email == db.users[id].email && u[id].name == db.users[id].name;
  }

  /** A `$pull` from a user's list keeps every document valid, for the same
      reason as a `$push`. */
  lemma PullFromKeepsValid(db: Db, userId: Id, l: UserList, x: Id)
    requires Valid(db)
    ensures Valid(PullFrom(db, userId, l, x))
  {
    var u := PullFrom(db, userId, l, x).users;
    assert forall id :: id in u ==> u[id].email == db.users[id].email && u[id].name == db.users[id].name;
  }

  /** Following keeps every document valid, whether both writes, only the
      first or neither succeed. */
  lemma AddFollowingsKeepsValid(db: Db, followed: Id, follower: Id, faults: Faults)
    requires Valid(db)
    ensures Valid(AddFollowings(db, followed, follower, faults).db)
  {
    var first := PushTo(db, followed, Followers, follower);
    PushToKeepsValid(db, followed, Followers, follower);
    PushToKeepsValid(first, follower, Followings, followed);
  }

  /** Unfollowing keeps every document valid, in the same three cases. */
  lemma RemoveFollowingsKeepsValid(db: Db, followed: Id, follower: Id, faults: Faults)
    requires Valid(db)
    ensures Valid(RemoveFollowings(db, followed, follower, faults).db)
  {
    var first := PullFrom(db, followed, Followers, follower);
    PullFromKeepsValid(db, followed, Followers, follower);
    PullFromKeepsValid(first, follower, Followings, followed);
  }

  /** Saving and unsaving a recipe keep every document valid. */
  lemma SavesKeepValid(db: Db, recipe: Id, user: Id, faults: Faults)
    requires Valid(db)
    ensures Valid(AddSaves(db, recipe, user, faults).db)
    ensures Valid(RemoveSaves(db, recipe, user, faults).db)
  {
    PushToKeepsValid(db, user, Saves, recipe);
    PullFromKeepsValid(db, user, Saves, recipe);
  }

  /** Pushing a value a list does not hold and pulling it again restores the store. */
  lemma PullUndoesPush(db: Db, userId: Id, l: UserList, x: Id)
    requires userId in db.users ==> x !in ListOf(db.users[userId], l)
    ensures PullFrom(PushTo(db, userId, l, x), userId, l, x) == db
  {
    if userId in db.users {
      var u := db.users[userId];
      var pushed := Push(ListOf(u, l), x);
      var mid := PushTo(db, userId, l, x);
      assert mid == db.(users := db.users[userId := WithList(u, l, pushed)]);
      var back := PullFrom(mid, userId, l, x);
      assert back == mid.(users := mid.users[userId := WithList(WithList(u, l, pushed), l, Pull(pushed, x))]);
      UserPushThenPull(u, l, x);
      RestoreEntry(db.users, userId, WithList(u, l, pushed));
    }
  }

  /** Pulling a value twice from a user's list is pulling it once. */
  lemma PullFromIdempotent(db: Db, userId: Id, l: UserList, x: Id)
    ensures PullFrom(PullFrom(db, userId, l, x), userId, l, x) == PullFrom(db, userId, l, x)
  {
    if userId in db.users {
      var u := db.users[userId];
      var once := PullFrom(db, userId, l, x);
      assert once == db.(users := db.users[userId := WithList(u, l, Pull(ListOf(u, l), x))]);
      PullIdempotent(ListOf(u, l), x);
      WithListTwice(u, l, Pull(ListOf(u, l), x), Pull(Pull(ListOf(u, l), x), x));
      assert PullFrom(once, userId, l, x)
             == once.(users := once.users[userId := WithList(WithList(u, l, Pull(ListOf(u, l), x)), l,
                                                                   Pull(Pull(ListOf(u, l), x), x))]);
    }
  }

  /** Overwriting an entry and then writing its old value back gives the map back. */
  lemma RestoreEntry(m: map<Id, User>, k: Id, v: User)
    requires k in m
    ensures m[k := v][k := m[k]] == m
  {
  }

  /** On one user: appending a value the list does not hold, then pulling
      it, gives the user back. */
  lemma UserPushThenPull(u: User, l: UserList, x: Id)
    requires x !in ListOf(u, l)
    ensures var pushed := Push(ListOf(u, l), x);
            WithList(WithList(u, l, pushed), l, Pull(pushed, x)) == u
  {
    var pushed := Push(ListOf(u, l), x);
    WithListTwice(u, l, pushed, Pull(pushed, x));
    PushThenPullRestores(ListOf(u, l), x);
    WithListSame(u, l);
  }

  /** Replacing a list twice keeps only the second replacement. */
  lemma WithListTwice(u: User, l: UserList, a: seq<Id>, b: seq<Id>)
    ensures WithList(WithList(u, l, a), l, b) == WithList(u, l, b)
  {
  }

  /** Replacing a list by itself changes nothing. */
  lemma WithListSame(u: User, l: UserList)
    ensures WithList(u, l, ListOf(u, l)) == u
  {
  }

  /** Unfollowing right after following restores the store, as long as the
      two were not already linked. */
  lemma UnfollowUndoesFollow(db: Db, followed: Id, follower: Id, faults: Faults)
    requires PushFollower !in faults && PushFollowing !in faults
    requires PullFollower !in faults && PullFollowing !in faults
    requires followed in db.users ==> follower !in ListOf(db.users[followed], Followers)
    requires follower in db.users ==> followed !in ListOf(db.users[follower], Followings)
    ensures RemoveFollowings(AddFollowings(db, followed, follower, faults).db, followed, follower, faults).db == db
  {
    var first := PushTo(db, followed, Followers, follower);
    var second := PushTo(first, follower, Followings, followed);
    PushPullCommute(first, follower, Followings, followed, followed, Followers, follower);
    PullUndoesPush(db, followed, Followers, follower);
    PullUndoesPush(db, follower, Followings, followed);
  }

  /** Writes to two different lists commute. */
  lemma PushPullCommute(db: Db, a: Id, la: UserList, x: Id, b: Id, lb: UserList, y: Id)
    requires la != lb
    ensures PullFrom(PushTo(db, a, la, x), b, lb, y) == PushTo(PullFrom(db, b, lb, y), a, la, x)
  {
    var left := PullFrom(PushTo(db, a, la, x), b, lb, y);
    var right := PushTo(PullFrom(db, b, lb, y), a, la, x);
    if a == b && a in db.users {
      var u := db.users[a];
      assert left.users[a] == right.users[a] by {
        WithListCommute(u, la, ListOf(u, la) + [x], lb, Pull(ListOf(u, lb), y));
      }
    }
    assert left.users == right.users;
  }

  lemma WithListCommute(u: User, la: UserList, xs: seq<Id>, lb: UserList, ys: seq<Id>)
    requires la != lb
    ensures WithList(WithList(u, la, xs), lb, ys) == WithList(WithList(u, lb, ys), la, xs)
  {
  }

  /** Unsaving right after saving restores the store, as long as the recipe
      was not saved before. */
  lemma UnsaveUndoesSave(db: Db, recipe: Id, user: Id, faults: Faults)
    requires PushSave !in faults && PullSave !in faults
    requires user in db.users ==> recipe !in ListOf(db.users[user], Saves)
    ensures RemoveSaves(AddSaves(db, recipe, user, faults).db, recipe, user, faults).db == db
  {
    PullUndoesPush(db, user, Saves, recipe);
  }

  /** The fields a profile update reads from the request body; an absent
      field is the empty string, which JavaScript also treats as false. */
  datatype UpdateRequest = UpdateRequest(name: string, oldPassword: string, newPassword: string)

  /** `User.update(req)`, with `authId` the user id the request's token
      carries.  The old password, when given, must match; a new password,
      when given, replaces the hash; a new avatar first destroys the old one
      and is then uploaded; the name is always overwritten.  Every error is
      rethrown as a plain `Error` and leaves the store as it was. */
  function Update(db: Db, authId: Option<Id>, req: UpdateRequest, files: Files, salt: nat,
                  faults: Faults): (r: MediaRun<Stored<User>>)
    ensures r.result.Fail? ==> r.db == db && r.result.error.name == PlainError
    ensures authId.None? ==> r.result == Fail(Raise(NotAuthenticated)) && r.media == []
    ensures FileAt(files, AvatarField).None? ==> r.media == []
    ensures r.result.Ok? <==>
              && authId.Some? && FindUser !in faults && authId.value in db.users
              && (req.oldPassword != "" ==>
                    db.users[authId.value].password.Some?
                    && Matches(req.oldPassword, db.users[authId.value].password.value))
              && (FileAt(files, AvatarField).Some? ==> FileAt(files, AvatarField).value.hostReply.Some?)
              && req.name != "" && db.users[authId.value].email != "" && SaveUser !in faults
    ensures r.media != [] ==>
              && authId.Some? && FindUser !in faults && authId.value in db.users
              && (req.oldPassword != "" ==>
                    db.users[authId.value].password.Some?
                    && Matches(req.oldPassword, db.users[authId.value].password.value))
    ensures r.media != [] || (r.result.Ok? && FileAt(files, AvatarField).Some?) ==>
              && authId.Some? && authId.value in db.users && FileAt(files, AvatarField).Some?
              && r.media == Delete(db.users[authId.value].avatar, Image)
                            + [UploadRequest(FileAt(files, AvatarField).value, Image)]
    ensures r.result.Ok? ==>
              var id := r.result.value.id;
              var u := r.result.value.doc;
              && authId == Some(id) && id in db.users
              && r.db == db.(users := db.users[id := u])
              && u.name == req.name
              && u == db.users[id].(name := u.name, password := u.password, avatar := u.avatar)
              && (req.oldPassword != "" ==>
                    db.users[id].password.Some? && Matches(req.oldPassword, db.users[id].password.value))
              && u.password == (if req.newPassword != "" then Some(Hash(req.newPassword, salt)) else db.users[id].password)
              && u.avatar == (if FileAt(files, AvatarField).Some? then FileAt(files, AvatarField).value.hostReply
                              else db.users[id].avatar)
              && (FileAt(files, AvatarField).Some? ==> u.avatar.Some?)
              && ValidUser(u)
  {
    if authId.None? then MediaRun(db, Fail(Raise(NotAuthenticated)), [])
    else if FindUser in faults then MediaRun(db, Fail(Rethrow(Fault(faults, FindUser))), [])
    else if authId.value !in db.users then MediaRun(db, Fail(Raise(UserNotFound)), [])
    else
      var id := authId.value;
      var user := db.users[id];
      if req.oldPassword != "" && user.password.None? then MediaRun(db, Fail(Raise(BcryptArguments)), [])
      else if req.oldPassword != "" && !Matches(req.oldPassword, user.password.value) then
        MediaRun(db, Fail(Raise(WrongPassword)), [])
      else
        var withPassword := if req.newPassword != "" then user.(password := Some(Hash(req.newPassword, salt))) else user;
        var file := FileAt(files, AvatarField);
        var up := Upload(file, Image);
        var media := if file.Some? then Delete(user.avatar, Image) + up.requests else [];
        if file.Some? && up.url.None? then MediaRun(db, Fail(Raise(UploadFailure)), media)
        else
          var withAvatar := if file.Some? then withPassword.(avatar := up.url) else withPassword;
          var updated := withAvatar.(name := req.name);
          if !ValidUser(updated) then MediaRun(db, Fail(Rethrow(Invalid("User"))), media)
          else if SaveUser in faults then MediaRun(db, Fail(Rethrow(Fault(faults, SaveUser))), media)
          else MediaRun(db.(users := db.users[id := updated]), Ok(Stored(id, updated)), media)
  }

  /** When a new avatar fails to upload, the old one has already been
      destroyed on the media host while the stored user still refers to it. */
  lemma UpdateAvatarFailureDestroysOldAvatar(db: Db, id: Id, req: UpdateRequest, files: Files,
                                            salt: nat, faults: Faults)
    requires FindUser !in faults && id in db.users
    requires req.oldPassword == ""
    requires FileAt(files, AvatarField).Some? && FileAt(files, AvatarField).value.hostReply.None?
    requires db.users[id].avatar.Some? && PublicId.Extract(db.users[id].avatar.value.pathname).Ok?
    ensures var r := Update(db, Some(id), req, files, salt, faults);
            && r.result == Fail(Raise(UploadFailure))
            && r.db.users[id].avatar == db.users[id].avatar
            && r.media == [DestroyRequest(PublicId.Extract(db.users[id].avatar.value.pathname).value, Image),
                           UploadRequest(FileAt(files, AvatarField).value, Image)]
  {
  }

  /** A profile update keeps every stored document valid; the email, and so
      the uniqueness of emails, is never touched. */
  lemma UpdateKeepsValid(db: Db, authId: Option<Id>, req: UpdateRequest, files: Files, salt: nat, faults: Faults)
    requires Valid(db)
    ensures Valid(Update(db, authId, req, files, salt, faults).db)
  {
    var r := Update(db, authId, req, files, salt, faults);
    if r.result.Ok? {
      ReplaceUserKeepsValid(db, r.result.value.id, r.result.value.doc);
    }
  }

  /** Replacing a user by a valid document with the same email keeps the
      store valid. */
  lemma ReplaceUserKeepsValid(db: Db, id: Id, u: User)
    requires Valid(db) && id in db.users
    requires ValidUser(u) && u.email == db.users[id].email
    ensures Valid(db.(users := db.users[id := u]))
  {
    var users := db.users[id := u];
    assert forall k :: k in users ==> users[k].email == db.users[k].email;
  }
}
