/** The handlers of the user controller that change the tables:
    `getUserByUsername`, `getUserFriends`, `softDeleteUser` and `updateUser`.
    Each is a method on the database, proved equal to a function of the old
    tables, the GitHub oracle and the clock; the lemmas below state what the
    handlers promise in terms of those functions. */
module UserController {
  import opened Http
  import opened GitHub
  import opened Users
  import opened Friends
  import opened UserUpdate

  /** The two tables of the PostgreSQL database, updated in place. */
  class Database {
    var users: map<string, User>
    var friends: set<Edge>
    var nextId: nat

    function State(): Tables
      reads this
    {
      Tables(users, friends, nextId)
    }

    ghost predicate Valid()
      reads this
    {
      State().Valid()
    }

    constructor ()
      ensures Valid() && State() == Tables(map[], {}, 0)
    {
      users, friends, nextId := map[], {}, 0;
    }
  }

  // ---------------------------------------------------------------------
  // getUserByUsername

  /** Fetch-or-create: an active row is returned as stored; a soft-deleted row
      is refreshed from GitHub and reactivated; an absent username is fetched
      and inserted under the profile's login. A GitHub 404 gives 404, any other
      GitHub failure and a clash with an existing login give 500. */
  function Resolve(t: Tables, gh: Client, username: string): (Tables, Response<User>) {
    if username == "" then (t, Fail(BadRequest, "Username is required"))
    else if username in t.users then
      var existing := t.users[username];
      if existing.deletedAt.Some? then
        match gh.user(username)
        case Missing => (t, Fail(NotFound, "GitHub user not found"))
        case Transport(_) => (t, Fail(ServerError, "Failed to fetch user data"))
        case Found(p) =>
          var updated := Refreshed(existing, p);
          (Replace(t, username, updated), Ok(updated))
      else (t, Ok(existing))
    else
      match gh.user(username)
      case Missing => (t, Fail(NotFound, "GitHub user not found"))
      case Transport(_) => (t, Fail(ServerError, "Failed to fetch user data"))
      case Found(p) =>
        if p.login in t.users then (t, Fail(ServerError, "Failed to fetch user data"))
        else (Insert(t, p), Ok(NewRow(t.nextId, p)))
  }

  method GetUserByUsername(db: Database, gh: Client, username: string) returns (r: Response<User>)
    requires db.Valid()
    modifies db
    ensures db.Valid()
    ensures (db.State(), r) == Resolve(old(db.State()), gh, username)
  {
    if username == "" {
      return Fail(BadRequest, "Username is required");
    }
    if username in db.users {
      var existing := db.users[username];
      if existing.deletedAt.Some? {
        match gh.user(username) {
          case Missing =>
            return Fail(NotFound, "GitHub user not found");
          case Transport(_) =>
            return Fail(ServerError, "Failed to fetch user data");
          case Found(p) =>
            var updated := Refreshed(existing, p);
            ReplaceValid(db.State(), username, updated);
            db.users := db.users[username := updated];
            return Ok(updated);
        }
      }
      return Ok(existing);
    }
    match gh.user(username) {
      case Missing =>
        return Fail(NotFound, "GitHub user not found");
      case Transport(_) =>
        return Fail(ServerError, "Failed to fetch user data");
      case Found(p) =>
        if p.login in db.users {
          // the INSERT violates the unique constraint on username
          return Fail(ServerError, "Failed to fetch user data");
        }
        InsertValid(db.State(), p);
        var created := NewRow(db.nextId, p);
        db.users := db.users[p.login := created];
        db.nextId := db.nextId + 1;
        return Ok(created);
    }
  }

  /** An active row is answered from the tables: no write, and the answer
      does not depend on GitHub at all. */
  lemma ResolveActive(t: Tables, gh: Client, other: Client, username: string)
    requires username != "" && t.HasActive(username)
    ensures Resolve(t, gh, username) == (t, Ok(t.users[username]))
    ensures Resolve(t, other, username) == Resolve(t, gh, username)
  {
  }

  /** A username GitHub does not know, with no active row, gives 404 and
      leaves the tables as they were. */
  lemma ResolveMissing(t: Tables, gh: Client, username: string)
    requires username != "" && !t.HasActive(username) && gh.user(username).Missing?
    ensures Resolve(t, gh, username) == (t, Fail(NotFound, "GitHub user not found"))
  {
  }

  /** An absent username inserts exactly one row, keyed by the profile's
      login, with the profile's timestamps, and answers with it. */
  lemma ResolveInserts(t: Tables, gh: Client, username: string, p: Profile)
    requires t.Valid() && username != "" && username !in t.users
    requires gh.user(username) == Found(p) && p.login !in t.users
    ensures var (t', r) := Resolve(t, gh, username);
      && t'.users == t.users[p.login := r.body] && |t'.users| == |t.users| + 1
      && t'.friends == t.friends && t'.Valid()
      && r.Ok? && r.body.username == p.login && Mirrors(r.body, p) && r.body.Active()
      && r.body.createdAt == p.createdAt && r.body.updatedAt == p.updatedAt
      && r.body.id !in t.Ids()
  {
    InsertValid(t, p);
  }

  /** A soft-deleted row is resurrected in place: all mirrored fields from
      the fresh profile, `updated_at` from the profile, `deleted_at` cleared,
      id, username and `created_at` kept; no other row changes. */
  lemma ResolveResurrects(t: Tables, gh: Client, username: string, p: Profile)
    requires username != "" && username in t.users && !t.users[username].Active()
    requires gh.user(username) == Found(p)
    ensures var (t', r) := Resolve(t, gh, username); var old_row := t.users[username];
      && r == Ok(t'.users[username]) && t'.users == t.users[username := r.body]
      && t'.friends == t.friends && t'.nextId == t.nextId
      && r.body.Active() && Mirrors(r.body, p) && r.body.updatedAt == p.updatedAt
      && r.body.id == old_row.id && r.body.username == old_row.username
      && r.body.createdAt == old_row.createdAt
  {
    RefreshedFields(t.users[username], p);
  }

  /** Every outcome keeps the tables valid. */
  lemma ResolveValid(t: Tables, gh: Client, username: string)
    requires t.Valid()
    ensures Resolve(t, gh, username).0.Valid()
  {
    if username != "" && username in t.users && t.users[username].deletedAt.Some? && gh.user(username).Found? {
      ReplaceValid(t, username, Refreshed(t.users[username], gh.user(username).value));
    } else if username != "" && username !in t.users && gh.user(username).Found?
              && gh.user(username).value.login !in t.users {
      InsertValid(t, gh.user(username).value);
    }
  }

  /** Once a username has been answered with a row of that name, asking again
      answers the same row and writes nothing. */
  lemma ResolveIdempotent(t: Tables, gh: Client, username: string)
    requires Resolve(t, gh, username).1.Ok?
    requires Resolve(t, gh, username).1.body.username == username
    ensures var (t', r) := Resolve(t, gh, username); Resolve(t', gh, username) == (t', r)
  {
  }

  /** When GitHub's login differs from the name asked for (GitHub matches
      names case-insensitively), the first call inserts the row under the
      login, and every later call for the same name collides with it on the
      unique username and fails with 500. */
  lemma ResolveLoginMismatch(t: Tables, gh: Client, username: string, p: Profile)
    requires username != "" && username !in t.users
    requires gh.user(username) == Found(p) && p.login != username && p.login !in t.users
    ensures var (t', r) := Resolve(t, gh, username);
      r.Ok? && Resolve(t', gh, username) == (t', Fail(ServerError, "Failed to fetch user data"))
  {
  }

  // ---------------------------------------------------------------------
  // softDeleteUser

  /** `UPDATE users SET deleted_at = now WHERE username = $1 AND deleted_at
      IS NULL`: 404 when no active row matches. */
  function SoftDelete(t: Tables, username: string, now: int): (Tables, Response<User>) {
    if username == "" then (t, Fail(BadRequest, "Username is required"))
    else if t.HasActive(username) then
      var deleted := SoftDeleted(t.users[username], now);
      (Replace(t, username, deleted), Ok(deleted))
    else (t, Fail(NotFound, "User not found or already deleted"))
  }

  method SoftDeleteUser(db: Database, username: string, now: int) returns (r: Response<User>)
    requires db.Valid()
    modifies db
    ensures db.Valid()
    ensures (db.State(), r) == SoftDelete(old(db.State()), username, now)
  {
    if username == "" {
      return Fail(BadRequest, "Username is required");
    }
    if username in db.users && db.users[username].deletedAt.None? {
      var deleted := SoftDeleted(db.users[username], now);
      ReplaceValid(db.State(), username, deleted);
      db.users := db.users[username := deleted];
      return Ok(deleted);
    }
    return Fail(NotFound, "User not found or already deleted");
  }

  /** Deleting succeeds exactly on an active row, and then only sets that
      row's `deleted_at`; otherwise nothing changes. */
  lemma SoftDeleteEffect(t: Tables, username: string, now: int)
    requires username != ""
    ensures var (t', r) := SoftDelete(t, username, now);
      && (r.Ok? <==> t.HasActive(username))
      && (r.Ok? ==> t'.users == t.users[username := t.users[username].(deletedAt := Some(now))]
                    && t'.friends == t.friends && t'.nextId == t.nextId && r.body == t'.users[username])
      && (r.Fail? ==> t' == t && r.status == NotFound)
  {
  }

  /** A second delete of the same user fails with 404 and changes nothing. */
  lemma SoftDeleteTwice(t: Tables, username: string, now: int, later: int)
    requires SoftDelete(t, username, now).1.Ok?
    ensures var t' := SoftDelete(t, username, now).0;
      SoftDelete(t', username, later) == (t', Fail(NotFound, "User not found or already deleted"))
  {
  }

  /** Delete followed by a lookup that GitHub answers resurrects the row:
      the net effect is a full refresh of the original row. */
  lemma DeleteThenResolve(t: Tables, gh: Client, username: string, now: int, p: Profile)
    requires SoftDelete(t, username, now).1.Ok?
    requires gh.user(username) == Found(p)
    ensures var t' := SoftDelete(t, username, now).0;
      Resolve(t', gh, username) == (Replace(t, username, Refreshed(t.users[username], p)),
                                    Ok(Refreshed(t.users[username], p)))
  {
    var t' := SoftDelete(t, username, now).0;
    RefreshedForgetsStale(t'.users[username], t.users[username], p);
    assert Replace(t', username, Refreshed(t'.users[username], p)) == Replace(t, username, Refreshed(t.users[username], p));
  }

  // ---------------------------------------------------------------------
  // updateUser

  /** PATCH of location/blog/bio on an active row: 400 when no field is
      supplied, 404 when no active row matches. */
  function Update(t: Tables, username: string, patch: Patch, now: int): (Tables, Response<User>) {
    if username == "" then (t, Fail(BadRequest, "Username is required"))
    else if patch.IsEmpty() then (t, Fail(BadRequest, "At least one field to update is required"))
    else if t.HasActive(username) then
      var updated := Patched(t.users[username], patch, now);
      (Replace(t, username, updated), Ok(updated))
    else (t, Fail(NotFound, "User not found"))
  }

  method UpdateUser(db: Database, username: string, patch: Patch, now: int) returns (r: Response<User>)
    requires db.Valid()
    modifies db
    ensures db.Valid()
    ensures (db.State(), r) == Update(old(db.State()), username, patch, now)
  {
    if username == "" {
      return Fail(BadRequest, "Username is required");
    }
    if patch.IsEmpty() {
      return Fail(BadRequest, "At least one field to update is required");
    }
    var assignments, values, counter := BuildUpdate(patch, username);
    var key := values[counter - 1];
    // WHERE username = $counter AND deleted_at IS NULL
    if key.value in db.users && db.users[key.value].deletedAt.None? {
      ExecuteBuilt(db.users[key.value], patch, username, assignments, values, counter, now);
      var updated := Execute(db.users[key.value], assignments, values, now);
      ReplaceValid(db.State(), key.value, updated);
      db.users := db.users[key.value := updated];
      return Ok(updated);
    }
    return Fail(NotFound, "User not found");
  }

  /** An empty patch is refused with 400 before the row is looked up; an
      absent or soft-deleted user gives 404; otherwise only that row changes,
      in its supplied fields and `updated_at`. Failures change nothing. */
  lemma UpdateEffect(t: Tables, username: string, patch: Patch, now: int)
    requires username != ""
    ensures var (t', r) := Update(t, username, patch, now);
      && (patch.IsEmpty() ==> r == Fail(BadRequest, "At least one field to update is required"))
      && (!patch.IsEmpty() && !t.HasActive(username) ==> r == Fail(NotFound, "User not found"))
      && (r.Ok? <==> !patch.IsEmpty() && t.HasActive(username))
      && (r.Ok? ==> t'.users == t.users[username := r.body] && t'.friends == t.friends
                    && t'.nextId == t.nextId
                    && r.body.(location := t.users[username].location, blog := t.users[username].blog,
                               bio := t.users[username].bio, updatedAt := t.users[username].updatedAt)
                       == t.users[username]
                    && r.body.updatedAt == now)
      && (r.Fail? ==> t' == t)
  {
  }

  // ---------------------------------------------------------------------
  // getUserFriends

  /** The friends workflow: the subject must be active locally or known to
      GitHub (404 otherwise); both follow lists must be fetched (500
      otherwise); the subject must have a row, active or not (404
      otherwise); then every mutual login is synced and the answer is the
      active rows linked from the subject. */
  function LoadFriends(t: Tables, gh: Client, username: string): (Tables, Response<set<User>>) {
    if username == "" then (t, Fail(BadRequest, "Username is required"))
    else if !t.HasActive(username) && !gh.user(username).Found? then (t, Fail(NotFound, "User not found"))
    else if !gh.followers(username).Found? || !gh.following(username).Found? then
      (t, Fail(ServerError, "Failed to fetch user friends"))
    else if username !in t.users then (t, Fail(NotFound, "User not found in database"))
    else
      var uid := t.users[username].id;
      var t' := SyncFriends(t, gh, uid, Mutual(gh.followers(username).value, gh.following(username).value));
      (t', Ok(FriendsOf(t', uid)))
  }

  method GetUserFriends(db: Database, gh: Client, username: string) returns (r: Response<set<User>>)
    requires db.Valid()
    modifies db
    ensures db.Valid()
    ensures (db.State(), r) == LoadFriends(old(db.State()), gh, username)
  {
    if username == "" {
      return Fail(BadRequest, "Username is required");
    }
    if !(username in db.users && db.users[username].deletedAt.None?) {
      if !gh.user(username).Found? {
        return Fail(NotFound, "User not found");
      }
    }
    var followers, following;
    match gh.followers(username) {
      case Found(list) => followers := list;
      case _ => return Fail(ServerError, "Failed to fetch user friends");
    }
    match gh.following(username) {
      case Found(list) => following := list;
      case _ => return Fail(ServerError, "Failed to fetch user friends");
    }
    var mutual := Mutual(followers, following);
    if username !in db.users {
      return Fail(NotFound, "User not found in database");
    }
    var uid := db.users[username].id;
    assert uid in db.State().Ids();
    StoreFriends(db, gh, uid, mutual);
    return Ok(FriendsOf(db.State(), uid));
  }

  /** The `for (const friendUsername of friends)` loop: fetch, upsert the
      user, insert the edge; a failed fetch skips to the next friend. */
  method StoreFriends(db: Database, gh: Client, uid: nat, mutual: seq<string>)
    requires db.Valid() && uid in db.State().Ids()
    modifies db
    ensures db.Valid()
    ensures db.State() == SyncFriends(old(db.State()), gh, uid, mutual)
  {
    ghost var start := db.State();
    var i := 0;
    while i < |mutual|
      invariant 0 <= i <= |mutual|
      invariant SyncFriends(db.State(), gh, uid, mutual[i..]) == SyncFriends(start, gh, uid, mutual)
    {
      var friendUsername := mutual[i];
      ghost var before := db.State();
      assert mutual[i..] == [friendUsername] + mutual[i + 1..];
      match gh.user(friendUsername) {
        case Found(p) =>
          var friendId;
          if p.login in db.users {
            friendId := db.users[p.login].id;
            db.users := db.users[p.login := Upserted(db.users[p.login], p)];
          } else {
            friendId := db.nextId;
            db.users := db.users[p.login := NewRow(db.nextId, p)];
            db.nextId := db.nextId + 1;
          }
          db.friends := db.friends + {(uid, friendId)};
        case _ =>
          // the failure is logged and the loop continues with the next friend
      }
      assert db.State() == SyncFriend(before, gh, uid, friendUsername);
      i := i + 1;
    }
    SyncFriendsValid(start, gh, uid, mutual);
  }

  /** 404 "User not found" exactly when the subject has no active row and its
      profile fetch fails, for whatever reason. */
  lemma LoadFriendsUnknownSubject(t: Tables, gh: Client, username: string)
    requires username != ""
    ensures LoadFriends(t, gh, username).1 == Fail(NotFound, "User not found")
        <==> !t.HasActive(username) && !gh.user(username).Found?
  {
  }

  /** 404 "User not found in database" exactly when the subject passed the
      existence check and the lists were fetched, but no row at all (active or
      soft-deleted) has its name. */
  lemma LoadFriendsNoRow(t: Tables, gh: Client, username: string)
    requires username != ""
    ensures LoadFriends(t, gh, username).1 == Fail(NotFound, "User not found in database")
        <==> && username !in t.users && gh.user(username).Found?
             && gh.followers(username).Found? && gh.following(username).Found?
  {
  }

  /** Every failure leaves both tables as they were. */
  lemma LoadFriendsFailureUnchanged(t: Tables, gh: Client, username: string)
    requires LoadFriends(t, gh, username).1.Fail?
    ensures LoadFriends(t, gh, username).0 == t
  {
  }

  /** A successful call adds exactly one edge from the subject per mutual
      login whose profile was fetched, whatever failed before or after it,
      and no other edge; existing rows keep their ids and lifecycle. */
  lemma LoadFriendsEdges(t: Tables, gh: Client, username: string)
    requires LoadFriends(t, gh, username).1.Ok?
    ensures var t' := LoadFriends(t, gh, username).0;
      var fs := Mutual(gh.followers(username).value, gh.following(username).value);
      && t'.friends == t.friends + FriendEdges(t'.users, gh, t.users[username].id, fs)
      && (forall f | f in fs && gh.user(f).Found? :: gh.user(f).value.login in t'.users)
      && (forall k | k in t.users :: k in t'.users && t'.users[k].id == t.users[k].id && t'.users[k].deletedAt == t.users[k].deletedAt)
      && (forall k | k in t.users ::
            t'.users[k].(avatarUrl := t.users[k].avatarUrl, name := t.users[k].name,
                         updatedAt := t.users[k].updatedAt) == t.users[k])
  {
    var fs := Mutual(gh.followers(username).value, gh.following(username).value);
    SyncFriendsEdges(t, gh, t.users[username].id, fs);
    SyncFriendsRows(t, gh, t.users[username].id, fs);
  }

  /** The answer holds every synced mutual friend whose row is active, and
      only active rows linked from the subject. */
  lemma LoadFriendsAnswer(t: Tables, gh: Client, username: string, f: string)
    requires LoadFriends(t, gh, username).1.Ok?
    requires f in gh.followers(username).value && f in gh.following(username).value
    requires gh.user(f).Found?
    ensures var (t', r) := LoadFriends(t, gh, username); var login := gh.user(f).value.login;
      && login in t'.users
      && (t'.users[login] in r.body <==> t'.users[login].Active())
  {
    var fs := Mutual(gh.followers(username).value, gh.following(username).value);
    SyncFriendsHasEdge(t, gh, t.users[username].id, fs, f);
  }

  /** Calling the workflow twice with the same GitHub data: the second call
      writes nothing and answers the same friends. */
  lemma LoadFriendsIdempotent(t: Tables, gh: Client, username: string)
    requires LoadFriends(t, gh, username).1.Ok?
    ensures var (t', r) := LoadFriends(t, gh, username); LoadFriends(t', gh, username) == (t', r)
  {
    var uid := t.users[username].id;
    var fs := Mutual(gh.followers(username).value, gh.following(username).value);
    SyncFriendsRows(t, gh, uid, fs);
    SyncFriendsIdempotent(t, gh, uid, fs);
  }

  /** Every outcome keeps the tables valid. */
  lemma LoadFriendsValid(t: Tables, gh: Client, username: string)
    requires t.Valid()
    ensures LoadFriends(t, gh, username).0.Valid()
  {
    if LoadFriends(t, gh, username).1.Ok? {
      var fs := Mutual(gh.followers(username).value, gh.following(username).value);
      assert t.users[username].id in t.Ids();
      SyncFriendsValid(t, gh, t.users[username].id, fs);
    }
  }
}
