/** The `users` and `friends` tables of the user cache, as values, with the
    row operations the controller performs on them. */
module Users {
  import opened Http
  import opened GitHub

  /** A row of `users`. A row is never removed: `deletedAt` set means the row
      is soft-deleted, `None` means it is active. */
  datatype User = User(
    id: nat,
    username: string,
    avatarUrl: string,
    name: Option<string>,
    company: Option<string>,
    blog: Option<string>,
    location: Option<string>,
    email: Option<string>,
    bio: Option<string>,
    twitterUsername: Option<string>,
    publicRepos: int,
    publicGists: int,
    followers: int,
    following: int,
    createdAt: int,
    updatedAt: int,
    deletedAt: Option<int>)
  {
    predicate Active() { deletedAt.None? }
  }

  /** A row of `friends`: (user_id, friend_id). */
  type Edge = (nat, nat)

  /** Both tables, with `users` keyed by its unique `username` column and
      `nextId` the next value of the `id` sequence. */
  datatype Tables = Tables(users: map<string, User>, friends: set<Edge>, nextId: nat)
  {
    function Ids(): set<nat> {
      set k | k in users :: users[k].id
    }

    /** Keys are the usernames, ids are unique and below the sequence,
        and every edge joins two existing rows. */
    ghost predicate Valid() {
      && (forall k | k in users :: users[k].username == k && users[k].id < nextId)
      && (forall k, k' | k in users && k' in users && k != k' :: users[k].id != users[k'].id)
      && (forall e | e in friends :: e.0 in Ids() && e.1 in Ids())
    }

    predicate HasActive(username: string) {
      username in users && users[username].Active()
    }

    /** `SELECT * FROM users WHERE deleted_at IS NULL`, as a set of rows. */
    function ActiveRows(): set<User> {
      set k | k in users && users[k].Active() :: users[k]
    }
  }

  /** The twelve profile fields that a full refresh copies into a row. */
  predicate Mirrors(u: User, p: Profile) {
    && u.avatarUrl == p.avatarUrl && u.name == p.name && u.company == p.company
    && u.blog == p.blog && u.location == p.location && u.email == p.email
    && u.bio == p.bio && u.twitterUsername == p.twitterUsername
    && u.publicRepos == p.publicRepos && u.publicGists == p.publicGists
    && u.followers == p.followers && u.following == p.following
  }

  /** The row `INSERT INTO users (...)` creates from a profile. */
  function NewRow(id: nat, p: Profile): User {
    User(id, p.login, p.avatarUrl, p.name, p.company, p.blog, p.location, p.email,
         p.bio, p.twitterUsername, p.publicRepos, p.publicGists, p.followers,
         p.following, p.createdAt, p.updatedAt, None)
  }

  /** Resurrection of a soft-deleted row: every mirrored field from the fresh
      profile, `updated_at` from the profile, `deleted_at` cleared. */
  function Refreshed(u: User, p: Profile): User {
    u.(avatarUrl := p.avatarUrl, name := p.name, company := p.company, blog := p.blog,
       location := p.location, email := p.email, bio := p.bio,
       twitterUsername := p.twitterUsername, publicRepos := p.publicRepos,
       publicGists := p.publicGists, followers := p.followers, following := p.following,
       updatedAt := p.updatedAt, deletedAt := None)
  }

  /** `ON CONFLICT (username) DO UPDATE SET avatar_url, name, updated_at`. */
  function Upserted(u: User, p: Profile): User {
    u.(avatarUrl := p.avatarUrl, name := p.name, updatedAt := p.updatedAt)
  }

  function SoftDeleted(u: User, now: int): User {
    u.(deletedAt := Some(now))
  }

  /** Adds the row built from `p` under a fresh id. */
  function Insert(t: Tables, p: Profile): Tables {
    t.(users := t.users[p.login := NewRow(t.nextId, p)], nextId := t.nextId + 1)
  }

  /** Overwrites an existing row. */
  function Replace(t: Tables, key: string, u: User): Tables {
    t.(users := t.users[key := u])
  }

  /** Inserting an absent username keeps the tables valid and adds exactly
      the fresh id. */
  lemma InsertValid(t: Tables, p: Profile)
    requires t.Valid() && p.login !in t.users
    ensures Insert(t, p).Valid()
    ensures Insert(t, p).Ids() == t.Ids() + {t.nextId}
  {
    var t' := Insert(t, p);
    forall i | i in t.Ids() + {t.nextId} ensures i in t'.Ids() {
      if i in t.Ids() {
        var k :| k in t.users && t.users[k].id == i;
        assert t'.users[k].id == i;
      } else {
        assert t'.users[p.login].id == i;
      }
    }
  }

  /** Overwriting a row with one of the same key and id keeps the tables
      valid and the set of ids. */
  lemma ReplaceValid(t: Tables, key: string, u: User)
    requires t.Valid() && key in t.users
    requires u.id == t.users[key].id && u.username == key
    ensures Replace(t, key, u).Valid()
    ensures Replace(t, key, u).Ids() == t.Ids()
  {
    var t' := Replace(t, key, u);
    forall i | i in t.Ids() ensures i in t'.Ids() {
      var k :| k in t.users && t.users[k].id == i;
      assert t'.users[k].id == i;
    }
  }

  /** A resurrected row is active, mirrors the fresh profile, takes its
      `updated_at` and keeps its id, username and `created_at`. */
  lemma RefreshedFields(u: User, p: Profile)
    ensures var r := Refreshed(u, p);
      && r.Active() && Mirrors(r, p) && r.updatedAt == p.updatedAt
      && r.id == u.id && r.username == u.username && r.createdAt == u.createdAt
  {
  }

  /** Resurrection never reintroduces stale cached data: the result depends
      on the old row only through its id, username and `created_at`. */
  lemma RefreshedForgetsStale(u: User, v: User, p: Profile)
    requires u.id == v.id && u.username == v.username && u.createdAt == v.createdAt
    ensures Refreshed(u, p) == Refreshed(v, p)
  {
  }

  /** A friend upsert changes `avatar_url`, `name` and `updated_at` and no
      other column; in particular a soft-deleted friend stays deleted. */
  lemma UpsertedFields(u: User, p: Profile)
    ensures var r := Upserted(u, p);
      && r.avatarUrl == p.avatarUrl && r.name == p.name && r.updatedAt == p.updatedAt
      && r.(avatarUrl := u.avatarUrl, name := u.name, updatedAt := u.updatedAt) == u
      && r.deletedAt == u.deletedAt
  {
  }

  /** Two upserts of the same row: the later profile wins. */
  lemma UpsertedLastWins(u: User, a: Profile, b: Profile)
    ensures Upserted(Upserted(u, a), b) == Upserted(u, b)
  {
  }

  /** Upserting a row with the profile it was inserted from changes nothing. */
  lemma UpsertedNewRow(id: nat, p: Profile)
    ensures Upserted(NewRow(id, p), p) == NewRow(id, p)
  {
  }
}
