/** The friends-resolution part of the user controller: the mutual-follow
    filter and the per-friend upsert loop, as functions on the tables. */
module Friends {
  import opened Http
  import opened GitHub
  import opened Users

  /** `r` can be obtained from `s` by deleting elements (order is kept). */
  ghost predicate SubsequenceOf(r: seq<string>, s: seq<string>)
    decreases |s|
  {
    r == [] || (s != [] && ((r[0] == s[0] && SubsequenceOf(r[1..], s[1..])) || SubsequenceOf(r, s[1..])))
  }

  /** `followers.filter(follower => following.includes(follower))`: the
      logins present in both lists, in followers' order, each as often as it
      occurs among the followers. */
  function Mutual(followers: seq<string>, following: seq<string>): (r: seq<string>)
    ensures forall x :: x in r <==> x in followers && x in following
    ensures SubsequenceOf(r, followers)
    ensures forall x :: multiset(r)[x] == if x in following then multiset(followers)[x] else 0
    decreases |followers|
  {
    if followers == [] then []
    else
      var rest := Mutual(followers[1..], following);
      assert followers == [followers[0]] + followers[1..];
      if followers[0] in following then [followers[0]] + rest else rest
  }

  function FetchedLogins(gh: Client, fs: seq<string>): set<string> {
    set f | f in fs && gh.user(f).Found? :: gh.user(f).value.login
  }

  /** The edges from `uid` to the rows of the friends in `fs` whose profile
      fetch succeeded. */
  function FriendEdges(users: map<string, User>, gh: Client, uid: nat, fs: seq<string>): set<Edge> {
    set f | f in fs && gh.user(f).Found? && gh.user(f).value.login in users
      :: (uid, users[gh.user(f).value.login].id)
  }

  /** The user upsert of one friend, returning the tables and the friend's id
      (`RETURNING id`). */
  function UpsertFriend(t: Tables, p: Profile): (Tables, nat) {
    if p.login in t.users then (Replace(t, p.login, Upserted(t.users[p.login], p)), t.users[p.login].id)
    else (Insert(t, p), t.nextId)
  }

  /** `INSERT INTO friends ... ON CONFLICT DO NOTHING`. */
  function AddEdge(t: Tables, e: Edge): Tables {
    t.(friends := t.friends + {e})
  }

  /** One iteration of the friends loop: fetch the profile; on failure skip
      this friend; otherwise upsert the user and record the edge. */
  function SyncFriend(t: Tables, gh: Client, uid: nat, f: string): Tables {
    match gh.user(f)
    case Found(p) =>
      var (t', fid) := UpsertFriend(t, p);
      AddEdge(t', (uid, fid))
    case _ => t
  }

  /** The whole loop over the mutual list. */
  function SyncFriends(t: Tables, gh: Client, uid: nat, fs: seq<string>): Tables
    decreases |fs|
  {
    if fs == [] then t else SyncFriends(SyncFriend(t, gh, uid, fs[0]), gh, uid, fs[1..])
  }

  /** The response query: active rows reached by an edge from `uid`. */
  function FriendsOf(t: Tables, uid: nat): (r: set<User>)
    ensures forall u :: u in r <==> u in t.users.Values && u.Active() && (uid, u.id) in t.friends
  {
    set k | k in t.users && t.users[k].Active() && (uid, t.users[k].id) in t.friends :: t.users[k]
  }

  /** One iteration touches only the row of the fetched login: an existing
      row is upserted, an absent one inserted from the profile. */
  lemma SyncFriendRows(t: Tables, gh: Client, uid: nat, f: string)
    ensures var r := SyncFriend(t, gh, uid, f);
      && r.users.Keys == t.users.Keys + FetchedLogins(gh, [f])
      && (forall k | k in t.users :: r.users[k].id == t.users[k].id && r.users[k].deletedAt == t.users[k].deletedAt)
      && (forall k | k in t.users && k !in FetchedLogins(gh, [f]) :: r.users[k] == t.users[k])
      && t.friends <= r.friends
      && (forall k | k in t.users ::
            r.users[k].(avatarUrl := t.users[k].avatarUrl, name := t.users[k].name,
                        updatedAt := t.users[k].updatedAt) == t.users[k])
      && (gh.user(f).Found? ==>
            var p := gh.user(f).value;
            r.users[p.login] == if p.login in t.users then Upserted(t.users[p.login], p) else NewRow(t.nextId, p))
  {
    match gh.user(f)
    case Found(p) =>
      assert FetchedLogins(gh, [f]) == {p.login};
    case _ =>
      assert FetchedLogins(gh, [f]) == {};
  }

  /** Rows the loop adds or touches: the logins of fetched friends. Existing
      rows keep their id and lifecycle and every column but `avatar_url`,
      `name` and `updated_at`, rows of other logins are unchanged, and edges
      are only added. */
  lemma {:induction false} SyncFriendsRows(t: Tables, gh: Client, uid: nat, fs: seq<string>)
    ensures var r := SyncFriends(t, gh, uid, fs);
      && r.users.Keys == t.users.Keys + FetchedLogins(gh, fs)
      && (forall k | k in t.users :: r.users[k].id == t.users[k].id && r.users[k].deletedAt == t.users[k].deletedAt)
      && (forall k | k in t.users && k !in FetchedLogins(gh, fs) :: r.users[k] == t.users[k])
      && t.friends <= r.friends
      && (forall k | k in t.users ::
            r.users[k].(avatarUrl := t.users[k].avatarUrl, name := t.users[k].name,
                        updatedAt := t.users[k].updatedAt) == t.users[k])
    decreases |fs|
  {
    if fs != [] {
      var t1 := SyncFriend(t, gh, uid, fs[0]);
      SyncFriendRows(t, gh, uid, fs[0]);
      SyncFriendsRows(t1, gh, uid, fs[1..]);
      assert fs == [fs[0]] + fs[1..];
      assert FetchedLogins(gh, fs) == FetchedLogins(gh, [fs[0]]) + FetchedLogins(gh, fs[1..]);
    }
  }

  /** Every friend whose fetch succeeded ends up with a row and an edge,
      whatever happened to the friends before or after it. */
  lemma {:induction false} SyncFriendsHasEdge(t: Tables, gh: Client, uid: nat, fs: seq<string>, f: string)
    requires f in fs && gh.user(f).Found?
    ensures var r := SyncFriends(t, gh, uid, fs); var login := gh.user(f).value.login;
      login in r.users && (uid, r.users[login].id) in r.friends
    decreases |fs|
  {
    var t1 := SyncFriend(t, gh, uid, fs[0]);
    if f == fs[0] {
      SyncFriendsRows(t1, gh, uid, fs[1..]);
    } else {
      SyncFriendsHasEdge(t1, gh, uid, fs[1..], f);
    }
  }

  /** The edges of a list are those of its head plus those of its tail. */
  lemma FriendEdgesCons(users: map<string, User>, gh: Client, uid: nat, fs: seq<string>)
    requires fs != []
    ensures FriendEdges(users, gh, uid, fs)
         == FriendEdges(users, gh, uid, [fs[0]]) + FriendEdges(users, gh, uid, fs[1..])
  {
    assert fs == [fs[0]] + fs[1..];
  }

  /** One iteration adds the edge to the fetched friend's row, read in any
      later table that keeps the ids of the rows this iteration left. */
  lemma SyncFriendEdge(t: Tables, gh: Client, uid: nat, f: string, users: map<string, User>)
    requires var t1 := SyncFriend(t, gh, uid, f);
      forall k | k in t1.users :: k in users && users[k].id == t1.users[k].id
    ensures SyncFriend(t, gh, uid, f).friends == t.friends + FriendEdges(users, gh, uid, [f])
  {
    match gh.user(f)
    case Found(p) =>
      assert p.login in SyncFriend(t, gh, uid, f).users;
      assert FriendEdges(users, gh, uid, [f]) == {(uid, users[p.login].id)};
    case _ =>
      assert FriendEdges(users, gh, uid, [f]) == {};
  }

  /** The loop adds exactly one edge per fetched friend and nothing else:
      the new edge set is the old one plus (uid, id of each fetched friend). */
  lemma {:induction false} SyncFriendsEdges(t: Tables, gh: Client, uid: nat, fs: seq<string>)
    ensures var r := SyncFriends(t, gh, uid, fs);
      r.friends == t.friends + FriendEdges(r.users, gh, uid, fs)
    decreases |fs|
  {
    if fs != [] {
      var r := SyncFriends(t, gh, uid, fs);
      var t1 := SyncFriend(t, gh, uid, fs[0]);
      assert r == SyncFriends(t1, gh, uid, fs[1..]);
      SyncFriendsEdges(t1, gh, uid, fs[1..]);
      SyncFriendsRows(t1, gh, uid, fs[1..]);
      SyncFriendEdge(t, gh, uid, fs[0], r.users);
      FriendEdgesCons(r.users, gh, uid, fs);
    }
  }

  /** Splitting the list splits the loop. */
  lemma {:induction false} SyncFriendsAppend(t: Tables, gh: Client, uid: nat, a: seq<string>, b: seq<string>)
    ensures SyncFriends(t, gh, uid, a + b) == SyncFriends(SyncFriends(t, gh, uid, a), gh, uid, b)
    decreases |a|
  {
    if a == [] {
      assert a + b == b;
    } else {
      assert (a + b)[0] == a[0] && (a + b)[1..] == a[1..] + b;
      SyncFriendsAppend(SyncFriend(t, gh, uid, a[0]), gh, uid, a[1..], b);
    }
  }

  /** Per-friend isolation: a friend whose profile fetch fails has the same
      effect as if it were not in the list at all. */
  lemma SyncFriendsSkipsFailure(t: Tables, gh: Client, uid: nat, pre: seq<string>, f: string, post: seq<string>)
    requires !gh.user(f).Found?
    ensures SyncFriends(t, gh, uid, pre + [f] + post) == SyncFriends(t, gh, uid, pre + post)
  {
    SyncFriendsAppend(t, gh, uid, pre + [f], post);
    SyncFriendsAppend(t, gh, uid, pre, [f]);
    SyncFriendsAppend(t, gh, uid, pre, post);
    var m := SyncFriends(t, gh, uid, pre);
    assert SyncFriends(m, gh, uid, [f]) == SyncFriends(m, gh, uid, []);
  }

  /** An upsert of a row that a later friend of the list upserts again is
      overwritten: only the last profile for a login matters. */
  lemma {:induction false} SyncFriendsOverwrites(t: Tables, gh: Client, uid: nat, login: string, p: Profile, fs: seq<string>)
    requires login in t.users && login in FetchedLogins(gh, fs)
    ensures SyncFriends(Replace(t, login, Upserted(t.users[login], p)), gh, uid, fs) == SyncFriends(t, gh, uid, fs)
    decreases |fs|
  {
    var t' := Replace(t, login, Upserted(t.users[login], p));
    var g := fs[0];
    assert fs == [g] + fs[1..];
    if gh.user(g).Found? && gh.user(g).value.login == login {
      var q := gh.user(g).value;
      UpsertedLastWins(t.users[login], p, q);
      assert SyncFriend(t', gh, uid, g) == SyncFriend(t, gh, uid, g);
    } else {
      var t1 := SyncFriend(t, gh, uid, g);
      assert login in FetchedLogins(gh, fs[1..]);
      assert SyncFriend(t', gh, uid, g) == Replace(t1, login, Upserted(t1.users[login], p));
      SyncFriendsOverwrites(t1, gh, uid, login, p, fs[1..]);
    }
  }

  /** Running the loop again with the same GitHub data changes nothing: no
      duplicate edges, no row changes (the additive recomputation is a
      fixpoint). */
  lemma {:induction false} SyncFriendsIdempotent(t: Tables, gh: Client, uid: nat, fs: seq<string>)
    ensures SyncFriends(SyncFriends(t, gh, uid, fs), gh, uid, fs) == SyncFriends(t, gh, uid, fs)
    decreases |fs|
  {
    if fs != [] {
      var f, rest := fs[0], fs[1..];
      var t1 := SyncFriend(t, gh, uid, f);
      var s := SyncFriends(t1, gh, uid, rest);
      SyncFriendsIdempotent(t1, gh, uid, rest);
      match gh.user(f)
      case Found(p) =>
        var login := p.login;
        SyncFriendsHasEdge(t, gh, uid, fs, f);
        var s' := Replace(s, login, Upserted(s.users[login], p));
        assert SyncFriend(s, gh, uid, f) == s';
        if login in FetchedLogins(gh, rest) {
          SyncFriendsOverwrites(s, gh, uid, login, p, rest);
        } else {
          SyncFriendsRows(t1, gh, uid, rest);
          assert s.users[login] == t1.users[login];
          if login in t.users {
            UpsertedLastWins(t.users[login], p, p);
          } else {
            UpsertedNewRow(t.nextId, p);
          }
          assert s' == s;
        }
      case _ =>
    }
  }

  /** The loop keeps the tables valid and never loses an id, provided the
      subject's id is an existing row. */
  lemma {:induction false} SyncFriendsValid(t: Tables, gh: Client, uid: nat, fs: seq<string>)
    requires t.Valid() && uid in t.Ids()
    ensures SyncFriends(t, gh, uid, fs).Valid()
    ensures t.Ids() <= SyncFriends(t, gh, uid, fs).Ids()
    decreases |fs|
  {
    if fs != [] {
      var t1 := SyncFriend(t, gh, uid, fs[0]);
      match gh.user(fs[0]) {
      case Found(p) =>
        var (t', fid) := UpsertFriend(t, p);
        if p.login in t.users {
          ReplaceValid(t, p.login, Upserted(t.users[p.login], p));
          assert t.users[p.login].id in t.Ids();
        } else {
          InsertValid(t, p);
        }
        assert fid in t'.Ids();
      case _ =>
      }
      SyncFriendsValid(t1, gh, uid, fs[1..]);
    }
  }
}
