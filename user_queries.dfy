/** The read-only handlers of the user controller: `searchUsers` and
    `getSortedUsers`. Both answer from the active rows only. */
module UserQueries {
  import opened Http
  import opened Users
  import opened Text

  /** A query-string parameter as the request parser hands it over: absent,
      one string, or a repeated key (an array of strings). */
  datatype Param = Absent | One(s: string) | Many(items: seq<string>)

  /** The parameter's `toString()`, or `default` when it is absent. */
  function ParamText(p: Param, default: string): string {
    match p
    case Absent => default
    case One(s) => s
    case Many(items) => Join(items, ",")
  }

  // ---------------------------------------------------------------------
  // searchUsers

  /** `column ILIKE '%q%'`: case-insensitive substring. */
  predicate ILike(column: string, q: string) {
    Contains(Lower(column), Lower(q))
  }

  /** A NULL column matches nothing. */
  predicate ILikeNullable(column: Option<string>, q: string) {
    column.Some? && ILike(column.value, q)
  }

  predicate Matches(u: User, q: string) {
    ILike(u.username, q) || ILikeNullable(u.location, q) || ILikeNullable(u.name, q)
      || ILikeNullable(u.company, q)
  }

  /** 400 unless the query is one non-empty string; otherwise the active rows
      whose username, location, name or company contains it, ignoring case. */
  function SearchUsers(t: Tables, query: Param): (r: Response<set<User>>)
    ensures r.Fail? <==> !query.One? || query.s == ""
    ensures r.Fail? ==> r == Fail(BadRequest, "Valid search query is required")
    ensures r.Ok? ==> forall u :: u in r.body <==> u in t.users.Values && u.Active() && Matches(u, query.s)
  {
    if !query.One? || query.s == "" then Fail(BadRequest, "Valid search query is required")
    else Ok(set u | u in t.ActiveRows() && Matches(u, query.s))
  }

  /** The search ignores case: queries that lower to the same text give the
      same answer. */
  lemma SearchIgnoresCase(t: Tables, q1: string, q2: string)
    requires Lower(q1) == Lower(q2)
    ensures SearchUsers(t, One(q1)) == SearchUsers(t, One(q2))
  {
    assert |q1| == |Lower(q1)| == |Lower(q2)| == |q2|;
    if q1 != "" {
      var a, b := SearchUsers(t, One(q1)).body, SearchUsers(t, One(q2)).body;
      forall u ensures u in a <==> u in b {
        assert Matches(u, q1) == Matches(u, q2);
      }
      assert a == b;
    }
  }

  /** A username hit means the lowered query occurs at some position of the
      lowered username. */
  lemma UsernameHitOccurs(u: User, q: string)
    ensures ILike(u.username, q) <==> exists i :: OccursAt(Lower(u.username), Lower(q), i)
  {
    ContainsIff(Lower(u.username), Lower(q));
  }

  // ---------------------------------------------------------------------
  // getSortedUsers

  const AllowedSortFields: seq<string> :=
    ["public_repos", "public_gists", "followers", "following", "created_at", "username"]

  const AllowedOrders: seq<string> := ["ASC", "DESC"]

  /** Every ORDER BY text the handler can interpolate into its query. */
  function OrderClauses(): set<string> {
    set f, o | f in AllowedSortFields && o in AllowedOrders :: f + " " + o
  }

  /** The answer: the ORDER BY text sent to the database, and the rows. */
  datatype Listing = Listing(orderBy: string, rows: set<User>)

  /** `sort_by` (default `username`) lower-cased and `order` (default `ASC`)
      upper-cased must be in their allow-lists, the field checked first;
      otherwise 400 before any query. */
  function GetSortedUsers(t: Tables, sortBy: Param, order: Param): (r: Response<Listing>)
    ensures r.Ok? <==> Lower(ParamText(sortBy, "username")) in AllowedSortFields
                       && Upper(ParamText(order, "ASC")) in AllowedOrders
    ensures r.Ok? ==> r.body.orderBy in OrderClauses()
    ensures r.Ok? ==> r.body.orderBy == Lower(ParamText(sortBy, "username")) + " " + Upper(ParamText(order, "ASC"))
    ensures r.Ok? ==> r.body.rows == t.ActiveRows()
    ensures r.Fail? ==> r.status == BadRequest
  {
    var field := Lower(ParamText(sortBy, "username"));
    var direction := Upper(ParamText(order, "ASC"));
    if field !in AllowedSortFields then Fail(BadRequest, "Invalid sort field")
    else if direction !in AllowedOrders then Fail(BadRequest, "Invalid sort order")
    else Ok(Listing(field + " " + direction, t.ActiveRows()))
  }

  /** Without parameters the listing is by username, ascending. */
  lemma SortDefaults(t: Tables)
    ensures GetSortedUsers(t, Absent, Absent) == Ok(Listing("username ASC", t.ActiveRows()))
  {
    assert Lower("username") == "username";
    assert Upper("ASC") == "ASC";
    assert "username" in AllowedSortFields && "ASC" in AllowedOrders;
    assert "username" + " " + "ASC" == "username ASC";
  }

  /** The parameters are case-insensitive: any spelling of an allowed field
      and an allowed order is accepted and folded into the ORDER BY text. */
  lemma SortFoldsCase(t: Tables, f: string, o: string)
    requires Lower(f) in AllowedSortFields && Upper(o) in AllowedOrders
    ensures GetSortedUsers(t, One(f), One(o)) == Ok(Listing(Lower(f) + " " + Upper(o), t.ActiveRows()))
  {
  }

  /** For example, `Followers` and `desc` sort by followers, descending. */
  lemma SortFoldsCaseExample(t: Tables)
    ensures GetSortedUsers(t, One("Followers"), One("desc")) == Ok(Listing("followers DESC", t.ActiveRows()))
  {
    assert Lower("Followers") == "followers";
    assert Upper("desc") == "DESC";
    assert "followers" in AllowedSortFields && "DESC" in AllowedOrders;
    assert "followers" + " " + "DESC" == "followers DESC";
  }

  /** A field outside the allow-list is refused, whatever the order. */
  lemma SortRejectsUnknownField(t: Tables, f: string, order: Param)
    requires Lower(f) !in AllowedSortFields
    ensures GetSortedUsers(t, One(f), order) == Fail(BadRequest, "Invalid sort field")
  {
  }

  /** An allowed field with an order other than ASC or DESC, in any case, is
      refused with the order error. */
  lemma SortRejectsUnknownOrder(t: Tables, f: string, o: string)
    requires Lower(f) in AllowedSortFields && Upper(o) !in AllowedOrders
    ensures GetSortedUsers(t, One(f), One(o)) == Fail(BadRequest, "Invalid sort order")
  {
  }

  /** A repeated `sort_by` key is joined with commas and never accepted. */
  lemma SortRejectsRepeatedField(t: Tables, items: seq<string>, order: Param)
    requires |items| >= 2
    ensures GetSortedUsers(t, Many(items), order) == Fail(BadRequest, "Invalid sort field")
  {
    var text := Join(items, ",");
    JoinHasSeparator(items, ',');
    var i :| 0 <= i < |text| && text[i] == ',';
    assert Lower(text)[i] == ',';
    forall f | f in AllowedSortFields ensures ',' !in f {
    }
  }

  /** Search answers a subset of the default listing. */
  lemma SearchWithinListing(t: Tables, q: string)
    requires q != ""
    ensures var listing := GetSortedUsers(t, Absent, Absent);
      listing.Ok? && SearchUsers(t, One(q)).body <= listing.body.rows
  {
    SortDefaults(t);
  }
}
