/** The PATCH statement that `updateUser` assembles: one `column = $n`
    assignment per supplied body field, numbered by a counter, with the
    username bound to the parameter after the last one. */
module UserUpdate {
  import opened Http
  import opened Users

  /** A field of the request body: absent (`undefined`), JSON null, or text. */
  datatype BodyField = Undefined | Null | Text(s: string)

  datatype Column = Location | Blog | Bio

  /** The three updatable fields of the request body. */
  datatype Patch = Patch(location: BodyField, blog: BodyField, bio: BodyField)
  {
    predicate IsEmpty() {
      location.Undefined? && blog.Undefined? && bio.Undefined?
    }

    function Field(c: Column): BodyField {
      match c
      case Location => location
      case Blog => blog
      case Bio => bio
    }
  }

  /** `column = $param` in the SET list. */
  datatype Assignment = Assignment(column: Column, param: nat)

  /** The order in which the handler tests the body fields. */
  function Rank(c: Column): nat {
    match c
    case Location => 0
    case Blog => 1
    case Bio => 2
  }

  /** The value bound to a placeholder: a string or SQL NULL. */
  function SqlValue(f: BodyField): Option<string> {
    match f
    case Text(s) => Some(s)
    case _ => None
  }

  function Columns(assignments: seq<Assignment>): set<Column> {
    set a | a in assignments :: a.column
  }

  /** What the handler's three `if`s and the final push leave behind: the
      supplied columns in location, blog, bio order numbered $1..$k, their
      values at the same positions, and the username at $k+1. */
  ghost predicate Built(patch: Patch, username: string, assignments: seq<Assignment>,
                        values: seq<Option<string>>, counter: nat)
  {
    && counter == |assignments| + 1 && |values| == counter
    && (forall i | 0 <= i < |assignments| :: assignments[i].param == i + 1)
    && (forall i, j | 0 <= i < j < |assignments| :: Rank(assignments[i].column) < Rank(assignments[j].column))
    && (forall c :: c in Columns(assignments) <==> !patch.Field(c).Undefined?)
    && (forall i | 0 <= i < |assignments| :: values[i] == SqlValue(patch.Field(assignments[i].column)))
    && values[counter - 1] == Some(username)
  }

  /** `Built` restricted to the columns tested so far (those of rank below
      `done`), before the username is pushed. */
  ghost predicate Partial(patch: Patch, assignments: seq<Assignment>, values: seq<Option<string>>,
                          counter: nat, done: nat)
  {
    && counter == |assignments| + 1 && |values| == |assignments|
    && (forall i | 0 <= i < |assignments| :: assignments[i].param == i + 1)
    && (forall i, j | 0 <= i < j < |assignments| :: Rank(assignments[i].column) < Rank(assignments[j].column))
    && (forall i | 0 <= i < |assignments| :: Rank(assignments[i].column) < done)
    && (forall c | Rank(c) < done :: c in Columns(assignments) <==> !patch.Field(c).Undefined?)
    && (forall i | 0 <= i < |assignments| :: values[i] == SqlValue(patch.Field(assignments[i].column)))
  }

  /** A supplied column's `if` block appends `column = $counter`, pushes
      the value and bumps the counter: the partial SET list now covers the
      column. */
  lemma PartialPush(patch: Patch, assignments: seq<Assignment>, values: seq<Option<string>>,
                    counter: nat, c: Column)
    requires Partial(patch, assignments, values, counter, Rank(c))
    requires !patch.Field(c).Undefined?
    ensures Partial(patch, assignments + [Assignment(c, counter)], values + [SqlValue(patch.Field(c))],
                    counter + 1, Rank(c) + 1)
  {
    var a' := assignments + [Assignment(c, counter)];
    assert Columns(a') == Columns(assignments) + {c} by {
      forall x | x in Columns(a') ensures x in Columns(assignments) + {c} {
        var b :| b in a' && b.column == x;
      }
      forall x | x in Columns(assignments) ensures x in Columns(a') {
        var b :| b in assignments && b.column == x;
        assert b in a';
      }
    }
  }

  /** An absent column's `if` block does nothing, and the partial SET list
      covers the column all the same. */
  lemma PartialSkip(patch: Patch, assignments: seq<Assignment>, values: seq<Option<string>>,
                    counter: nat, c: Column)
    requires Partial(patch, assignments, values, counter, Rank(c))
    requires patch.Field(c).Undefined?
    ensures Partial(patch, assignments, values, counter, Rank(c) + 1)
  {
  }

  /** Once all three columns are tested, pushing the username completes the
      statement. */
  lemma PartialDone(patch: Patch, username: string, assignments: seq<Assignment>,
                    values: seq<Option<string>>, counter: nat)
    requires Partial(patch, assignments, values, counter, 3)
    ensures Built(patch, username, assignments, values + [Some(username)], counter)
  {
    forall c ensures c in Columns(assignments) <==> !patch.Field(c).Undefined? {
      assert Rank(c) < 3;
    }
  }

  /** One `if (field !== undefined)` block of the handler: a supplied column
      gets the next placeholder and its value is pushed; an absent one is
      skipped. */
  method PushIfSupplied(patch: Patch, c: Column, assignments: seq<Assignment>,
                        values: seq<Option<string>>, counter: nat)
    returns (assignments': seq<Assignment>, values': seq<Option<string>>, counter': nat)
    requires Partial(patch, assignments, values, counter, Rank(c))
    ensures Partial(patch, assignments', values', counter', Rank(c) + 1)
    ensures patch.Field(c).Undefined? ==> assignments' == assignments && values' == values && counter' == counter
    ensures !patch.Field(c).Undefined? ==>
      && assignments' == assignments + [Assignment(c, counter)]
      && values' == values + [SqlValue(patch.Field(c))]
      && counter' == counter + 1
  {
    if patch.Field(c).Undefined? {
      PartialSkip(patch, assignments, values, counter, c);
      return assignments, values, counter;
    }
    PartialPush(patch, assignments, values, counter, c);
    assignments' := assignments + [Assignment(c, counter)];
    values' := values + [SqlValue(patch.Field(c))];
    counter' := counter + 1;
  }

  /** Builds the SET list and the parameter array with a running counter. */
  method BuildUpdate(patch: Patch, username: string)
    returns (assignments: seq<Assignment>, values: seq<Option<string>>, counter: nat)
    ensures Built(patch, username, assignments, values, counter)
  {
    assignments, values, counter := [], [], 1;
    assignments, values, counter := PushIfSupplied(patch, Location, assignments, values, counter);
    assignments, values, counter := PushIfSupplied(patch, Blog, assignments, values, counter);
    assignments, values, counter := PushIfSupplied(patch, Bio, assignments, values, counter);
    PartialDone(patch, username, assignments, values, counter);
    values := values + [Some(username)];
  }

  function Get(u: User, c: Column): Option<string> {
    match c
    case Location => u.location
    case Blog => u.blog
    case Bio => u.bio
  }

  function SetColumn(u: User, c: Column, v: Option<string>): User {
    match c
    case Location => u.(location := v)
    case Blog => u.(blog := v)
    case Bio => u.(bio := v)
  }

  /** Runs `UPDATE users SET <assignments>, updated_at = now` on one row,
      reading each placeholder from the parameter array. */
  function Execute(u: User, assignments: seq<Assignment>, values: seq<Option<string>>, now: int): User
    requires forall a | a in assignments :: 1 <= a.param <= |values|
    decreases |assignments|
  {
    if assignments == [] then u.(updatedAt := now)
    else
      var a := assignments[0];
      Execute(SetColumn(u, a.column, values[a.param - 1]), assignments[1..], values, now)
  }

  /** What the PATCH endpoint promises: the supplied fields take the body's
      values, `updated_at` takes the current time, nothing else changes. */
  function Patched(u: User, patch: Patch, now: int): User {
    u.(location := if patch.location.Undefined? then u.location else SqlValue(patch.location),
       blog := if patch.blog.Undefined? then u.blog else SqlValue(patch.blog),
       bio := if patch.bio.Undefined? then u.bio else SqlValue(patch.bio),
       updatedAt := now)
  }

  /** Executing assignments to distinct columns: an assigned column takes its
      placeholder's value, every other column keeps its value, and only the
      three columns and `updated_at` can differ. */
  lemma {:induction false} ExecuteColumns(u: User, assignments: seq<Assignment>, values: seq<Option<string>>, now: int)
    requires forall a | a in assignments :: 1 <= a.param <= |values|
    requires forall i, j | 0 <= i < j < |assignments| :: assignments[i].column != assignments[j].column
    ensures var e := Execute(u, assignments, values, now);
      && (forall i | 0 <= i < |assignments| :: Get(e, assignments[i].column) == values[assignments[i].param - 1])
      && (forall c | c !in Columns(assignments) :: Get(e, c) == Get(u, c))
      && e.(location := u.location, blog := u.blog, bio := u.bio) == u.(updatedAt := now)
    decreases |assignments|
  {
    if assignments != [] {
      var a := assignments[0];
      var u1 := SetColumn(u, a.column, values[a.param - 1]);
      ExecuteColumns(u1, assignments[1..], values, now);
      assert Columns(assignments) == {a.column} + Columns(assignments[1..]);
      assert a.column !in Columns(assignments[1..]);
    }
  }

  /** The statement the handler builds, executed, performs exactly the
      promised update: placeholders and values line up. */
  lemma ExecuteBuilt(u: User, patch: Patch, username: string, assignments: seq<Assignment>,
                     values: seq<Option<string>>, counter: nat, now: int)
    requires Built(patch, username, assignments, values, counter)
    ensures forall a | a in assignments :: 1 <= a.param <= |values|
    ensures Execute(u, assignments, values, now) == Patched(u, patch, now)
  {
    forall a | a in assignments ensures 1 <= a.param <= |values| {
      var i :| 0 <= i < |assignments| && assignments[i] == a;
    }
    ExecuteColumns(u, assignments, values, now);
    var e := Execute(u, assignments, values, now);
    var p := Patched(u, patch, now);
    forall c ensures Get(e, c) == Get(p, c) {
      PatchedFrame(u, patch, now, c);
      if c in Columns(assignments) {
        var a :| a in assignments && a.column == c;
        var i :| 0 <= i < |assignments| && assignments[i] == a;
        assert Get(e, c) == values[i];
      }
    }
    assert e.location == p.location by { assert Get(e, Location) == Get(p, Location); }
    assert e.blog == p.blog by { assert Get(e, Blog) == Get(p, Blog); }
    assert e.bio == p.bio by { assert Get(e, Bio) == Get(p, Bio); }
  }

  /** A patch changes the supplied columns and `updated_at`, and nothing else. */
  lemma PatchedFrame(u: User, patch: Patch, now: int, c: Column)
    ensures Get(Patched(u, patch, now), c) == if patch.Field(c).Undefined? then Get(u, c) else SqlValue(patch.Field(c))
    ensures Patched(u, patch, now).(location := u.location, blog := u.blog, bio := u.bio, updatedAt := u.updatedAt) == u
  {
  }
}
