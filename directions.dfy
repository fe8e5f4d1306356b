/**
 * The admin pages for study directions: the list with its optional course
 * filter, creation (whose failures are logged and swallowed), and the
 * guarded delete that refuses while students still belong to the
 * direction.
 */
module AdminDirections {
  import opened Wrappers
  import opened Text
  import opened Models
  import opened Store
  import opened Sorting

  // ------------------------------------------------------------------ list

  /**
   * The `course` query parameter: a missing or blank value is no filter;
   * anything else goes through `int()`, whose ValueError (None) ends the
   * request.
   */
  function ParseCourseParam(course: Option<string>): (r: Option<Option<int>>)
    ensures course.None? || AllSpace(course.value) ==> r == Some(None)
    ensures course.Some? && !AllSpace(course.value) ==>
      (r.Some? <==> ParseInt(course.value).Some?) && (r.Some? ==> r.value == ParseInt(course.value))
  {
    if course.None? || course.value == [] || Strip(course.value) == [] then Some(None)
    else match ParseInt(course.value)
      case None => None
      case Some(n) => Some(Some(n))
  }

  /** One row of the list: the direction and how many students belong to it. */
  datatype DirectionRow = DirectionRow(direction: Direction, userCount: nat)

  /** `SELECT COUNT(*) FROM users WHERE direction_id = ?`. */
  function UsersIn(users: seq<User>, directionId: int): (n: nat)
    ensures n <= |users|
    ensures n == 0 <==> forall i :: 0 <= i < |users| ==> users[i].directionId != directionId
  {
    if users == [] then 0
    else (if users[0].directionId == directionId then 1 else 0) + UsersIn(users[1..], directionId)
  }

  /** The directions a filter keeps: all of them unless the course is given and not zero. */
  predicate InCourse(d: Direction, courseInt: Option<int>) {
    courseInt.Some? && courseInt.value != 0 ==> d.course == courseInt.value
  }

  /** The rows of the kept directions, in table order. */
  function Rows(t: Tables, directions: seq<Direction>, courseInt: Option<int>): (r: seq<DirectionRow>)
    ensures |r| <= |directions|
    ensures forall x :: x in r <==> x.direction in directions && InCourse(x.direction, courseInt)
                                    && x.userCount == UsersIn(t.users, DirectionId(x.direction))
  {
    if directions == [] then []
    else
      var d := directions[0];
      var rest := Rows(t, directions[1..], courseInt);
      assert forall e :: e in directions <==> e == d || e in directions[1..];
      (if InCourse(d, courseInt) then [DirectionRow(d, UsersIn(t.users, DirectionId(d)))] else []) + rest
  }

  /** Whether `x` is the row of a kept direction with its number of students. */
  predicate ShownRow(t: Tables, courseInt: Option<int>, x: DirectionRow) {
    InCourse(x.direction, courseInt) && x.userCount == UsersIn(t.users, DirectionId(x.direction))
  }

  /** A kept direction is listed once per copy in the table, with its count; nothing else is listed. */
  lemma {:induction false} RowsCount(t: Tables, directions: seq<Direction>, courseInt: Option<int>)
    ensures var r := Rows(t, directions, courseInt);
      forall x :: multiset(r)[x] == if ShownRow(t, courseInt, x) then multiset(directions)[x.direction] else 0
  {
    if directions != [] {
      assert directions == [directions[0]] + directions[1..];
      RowsCount(t, directions[1..], courseInt);
    }
  }

  /** `ORDER BY d.course, d.name`. */
  predicate CourseNameLe(x: DirectionRow, y: DirectionRow) {
    x.direction.course < y.direction.course
    || (x.direction.course == y.direction.course && LexLe(x.direction.name, y.direction.name))
  }

  lemma CourseNameLeOrders()
    ensures TotalPreorder(CourseNameLe)
  {
    forall x: DirectionRow, y: DirectionRow
      ensures CourseNameLe(x, y) || CourseNameLe(y, x)
    {
      LexLeTotal(x.direction.name, y.direction.name);
    }
    forall x: DirectionRow, y: DirectionRow, z: DirectionRow | CourseNameLe(x, y) && CourseNameLe(y, z)
      ensures CourseNameLe(x, z)
    {
      if x.direction.course == y.direction.course == z.direction.course {
        LexLeTrans(x.direction.name, y.direction.name, z.direction.name);
      }
    }
  }

  /** `directions_list` for a parsed filter. */
  function DirectionsList(t: Tables, courseInt: Option<int>): seq<DirectionRow> {
    Sort(Rows(t, t.directions, courseInt), CourseNameLe)
  }

  /**
   * The list holds exactly the directions of the course asked for (all of
   * them without a filter or with course 0), each with its number of
   * students, ordered by course and then name.
   */
  lemma DirectionsListShows(t: Tables, courseInt: Option<int>)
    ensures SortedBy(DirectionsList(t, courseInt), CourseNameLe)
    ensures forall x :: x in DirectionsList(t, courseInt) <==>
      x.direction in t.directions && InCourse(x.direction, courseInt)
      && x.userCount == UsersIn(t.users, DirectionId(x.direction))
    ensures forall x :: multiset(DirectionsList(t, courseInt))[x] == if ShownRow(t, courseInt, x) then multiset(t.directions)[x.direction] else 0
  {
    var rows := Rows(t, t.directions, courseInt);
    CourseNameLeOrders();
    SortSorted(rows, CourseNameLe);
    RowsCount(t, t.directions, courseInt);
    forall x
      ensures x in DirectionsList(t, courseInt) <==> x in rows
    {
      SortSameElements(rows, CourseNameLe, x);
    }
  }

  // ------------------------------------------------------------------ create

  /** Some direction already has this name in this course. */
  predicate Taken(directions: seq<Direction>, name: string, course: int) {
    exists i :: 0 <= i < |directions| && directions[i].name == name && directions[i].course == course
  }

  /** The table constraints: UNIQUE(name, course) and the course CHECK. */
  predicate InsertAllowed(directions: seq<Direction>, name: string, course: int) {
    !Taken(directions, name, course) && 1 <= course <= 4
  }

  /** No two directions share a name within a course. */
  predicate UniqueNames(directions: seq<Direction>) {
    forall i, j :: 0 <= i < j < |directions| ==>
      directions[i].name != directions[j].name || directions[i].course != directions[j].course
  }

  /**
   * `direction_create`: the INSERT succeeds unless a constraint rejects
   * it, and then the error is swallowed; either way the route redirects
   * to the list, so the return value only says whether a row was added.
   */
  method DirectionCreate(db: Database, name: string, course: int) returns (added: bool)
    modifies db
    ensures added <==> InsertAllowed(old(db.tables.directions), name, course)
    ensures !added ==> db.tables == old(db.tables)
    ensures added ==> db.tables == old(db.tables).(
      directions := old(db.tables.directions) + [Direction(Some(old(db.tables.nextId)), name, course)],
      nextId := old(db.tables.nextId) + 1)
  {
    added := false;
    var i := 0;
    while i < |db.tables.directions|
      invariant 0 <= i <= |db.tables.directions|
      invariant !Taken(db.tables.directions[..i], name, course)
      invariant db.tables == old(db.tables)
    {
      var d := db.tables.directions[i];
      if d.name == name && d.course == course {
        assert Taken(db.tables.directions, name, course);
        return;
      }
      assert db.tables.directions[..i + 1] == db.tables.directions[..i] + [d];
      i := i + 1;
    }
    assert db.tables.directions[..i] == db.tables.directions;
    if !(1 <= course <= 4) {
      return;
    }
    var id := db.tables.nextId;
    db.tables := db.tables.(directions := db.tables.directions + [Direction(Some(id), name, course)], nextId := id + 1);
    added := true;
  }

  /** Creating keeps names unique within a course: a duplicate is the very insert the constraint refuses. */
  lemma CreateKeepsNamesUnique(directions: seq<Direction>, d: Direction)
    requires UniqueNames(directions) && !Taken(directions, d.name, d.course)
    ensures UniqueNames(directions + [d])
  {
    var r := directions + [d];
    forall i, j | 0 <= i < j < |r|
      ensures r[i].name != r[j].name || r[i].course != r[j].course
    {
      if j == |directions| {
        assert r[i] == directions[i];
      }
    }
  }

  // ------------------------------------------------------------------ delete

  function WithoutDirection(directions: seq<Direction>, id: int): (r: seq<Direction>)
    ensures |r| <= |directions|
    ensures forall d :: d in r <==> d in directions && d.id != Some(id)
  {
    if directions == [] then []
    else
      var rest := WithoutDirection(directions[1..], id);
      assert forall e :: e in directions <==> e == directions[0] || e in directions[1..];
      (if directions[0].id != Some(id) then [directions[0]] else []) + rest
  }

  function WithoutAssignmentsOf(assignments: seq<Assignment>, directionId: int): (r: seq<Assignment>)
    ensures |r| <= |assignments|
    ensures forall a :: a in r <==> a in assignments && a.directionId != directionId
  {
    if assignments == [] then []
    else
      var rest := WithoutAssignmentsOf(assignments[1..], directionId);
      assert forall e :: e in assignments <==> e == assignments[0] || e in assignments[1..];
      (if assignments[0].directionId != directionId then [assignments[0]] else []) + rest
  }

  /**
   * `direction_delete`: while any student belongs to the direction nothing
   * changes; otherwise its class assignments go first, then the direction.
   */
  method DirectionDelete(db: Database, directionId: int) returns (deleted: bool)
    modifies db
    ensures deleted <==> UsersIn(old(db.tables.users), directionId) == 0
    ensures !deleted ==> db.tables == old(db.tables)
    ensures deleted ==> db.tables == old(db.tables).(
      assignments := WithoutAssignmentsOf(old(db.tables.assignments), directionId),
      directions := WithoutDirection(old(db.tables.directions), directionId))
  {
    var userCount := UsersIn(db.tables.users, directionId);
    if userCount > 0 {
      return false;
    }
    db.tables := db.tables.(assignments := WithoutAssignmentsOf(db.tables.assignments, directionId));
    db.tables := db.tables.(directions := WithoutDirection(db.tables.directions, directionId));
    return true;
  }

  /**
   * The guard protects students: a delete never leaves a student pointing
   * at a direction it removed, and after it no class is assigned to the
   * removed direction while every other direction and assignment stays.
   */
  lemma DeleteLeavesNoOrphans(t: Tables, directionId: int)
    requires UsersIn(t.users, directionId) == 0
    ensures forall u :: u in t.users ==> u.directionId != directionId
    ensures forall a :: a in WithoutAssignmentsOf(t.assignments, directionId) ==> a.directionId != directionId
    ensures forall d :: d in t.directions && d.id != Some(directionId) ==> d in WithoutDirection(t.directions, directionId)
    ensures forall a :: a in t.assignments && a.directionId != directionId ==> a in WithoutAssignmentsOf(t.assignments, directionId)
  {
    forall u | u in t.users
      ensures u.directionId != directionId
    {
      var i :| 0 <= i < |t.users| && t.users[i] == u;
    }
  }
}
