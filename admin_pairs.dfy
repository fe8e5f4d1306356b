/**
 * The admin pages for classes: the filtered, paginated list, and the create,
 * update and delete forms. The forms skip the field bounds of the
 * validating model and store an empty link as NULL.
 */
module AdminPairs {
  import opened Wrappers
  import opened Text
  import opened Models
  import opened Store
  import opened Sorting
  import opened PairQueries

  // ------------------------------------------------------------------ query string

  /** A list filter: no filter, or one value. */
  datatype IntFilter = Any | Only(value: int)

  /**
   * A filter from the query string: absent, empty or blank means no
   * filter; otherwise `int()` of the text, and None when that raises.
   */
  function ParseFilter(raw: Option<string>): (r: Option<IntFilter>)
    ensures (raw.None? || Strip(raw.value) == []) ==> r == Some(Any)
    ensures raw.Some? && Strip(raw.value) != [] && AllDigits(Strip(raw.value))
            ==> r == Some(Only(DigitsValue(Strip(raw.value))))
    ensures r != Some(Any) ==> raw.Some? && Strip(raw.value) != []
    ensures raw.Some? && Strip(raw.value) != [] ==>
      && (r.None? <==> ParseInt(raw.value).None?)
      && (r.Some? ==> r.value == Only(ParseInt(raw.value).value))
  {
    if raw.None? || Strip(raw.value) == [] then Some(Any)
    else match ParseInt(raw.value)
      case None => None
      case Some(v) => Some(Only(v))
  }

  /** The decimal text of an id selects exactly that id. */
  lemma ParseFilterOfId(n: nat)
    ensures ParseFilter(Some(NatToString(n))) == Some(Only(n))
  {
    ParseIntOfNatToString(n);
  }

  // ------------------------------------------------------------------ list rows

  /** Shown for a class without any assigned direction. */
  const NO_ASSIGNMENTS: string := "Нет назначений"

  /** A row of the class list: the class, its slot and the names of its directions. */
  datatype Listed = Listed(pair: Pair, startTime: string, endTime: string, slotNumber: int, directions: string)

  /**
   * The direction names the LEFT JOIN groups for one class, in assignment
   * order; an assignment whose direction is missing contributes nothing.
   */
  function DirectionNames(assignments: seq<Assignment>, directions: seq<Direction>, pairId: int): (r: seq<string>)
    ensures |r| <= |assignments|
    ensures r == [] <==> forall i :: 0 <= i < |assignments| ==>
      (assignments[i].pairId == pairId ==> FindDirection(directions, assignments[i].directionId).None?)
  {
    if assignments == [] then []
    else
      var a := assignments[0];
      var d := FindDirection(directions, a.directionId);
      var rest := DirectionNames(assignments[1..], directions, pairId);
      assert forall i :: 1 <= i < |assignments| ==> assignments[i] == assignments[1..][i - 1];
      (if a.pairId == pairId && d.Some? then [d.value.name] else []) + rest
  }

  /** A non-empty piece makes the text it occurs in non-empty. */
  lemma ContainsNonEmpty(s: string, x: string)
    requires Contains(s, x) && x != []
    ensures s != []
  {
    var k: nat :| k <= |s| && OccursAt(s, x, k);
  }

  /**
   * The directions cell: the names joined with ", ", or the no-assignment
   * text when the group yields nothing.
   */
  function DirectionsText(names: seq<string>): (r: string)
    ensures names == [] ==> r == NO_ASSIGNMENTS
    ensures forall i :: 0 <= i < |names| && names[i] != [] ==> Contains(r, names[i])
  {
    var joined := JoinWith(names, ", ");
    forall i | 0 <= i < |names| && names[i] != []
      ensures joined != []
    {
      ContainsNonEmpty(joined, names[i]);
    }
    if joined == [] then NO_ASSIGNMENTS else joined
  }

  function ListedOf(t: Tables, p: Pair, s: Slot): Listed {
    Listed(p, s.startTime, s.endTime, s.slotNumber, DirectionsText(DirectionNames(t.assignments, t.directions, PairId(p))))
  }

  /** Whether `x` is the listed row of its class: the class has a slot and `x` carries its times and directions. */
  predicate JoinedWithSlot(t: Tables, x: Listed) {
    && FindSlot(t.slots, x.pair.timeSlotId).Some?
    && x == ListedOf(t, x.pair, FindSlot(t.slots, x.pair.timeSlotId).value)
  }

  /** The inner join of classes with their slots (a class without a slot is not listed). */
  function JoinedRows(pairs: seq<Pair>, t: Tables): (r: seq<Listed>)
    ensures |r| <= |pairs|
    ensures forall x :: x in r <==> x.pair in pairs && JoinedWithSlot(t, x)
  {
    if pairs == [] then []
    else
      var slot := FindSlot(t.slots, pairs[0].timeSlotId);
      (if slot.Some? then [ListedOf(t, pairs[0], slot.value)] else []) + JoinedRows(pairs[1..], t)
  }

  /** Each class with a slot is listed once per copy in the table; nothing else is listed. */
  lemma {:induction false} JoinedRowsCount(pairs: seq<Pair>, t: Tables)
    ensures forall x :: multiset(JoinedRows(pairs, t))[x] == if JoinedWithSlot(t, x) then multiset(pairs)[x.pair] else 0
  {
    if pairs != [] {
      assert pairs == [pairs[0]] + pairs[1..];
      JoinedRowsCount(pairs[1..], t);
    }
  }

  predicate DaySlotNumberLe(a: Listed, b: Listed) {
    a.pair.dayOfWeek < b.pair.dayOfWeek || (a.pair.dayOfWeek == b.pair.dayOfWeek && a.slotNumber <= b.slotNumber)
  }

  /** Every listable class, ordered by weekday and then by slot number. */
  function AllListed(t: Tables): (r: seq<Listed>)
    ensures SortedBy(r, DaySlotNumberLe)
    ensures forall x :: x in r <==> x.pair in t.pairs && JoinedWithSlot(t, x)
    ensures forall x :: multiset(r)[x] == if JoinedWithSlot(t, x) then multiset(t.pairs)[x.pair] else 0
  {
    var rows := JoinedRows(t.pairs, t);
    assert TotalPreorder(DaySlotNumberLe);
    SortSorted(rows, DaySlotNumberLe);
    JoinedRowsCount(t.pairs, t);
    forall x ensures x in Sort(rows, DaySlotNumberLe) <==> x in rows {
      SortSameElements(rows, DaySlotNumberLe, x);
    }
    Sort(rows, DaySlotNumberLe)
  }

  /**
   * The filters of the list: a direction filter keeps a class with at
   * least one assignment to that direction; a weekday filter keeps the
   * classes of that day.
   */
  predicate Keep(t: Tables, x: Listed, direction: IntFilter, weekday: IntFilter) {
    && (direction.Only? ==> Assigned(t.assignments, PairId(x.pair), direction.value))
    && (weekday.Only? ==> x.pair.dayOfWeek == weekday.value)
  }

  /** The rows the filters keep, in their order. */
  function KeptRows(rows: seq<Listed>, t: Tables, direction: IntFilter, weekday: IntFilter): (r: seq<Listed>)
    ensures |r| <= |rows|
    ensures forall x :: x in r <==> x in rows && Keep(t, x, direction, weekday)
  {
    if rows == [] then []
    else
      var last := rows[|rows| - 1];
      assert rows == rows[..|rows| - 1] + [last];
      KeptRows(rows[..|rows| - 1], t, direction, weekday) + (if Keep(t, last, direction, weekday) then [last] else [])
  }

  /** Filtering keeps each kept row as often as the list holds it, and no other. */
  lemma {:induction false} KeptCount(rows: seq<Listed>, t: Tables, direction: IntFilter, weekday: IntFilter)
    ensures var r := KeptRows(rows, t, direction, weekday);
      forall x :: multiset(r)[x] == if Keep(t, x, direction, weekday) then multiset(rows)[x] else 0
  {
    if rows != [] {
      assert rows == rows[..|rows| - 1] + [rows[|rows| - 1]];
      KeptCount(rows[..|rows| - 1], t, direction, weekday);
    }
  }

  /** Filtering keeps the list's order. */
  lemma {:induction false} KeptSorted(rows: seq<Listed>, t: Tables, direction: IntFilter, weekday: IntFilter)
    requires SortedBy(rows, DaySlotNumberLe)
    ensures SortedBy(KeptRows(rows, t, direction, weekday), DaySlotNumberLe)
  {
    if rows != [] {
      var prefix := rows[..|rows| - 1];
      var last := rows[|rows| - 1];
      KeptSorted(prefix, t, direction, weekday);
      var kp := KeptRows(prefix, t, direction, weekday);
      forall y | y in kp
        ensures DaySlotNumberLe(y, last)
      {
        var j :| 0 <= j < |prefix| && prefix[j] == y;
        assert rows[j] == y;
      }
    }
  }

  /** The filter loop of the list page. */
  method FilterRows(t: Tables, rows: seq<Listed>, direction: IntFilter, weekday: IntFilter) returns (kept: seq<Listed>)
    ensures kept == KeptRows(rows, t, direction, weekday)
  {
    kept := [];
    var i := 0;
    while i < |rows|
      invariant 0 <= i <= |rows|
      invariant kept == KeptRows(rows[..i], t, direction, weekday)
    {
      var row := rows[i];
      assert rows[..i + 1][..i] == rows[..i];
      if Keep(t, row, direction, weekday) {
        kept := kept + [row];
      }
      i := i + 1;
    }
    assert rows[..i] == rows;
  }

  // ------------------------------------------------------------------ pagination

  const PER_PAGE: int := 20

  /** `ceil(n / 20)`: zero pages for an empty list. */
  function TotalPages(n: nat): (r: nat)
    ensures n == 0 ==> r == 0
    ensures n > 0 ==> (r - 1) * PER_PAGE < n <= r * PER_PAGE
  {
    (n + PER_PAGE - 1) / PER_PAGE
  }

  /** A Python slice bound: negative counts from the end, then clamped to the list. */
  function SliceBound(i: int, n: nat): (r: nat)
    ensures r <= n
    ensures 0 <= i <= n ==> r == i
    ensures i > n ==> r == n
    ensures i < 0 && i + n >= 0 ==> r == i + n
    ensures i + n < 0 ==> r == 0
  {
    if i < 0 then (if i + n < 0 then 0 else i + n)
    else if i > n then n
    else i
  }

  /** `s[a:b]` with Python's slice semantics. */
  function PySlice<T>(s: seq<T>, a: int, b: int): (r: seq<T>)
    ensures |r| <= |s|
  {
    var lo := SliceBound(a, |s|);
    var hi := SliceBound(b, |s|);
    if lo >= hi then [] else s[lo..hi]
  }

  /** The rows shown on a page: no clamping of the page number. */
  function PageOf<T>(s: seq<T>, page: int): seq<T> {
    PySlice(s, (page - 1) * PER_PAGE, (page - 1) * PER_PAGE + PER_PAGE)
  }

  /** A page from 1 on shows the 20 rows from index (page - 1) * 20, cut at the end. */
  lemma PageWindow<T>(s: seq<T>, page: int)
    requires page >= 1
    ensures var lo := if (page - 1) * PER_PAGE < |s| then (page - 1) * PER_PAGE else |s|;
      var hi := if page * PER_PAGE < |s| then page * PER_PAGE else |s|;
      PageOf(s, page) == s[lo..hi] && |PageOf(s, page)| <= PER_PAGE
  {
  }

  /** A page from 1 on is non-empty exactly up to the page count. */
  lemma PageNonEmptyIff<T>(s: seq<T>, page: int)
    requires page >= 1
    ensures PageOf(s, page) != [] <==> page <= TotalPages(|s|)
  {
    var n := |s|;
    var k := TotalPages(n);
    if page <= k {
      assert (page - 1) * PER_PAGE <= (k - 1) * PER_PAGE;
    } else {
      assert k * PER_PAGE <= (page - 1) * PER_PAGE;
    }
  }

  /** Every row appears on page `i / 20 + 1`, at position `i % 20`. */
  lemma RowOnItsPage<T>(s: seq<T>, i: int)
    requires 0 <= i < |s|
    ensures var p := PageOf(s, i / PER_PAGE + 1);
      i % PER_PAGE < |p| && p[i % PER_PAGE] == s[i]
  {
    var page := i / PER_PAGE + 1;
    assert (page - 1) * PER_PAGE == i - i % PER_PAGE;
  }

  /** Page 0 is empty. */
  lemma PageZeroEmpty<T>(s: seq<T>)
    ensures PageOf(s, 0) == []
  {
  }

  /** A negative page is not rejected: page -1 shows a window counted from the end. */
  lemma NegativePageFromEnd<T>(s: seq<T>)
    requires |s| >= 40
    ensures PageOf(s, -1) == s[|s| - 40..|s| - 20]
  {
  }

  /** What the list page shows. */
  datatype ListPage = ListPage(rows: seq<Listed>, currentPage: int, totalPages: nat, direction: IntFilter, weekday: IntFilter)

  /**
   * `pairs_list`: None when a filter is not an integer (the handler
   * raises); otherwise the page of the filtered, ordered list.
   */
  method PairsList(db: Database, rawDirection: Option<string>, rawWeekday: Option<string>, page: int)
    returns (r: Option<ListPage>)
    ensures r.None? <==> ParseFilter(rawDirection).None? || ParseFilter(rawWeekday).None?
    ensures r.Some? ==>
      var kept := KeptRows(AllListed(db.tables), db.tables, r.value.direction, r.value.weekday);
      && r.value.direction == ParseFilter(rawDirection).value
      && r.value.weekday == ParseFilter(rawWeekday).value
      && r.value.rows == PageOf(kept, page)
      && r.value.totalPages == TotalPages(|kept|)
      && r.value.currentPage == page
  {
    var direction := ParseFilter(rawDirection);
    if direction.None? {
      return None;
    }
    var weekday := ParseFilter(rawWeekday);
    if weekday.None? {
      return None;
    }
    var t := db.tables;
    var kept := FilterRows(t, AllListed(t), direction.value, weekday.value);
    return Some(ListPage(PageOf(kept, page), page, TotalPages(|kept|), direction.value, weekday.value));
  }

  // ------------------------------------------------------------------ forms

  /** `extra_link if extra_link else None`: an empty link is stored as NULL. */
  function NormalizeLink(link: string): (r: Option<string>)
    ensures r.None? <==> link == []
    ensures r.Some? ==> r.value == link
  {
    if link == [] then None else Some(link)
  }

  /** The class the form describes, without the validating model's bounds. */
  function FormData(title: string, teacher: string, room: string, kind: string,
                    timeSlotId: int, dayOfWeek: int, link: string): (r: PairCreate)
    ensures r.extraLink == NormalizeLink(link)
    ensures r.title == title && r.teacher == teacher && r.room == room && r.kind == kind
    ensures r.timeSlotId == timeSlotId && r.dayOfWeek == dayOfWeek
  {
    PairCreate(title, teacher, room, kind, dayOfWeek, timeSlotId, NormalizeLink(link))
  }

  /** `pair_create`: the class and one assignment per direction, committed together or not at all. */
  method AdminCreatePair(db: Database, title: string, teacher: string, room: string, kind: string,
                         timeSlotId: int, dayOfWeek: int, link: string, directionIds: seq<int>)
    returns (id: Option<int>)
    modifies db
    ensures CreatedPair(old(db.tables), db.tables,
                        FormData(title, teacher, room, kind, timeSlotId, dayOfWeek, link), directionIds, id)
  {
    id := CreatePair(db, FormData(title, teacher, room, kind, timeSlotId, dayOfWeek, link), directionIds);
  }

  /**
   * `pair_update`: overwrites the class, then deletes its assignments and
   * inserts exactly the submitted directions.
   */
  method AdminUpdatePair(db: Database, pairId: int, title: string, teacher: string, room: string, kind: string,
                         timeSlotId: int, dayOfWeek: int, link: string, directionIds: seq<int>)
    returns (ok: bool)
    modifies db
    ensures UpdatedPair(old(db.tables), db.tables, pairId,
                        FormData(title, teacher, room, kind, timeSlotId, dayOfWeek, link), Some(directionIds), ok)
  {
    ok := UpdatePair(db, pairId, FormData(title, teacher, room, kind, timeSlotId, dayOfWeek, link), Some(directionIds));
  }

  /**
   * `pair_delete`: the assignments first, then the class; the end state is
   * the one the cascading delete reaches.
   */
  method AdminDeletePair(db: Database, pairId: int)
    modifies db
    ensures db.tables == old(db.tables).(pairs := WithoutPairRow(old(db.tables.pairs), pairId),
                                         assignments := WithoutPair(old(db.tables.assignments), pairId))
  {
    db.tables := db.tables.(assignments := WithoutPair(db.tables.assignments, pairId));
    db.tables := db.tables.(pairs := WithoutPairRow(db.tables.pairs, pairId));
  }
}
