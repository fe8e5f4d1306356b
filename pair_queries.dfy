/**
 * Queries and updates on classes ("pairs") and their assignments to
 * directions. Foreign keys are on: an assignment must name an existing
 * class and an existing direction, a class an existing time slot, and an
 * assignment may not be inserted twice. A write that breaks one of these
 * raises; the transaction is then never committed, so the tables stay as
 * they were.
 */
module PairQueries {
  import opened Wrappers
  import opened Models
  import opened Store
  import opened Sorting

  /** A class of the day together with its slot's number, start and end. */
  datatype Scheduled = Scheduled(pair: Pair, slotNumber: int, startTime: string, endTime: string)

  /** The time slot with a given id, if any. */
  function FindSlot(slots: seq<Slot>, id: int): (r: Option<Slot>)
    ensures r.Some? <==> exists i :: 0 <= i < |slots| && slots[i].id == id
    ensures r.Some? ==> r.value in slots && r.value.id == id
  {
    if slots == [] then None
    else if slots[0].id == id then Some(slots[0])
    else FindSlot(slots[1..], id)
  }

  predicate Assigned(assignments: seq<Assignment>, pairId: int, directionId: int) {
    Assignment(pairId, directionId) in assignments
  }

  function ScheduledOf(p: Pair, s: Slot): Scheduled {
    Scheduled(p, s.slotNumber, s.startTime, s.endTime)
  }

  /**
   * Whether `x` is the joined row of its class for that direction and day:
   * the class falls on the day, is assigned to the direction, has a slot,
   * and `x` carries that slot's number and times.
   */
  predicate JoinedOnDay(t: Tables, directionId: int, day: int, x: Scheduled) {
    && x.pair.dayOfWeek == day
    && Assigned(t.assignments, PairId(x.pair), directionId)
    && FindSlot(t.slots, x.pair.timeSlotId).Some?
    && x == ScheduledOf(x.pair, FindSlot(t.slots, x.pair.timeSlotId).value)
  }

  /** The join of classes with their assignment and their slot, in table order. */
  function DayRows(pairs: seq<Pair>, t: Tables, directionId: int, day: int): (r: seq<Scheduled>)
    ensures forall x :: x in r <==> x.pair in pairs && JoinedOnDay(t, directionId, day, x)
  {
    if pairs == [] then []
    else
      var p := pairs[0];
      var slot := FindSlot(t.slots, p.timeSlotId);
      var head := if p.dayOfWeek == day && Assigned(t.assignments, PairId(p), directionId) && slot.Some?
                  then [ScheduledOf(p, slot.value)] else [];
      head + DayRows(pairs[1..], t, directionId, day)
  }

  /** Each class row of the day yields its joined row once per copy in the table; nothing else appears. */
  lemma {:induction false} DayRowsCount(pairs: seq<Pair>, t: Tables, directionId: int, day: int)
    ensures var r := DayRows(pairs, t, directionId, day);
      forall x :: multiset(r)[x] == if JoinedOnDay(t, directionId, day, x) then multiset(pairs)[x.pair] else 0
  {
    if pairs != [] {
      assert pairs == [pairs[0]] + pairs[1..];
      DayRowsCount(pairs[1..], t, directionId, day);
    }
  }

  predicate SlotLe(a: Scheduled, b: Scheduled) { a.slotNumber <= b.slotNumber }

  lemma SlotLePreorder()
    ensures TotalPreorder(SlotLe)
  {
  }

  /**
   * `get_pairs_by_direction_and_day`: exactly the classes of that day
   * assigned to the direction, each with its slot's times, ordered by slot
   * number.
   */
  function PairsForDay(t: Tables, directionId: int, day: int): (r: seq<Scheduled>)
    ensures SortedBy(r, SlotLe)
    ensures forall x :: x in r <==> x.pair in t.pairs && JoinedOnDay(t, directionId, day, x)
    ensures forall x :: multiset(r)[x] == if JoinedOnDay(t, directionId, day, x) then multiset(t.pairs)[x.pair] else 0
  {
    var rows := DayRows(t.pairs, t, directionId, day);
    SlotLePreorder();
    SortSorted(rows, SlotLe);
    DayRowsCount(t.pairs, t, directionId, day);
    forall x ensures x in Sort(rows, SlotLe) <==> x in rows {
      SortSameElements(rows, SlotLe, x);
    }
    Sort(rows, SlotLe)
  }

  predicate DaySlotLe(a: Pair, b: Pair) {
    a.dayOfWeek < b.dayOfWeek || (a.dayOfWeek == b.dayOfWeek && a.timeSlotId <= b.timeSlotId)
  }

  /** `get_all_pairs`: every class, ordered by weekday and then by time slot id. */
  function AllPairs(t: Tables): (r: seq<Pair>)
    ensures multiset(r) == multiset(t.pairs)
    ensures SortedBy(r, DaySlotLe)
  {
    assert TotalPreorder(DaySlotLe);
    SortSorted(t.pairs, DaySlotLe);
    Sort(t.pairs, DaySlotLe)
  }

  /** `get_pair_directions`: the directions a class is assigned to, in table order. */
  function PairDirections(assignments: seq<Assignment>, pairId: int): (r: seq<int>)
    ensures forall d :: d in r <==> Assigned(assignments, pairId, d)
  {
    if assignments == [] then []
    else (if assignments[0].pairId == pairId then [assignments[0].directionId] else [])
         + PairDirections(assignments[1..], pairId)
  }

  // ------------------------------------------------------------------ writes

  /** The assignment rows inserted for a class, one per direction, in order. */
  function AssignAll(pairId: int, directionIds: seq<int>): (r: seq<Assignment>)
    ensures |r| == |directionIds|
    ensures forall k :: 0 <= k < |r| ==> r[k] == Assignment(pairId, directionIds[k])
  {
    seq(|directionIds|, k requires 0 <= k < |directionIds| => Assignment(pairId, directionIds[k]))
  }

  predicate Distinct(s: seq<int>) {
    forall i, j :: 0 <= i < j < |s| ==> s[i] != s[j]
  }

  /**
   * Inserting one assignment row per direction succeeds: the class exists,
   * every direction exists, none is listed twice and none is assigned
   * already.
   */
  predicate AssignableAll(t: Tables, pairId: int, directionIds: seq<int>) {
    && (directionIds != [] ==> PairExists(t, pairId))
    && (forall k :: 0 <= k < |directionIds| ==> DirectionExists(t, directionIds[k]))
    && (forall k :: 0 <= k < |directionIds| ==> !Assigned(t.assignments, pairId, directionIds[k]))
    && Distinct(directionIds)
  }

  /** Whether one assignment insert succeeds against the current tables. */
  function AssignmentInsertable(t: Tables, pairId: int, directionId: int): (ok: bool)
    ensures ok <==> PairExists(t, pairId) && DirectionExists(t, directionId) && !Assigned(t.assignments, pairId, directionId)
  {
    var p := exists i :: 0 <= i < |t.pairs| && t.pairs[i].id == Some(pairId);
    p && FindDirection(t.directions, directionId).Some? && Assignment(pairId, directionId) !in t.assignments
  }

  /**
   * The assignment loop of `create_pair` and `update_pair`: one INSERT per
   * direction, in order. It reports whether every insert succeeded; on
   * success the new rows follow the old ones. After a failure the caller
   * discards the transaction, so the partial state is left unspecified.
   */
  method InsertAssignments(db: Database, pairId: int, directionIds: seq<int>) returns (ok: bool)
    modifies db
    ensures ok <==> AssignableAll(old(db.tables), pairId, directionIds)
    ensures ok ==> db.tables == old(db.tables).(assignments := old(db.tables.assignments) + AssignAll(pairId, directionIds))
  {
    var t0 := db.tables;
    var i := 0;
    while i < |directionIds|
      invariant 0 <= i <= |directionIds|
      invariant AssignableAll(t0, pairId, directionIds[..i])
      invariant db.tables == t0.(assignments := t0.assignments + AssignAll(pairId, directionIds[..i]))
    {
      var d := directionIds[i];
      if !AssignmentInsertable(db.tables, pairId, d) {
        assert !AssignableAll(t0, pairId, directionIds[..i + 1]) by {
          if !PairExists(db.tables, pairId) {
            assert directionIds[..i + 1] != [];
          } else if !DirectionExists(db.tables, d) {
            assert directionIds[..i + 1][i] == d;
          } else if Assignment(pairId, d) in t0.assignments {
            assert directionIds[..i + 1][i] == d;
          } else {
            var pre := AssignAll(pairId, directionIds[..i]);
            assert Assignment(pairId, d) in pre;
            var k :| 0 <= k < |pre| && pre[k] == Assignment(pairId, d);
            assert directionIds[..i + 1][k] == d && directionIds[..i + 1][i] == d;
          }
        }
        AssignableAllPrefix(t0, pairId, directionIds, i + 1);
        return false;
      }
      assert directionIds[..i + 1] == directionIds[..i] + [d];
      assert AssignAll(pairId, directionIds[..i + 1]) == AssignAll(pairId, directionIds[..i]) + [Assignment(pairId, d)];
      db.tables := db.tables.(assignments := db.tables.assignments + [Assignment(pairId, d)]);
      i := i + 1;
    }
    assert directionIds[..i] == directionIds;
    return true;
  }

  /** A list that can be inserted has only insertable prefixes. */
  lemma AssignableAllPrefix(t: Tables, pairId: int, directionIds: seq<int>, n: nat)
    requires n <= |directionIds| && !AssignableAll(t, pairId, directionIds[..n])
    ensures !AssignableAll(t, pairId, directionIds)
  {
    var p := directionIds[..n];
    if AssignableAll(t, pairId, directionIds) {
      assert forall k :: 0 <= k < |p| ==> p[k] == directionIds[k];
    }
  }

  /** Whether the INSERT or UPDATE of a class row passes its constraints. */
  predicate PairStorable(t: Tables, data: PairCreate) {
    0 <= data.dayOfWeek <= 6 && FindSlot(t.slots, data.timeSlotId).Some?
  }

  /**
   * The outcome of creating a class: it succeeds exactly when the class row
   * and every assignment pass their constraints; then the class takes the
   * next id and its assignments follow the old ones, otherwise nothing
   * changes.
   */
  ghost predicate CreatedPair(t: Tables, t2: Tables, data: PairCreate, directionIds: seq<int>, id: Option<int>) {
    var withPair := t.(pairs := t.pairs + [PairOf(t.nextId, data)], nextId := t.nextId + 1);
    && (id.Some? <==> PairStorable(t, data) && AssignableAll(withPair, t.nextId, directionIds))
    && (id.None? ==> t2 == t)
    && (id.Some? ==> id.value == t.nextId
                     && t2 == withPair.(assignments := t.assignments + AssignAll(t.nextId, directionIds)))
  }

  /**
   * `create_pair`: the class row with a fresh id, then one assignment per
   * direction; returns the new id. A violated constraint raises (None) and
   * leaves the tables as they were.
   */
  method CreatePair(db: Database, data: PairCreate, directionIds: seq<int>) returns (id: Option<int>)
    modifies db
    ensures CreatedPair(old(db.tables), db.tables, data, directionIds, id)
  {
    var t := db.tables;
    if !PairStorable(t, data) {
      return None;
    }
    var newId := t.nextId;
    db.tables := t.(pairs := t.pairs + [PairOf(newId, data)], nextId := newId + 1);
    var ok := InsertAssignments(db, newId, directionIds);
    if !ok {
      db.tables := t;
      return None;
    }
    return Some(newId);
  }

  /** The class rows after the UPDATE of one id: the new data, the id kept. */
  function UpdatedPairs(pairs: seq<Pair>, pairId: int, data: PairCreate): (r: seq<Pair>)
    ensures |r| == |pairs|
    ensures forall i :: 0 <= i < |pairs| ==> r[i] == if pairs[i].id == Some(pairId) then PairOf(pairId, data) else pairs[i]
  {
    seq(|pairs|, i requires 0 <= i < |pairs| => if pairs[i].id == Some(pairId) then PairOf(pairId, data) else pairs[i])
  }

  /** Assignment rows with those of one class removed. */
  function WithoutPair(assignments: seq<Assignment>, pairId: int): (r: seq<Assignment>)
    ensures forall a :: a in r <==> a in assignments && a.pairId != pairId
  {
    if assignments == [] then []
    else (if assignments[0].pairId != pairId then [assignments[0]] else []) + WithoutPair(assignments[1..], pairId)
  }

  /**
   * The outcome of updating a class: the row is overwritten, and when a
   * list is given the class's assignments become that list; it fails, and
   * nothing changes, when an existing row breaks its constraints or an
   * assignment cannot be inserted.
   */
  ghost predicate UpdatedPair(t: Tables, t2: Tables, pairId: int, data: PairCreate, directionIds: Option<seq<int>>, ok: bool) {
    var updated := t.(pairs := UpdatedPairs(t.pairs, pairId, data));
    var cleared := updated.(assignments := WithoutPair(t.assignments, pairId));
    && (ok <==> (PairExists(t, pairId) ==> PairStorable(t, data))
                && (directionIds.Some? ==> AssignableAll(cleared, pairId, directionIds.value)))
    && (!ok ==> t2 == t)
    && (ok && directionIds.None? ==> t2 == updated)
    && (ok && directionIds.Some? ==>
          t2 == cleared.(assignments := cleared.assignments + AssignAll(pairId, directionIds.value)))
  }

  /**
   * `update_pair`: overwrites the class row (no row when the id is unknown;
   * the constraints are then not checked), and, when a list is given,
   * replaces its assignments by exactly that list. The result is true
   * whether or not the id exists; a violated constraint raises (false) and
   * leaves the tables as they were.
   */
  method UpdatePair(db: Database, pairId: int, data: PairCreate, directionIds: Option<seq<int>>) returns (ok: bool)
    modifies db
    ensures UpdatedPair(old(db.tables), db.tables, pairId, data, directionIds, ok)
  {
    var t := db.tables;
    var exists_ := exists i :: 0 <= i < |t.pairs| && t.pairs[i].id == Some(pairId);
    if exists_ && !PairStorable(t, data) {
      return false;
    }
    db.tables := t.(pairs := UpdatedPairs(t.pairs, pairId, data));
    if directionIds.Some? {
      db.tables := db.tables.(assignments := WithoutPair(t.assignments, pairId));
      var inserted := InsertAssignments(db, pairId, directionIds.value);
      if !inserted {
        db.tables := t;
        return false;
      }
    }
    return true;
  }

  /** Class rows with one id removed. */
  function WithoutPairRow(pairs: seq<Pair>, pairId: int): (r: seq<Pair>)
    ensures forall p :: p in r <==> p in pairs && p.id != Some(pairId)
  {
    if pairs == [] then []
    else (if pairs[0].id != Some(pairId) then [pairs[0]] else []) + WithoutPairRow(pairs[1..], pairId)
  }

  /**
   * `delete_pair`: removes the class row; ON DELETE CASCADE removes its
   * assignments. True whether or not the id existed.
   */
  method DeletePair(db: Database, pairId: int) returns (ok: bool)
    modifies db
    ensures ok
    ensures db.tables == old(db.tables).(pairs := WithoutPairRow(old(db.tables.pairs), pairId),
                                         assignments := WithoutPair(old(db.tables.assignments), pairId))
  {
    db.tables := db.tables.(pairs := WithoutPairRow(db.tables.pairs, pairId),
                            assignments := WithoutPair(db.tables.assignments, pairId));
    return true;
  }

  /**
   * After a class is updated with a list of directions, the directions it is
   * assigned to are exactly that list.
   */
  lemma {:induction false} ReplacedAssignmentsExact(assignments: seq<Assignment>, pairId: int, directionIds: seq<int>)
    ensures forall d :: d in PairDirections(WithoutPair(assignments, pairId) + AssignAll(pairId, directionIds), pairId)
                        <==> d in directionIds
  {
    var all := WithoutPair(assignments, pairId) + AssignAll(pairId, directionIds);
    forall d
      ensures d in PairDirections(all, pairId) <==> d in directionIds
    {
      if d in directionIds {
        var k :| 0 <= k < |directionIds| && directionIds[k] == d;
        assert all[|WithoutPair(assignments, pairId)| + k] == Assignment(pairId, d);
      }
      if Assigned(all, pairId, d) {
        if Assignment(pairId, d) in AssignAll(pairId, directionIds) {
          var k :| 0 <= k < |directionIds| && AssignAll(pairId, directionIds)[k] == Assignment(pairId, d);
        }
      }
    }
  }

  /** After a delete the class is gone and no assignment refers to it. */
  lemma DeleteLeavesNothing(t: Tables, pairId: int)
    ensures !PairExists(t.(pairs := WithoutPairRow(t.pairs, pairId)), pairId)
    ensures forall d :: !Assigned(WithoutPair(t.assignments, pairId), pairId, d)
  {
    var ps := WithoutPairRow(t.pairs, pairId);
    forall i | 0 <= i < |ps|
      ensures ps[i].id != Some(pairId)
    {
      assert ps[i] in ps;
    }
  }
}
