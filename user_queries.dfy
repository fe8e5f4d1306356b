/**
 * Queries and updates on the students table: who is active, the settings
 * update builder, direction changes, registration and removal.
 */
module UserQueries {
  import opened Wrappers
  import opened Timezone
  import opened Models
  import opened Store

  /**
   * A student is active when not paused, or paused until a moment strictly
   * before `now`. A stored pause the clock cannot read counts as still
   * paused.
   */
  predicate IsActive(u: User, now: Instant) {
    match u.pausedUntil
    case None => true
    case Some(Iso(at)) => at < now
    case Some(Unparseable(_)) => false
  }

  /** Students in table order that satisfy `keep`. */
  function Filter(users: seq<User>, keep: User -> bool): (r: seq<User>)
    ensures |r| <= |users|
    ensures forall u :: u in r <==> u in users && keep(u)
  {
    if users == [] then []
    else (if keep(users[0]) then [users[0]] else []) + Filter(users[1..], keep)
  }

  /** The filter keeps each kept row as often as the table holds it, and no other. */
  lemma {:induction false} FilterCount(users: seq<User>, keep: User -> bool)
    ensures forall u :: multiset(Filter(users, keep))[u] == if keep(u) then multiset(users)[u] else 0
  {
    if users != [] {
      assert users == [users[0]] + users[1..];
      FilterCount(users[1..], keep);
    }
  }

  /** `get_active_users`: exactly the active students, each row once. */
  function ActiveUsers(users: seq<User>, now: Instant): (r: seq<User>)
    ensures forall u :: u in r <==> u in users && IsActive(u, now)
    ensures forall u :: multiset(r)[u] == if IsActive(u, now) then multiset(users)[u] else 0
  {
    FilterCount(users, (u: User) => IsActive(u, now));
    Filter(users, (u: User) => IsActive(u, now))
  }

  /**
   * `get_users_by_direction`: the students of a direction, and only the
   * active ones when `activeOnly`.
   */
  function UsersByDirection(users: seq<User>, directionId: int, activeOnly: bool, now: Instant): (r: seq<User>)
    ensures forall u :: u in r <==> u in users && u.directionId == directionId && (activeOnly ==> IsActive(u, now))
    ensures forall u :: multiset(r)[u] == if u.directionId == directionId && (activeOnly ==> IsActive(u, now)) then multiset(users)[u] else 0
  {
    FilterCount(users, (u: User) => u.directionId == directionId && (!activeOnly || IsActive(u, now)));
    Filter(users, (u: User) => u.directionId == directionId && (!activeOnly || IsActive(u, now)))
  }

  /** Filtering keeps the relative order of the rows it keeps: a filter of a prefix is a prefix. */
  lemma {:induction false} FilterConcat(a: seq<User>, b: seq<User>, keep: User -> bool)
    ensures Filter(a + b, keep) == Filter(a, keep) + Filter(b, keep)
  {
    if a != [] {
      assert (a + b)[1..] == a[1..] + b;
      FilterConcat(a[1..], b, keep);
    } else {
      assert a + b == b;
    }
  }

  // ------------------------------------------------------------------ settings

  /** One `SET` item of the settings update. */
  datatype SetItem = SetRemind(remind: bool) | SetPaused(until: Stamp) | SetUpdatedAt(at: Instant)

  /**
   * The `SET` list `update_user_settings` builds: the given fields in
   * order, then the update time; None when neither field is given, in which
   * case no query is issued.
   */
  function SettingsUpdate(remindBefore: Option<bool>, pausedUntil: Option<Stamp>, now: Instant): (r: Option<seq<SetItem>>)
    ensures r.None? <==> remindBefore.None? && pausedUntil.None?
    ensures r.Some? ==> |r.value| >= 2 && r.value[|r.value| - 1] == SetUpdatedAt(now)
    ensures r.Some? ==> ((SetRemind(true) in r.value || SetRemind(false) in r.value) <==> remindBefore.Some?)
    ensures r.Some? ==> ((exists s :: SetPaused(s) in r.value) <==> pausedUntil.Some?)
  {
    var items :=
      (if remindBefore.Some? then [SetRemind(remindBefore.value)] else [])
      + (if pausedUntil.Some? then [SetPaused(pausedUntil.value)] else []);
    if items == [] then None
    else
      var r := items + [SetUpdatedAt(now)];
      assert pausedUntil.Some? ==> SetPaused(pausedUntil.value) in r;
      Some(r)
  }

  /** A student row after a `SET` list. Update times are not part of the model. */
  function Apply(u: User, items: seq<SetItem>): User
    decreases |items|
  {
    if items == [] then u
    else
      var v := match items[0]
        case SetRemind(b) => u.(remindBefore := b)
        case SetPaused(s) => u.(pausedUntil := Some(s))
        case SetUpdatedAt(_) => u;
      Apply(v, items[1..])
  }

  /** The student rows after an UPDATE whose WHERE is `tg_id = tgId`. */
  function UpdateWhere(users: seq<User>, tgId: int, f: User -> User): (r: seq<User>)
    ensures |r| == |users|
    ensures forall i :: 0 <= i < |users| ==> r[i] == if users[i].tgId == tgId then f(users[i]) else users[i]
  {
    seq(|users|, i requires 0 <= i < |users| => if users[i].tgId == tgId then f(users[i]) else users[i])
  }

  /**
   * A settings update changes only the fields it was given: the reminder
   * flag when given, the pause when given, nothing else of the student.
   * In particular a None pause leaves a stored pause in place.
   */
  lemma SettingsUpdateChangesOnlyGiven(u: User, remindBefore: Option<bool>, pausedUntil: Option<Stamp>, now: Instant)
    requires SettingsUpdate(remindBefore, pausedUntil, now).Some?
    ensures var v := Apply(u, SettingsUpdate(remindBefore, pausedUntil, now).value);
      && v.remindBefore == remindBefore.GetOr(u.remindBefore)
      && v.pausedUntil == (if pausedUntil.Some? then pausedUntil else u.pausedUntil)
      && v.id == u.id && v.tgId == u.tgId && v.name == u.name && v.course == u.course
      && v.directionId == u.directionId
  {
    var items := SettingsUpdate(remindBefore, pausedUntil, now).value;
    var tail := [SetUpdatedAt(now)];
    assert Apply(u, []) == u;
    var w := Apply(u, tail);
    assert w == u by { assert tail[1..] == []; }
    if remindBefore.Some? && pausedUntil.Some? {
      var a := u.(remindBefore := remindBefore.value);
      var b := a.(pausedUntil := pausedUntil);
      assert items == [SetRemind(remindBefore.value), SetPaused(pausedUntil.value)] + tail;
      assert items[1..] == [SetPaused(pausedUntil.value)] + tail;
      assert items[1..][1..] == tail;
      assert Apply(u, items) == Apply(a, items[1..]);
      assert Apply(a, items[1..]) == Apply(b, tail);
      assert Apply(b, tail) == b by { assert tail[1..] == []; }
    } else if remindBefore.Some? {
      var a := u.(remindBefore := remindBefore.value);
      assert items == [SetRemind(remindBefore.value)] + tail;
      assert items[1..] == tail;
      assert Apply(u, items) == Apply(a, tail);
      assert Apply(a, tail) == a by { assert tail[1..] == []; }
    } else {
      var b := u.(pausedUntil := pausedUntil);
      assert items == [SetPaused(pausedUntil.value)] + tail;
      assert items[1..] == tail;
      assert Apply(u, items) == Apply(b, tail);
      assert Apply(b, tail) == b by { assert tail[1..] == []; }
    }
  }

  /**
   * `update_user_settings`: false and no write when neither field is
   * given; otherwise every row of that Telegram id gets the given fields,
   * and the result is true whether or not such a row exists.
   */
  method UpdateUserSettings(db: Database, tgId: int, remindBefore: Option<bool>, pausedUntil: Option<Stamp>, now: Instant)
    returns (updated: bool)
    modifies db
    ensures updated <==> SettingsUpdate(remindBefore, pausedUntil, now).Some?
    ensures db.tables == if !updated then old(db.tables)
      else old(db.tables).(users := UpdateWhere(old(db.tables.users), tgId,
                                                 (u: User) => Apply(u, SettingsUpdate(remindBefore, pausedUntil, now).value)))
  {
    var items := SettingsUpdate(remindBefore, pausedUntil, now);
    if items.None? {
      return false;
    }
    db.tables := db.tables.(users := UpdateWhere(db.tables.users, tgId, (u: User) => Apply(u, items.value)));
    return true;
  }

  /** `update_user_direction`: course and direction of that Telegram id's rows; always true. */
  method UpdateUserDirection(db: Database, tgId: int, course: int, directionId: int) returns (ok: bool)
    modifies db
    ensures ok
    ensures db.tables == old(db.tables).(users := UpdateWhere(old(db.tables.users), tgId,
                                                              (u: User) => u.(course := course, directionId := directionId)))
  {
    db.tables := db.tables.(users := UpdateWhere(db.tables.users, tgId, (u: User) => u.(course := course, directionId := directionId)));
    return true;
  }

  /**
   * `create_user`: inserts one row and returns its id; a Telegram id that
   * is already registered violates the UNIQUE constraint, which raises
   * (None) and changes nothing.
   */
  method CreateUser(db: Database, data: UserCreate) returns (id: Option<int>)
    modifies db
    ensures id.None? <==> UserExists(old(db.tables), data.tgId)
    ensures id.None? ==> db.tables == old(db.tables)
    ensures id.Some? ==> (id.value == old(db.tables.nextId)
                          && db.tables == old(db.tables).(users := old(db.tables.users) + [UserOf(id.value, data)],
                                                           nextId := old(db.tables.nextId) + 1))
  {
    var existing := FindUser(db.tables.users, data.tgId);
    if existing.Some? {
      return None;
    }
    var newId := db.tables.nextId;
    db.tables := db.tables.(users := db.tables.users + [UserOf(newId, data)], nextId := newId + 1);
    return Some(newId);
  }

  /** Registering keeps Telegram ids unique and every id below the counter. */
  lemma CreateKeepsValid(t: Tables, data: UserCreate)
    requires Valid(t) && !UserExists(t, data.tgId)
    ensures Valid(t.(users := t.users + [UserOf(t.nextId, data)], nextId := t.nextId + 1))
  {
  }

  /** `delete_user`: removes the rows of that Telegram id; always true. */
  method DeleteUser(db: Database, tgId: int) returns (ok: bool)
    modifies db
    ensures ok
    ensures db.tables == old(db.tables).(users := Filter(old(db.tables.users), (u: User) => u.tgId != tgId))
  {
    db.tables := db.tables.(users := Filter(db.tables.users, (u: User) => u.tgId != tgId));
    return true;
  }

  /** After a delete no row of that Telegram id is left, and every other student is still there. */
  lemma DeleteRemovesOnlyThat(users: seq<User>, tgId: int)
    ensures !exists u :: u in Filter(users, (u: User) => u.tgId != tgId) && u.tgId == tgId
    ensures forall u :: u in users && u.tgId != tgId ==> u in Filter(users, (u: User) => u.tgId != tgId)
  {
  }
}
