/**
 * The validated records of the schedule: classes ("pairs"), students and
 * study directions. Each record comes with the field bounds its validating
 * model enforces and a smart constructor that fills in the defaults and
 * fails exactly when a bound is violated.
 */
module Models {
  import opened Wrappers
  import opened Timezone

  /** Default class type, "lecture". */
  const DEFAULT_PAIR_TYPE: string := "Лекция"

  predicate LengthIn(s: string, lo: nat, hi: nat) { lo <= |s| <= hi }

  // ------------------------------------------------------------------ pairs

  /** A class as stored: `id` is None until the row exists. */
  datatype Pair = Pair(
    id: Option<int>, title: string, teacher: string, room: string, kind: string,
    dayOfWeek: int, timeSlotId: int, extraLink: Option<string>)

  /** The data needed to create or update a class. */
  datatype PairCreate = PairCreate(
    title: string, teacher: string, room: string, kind: string,
    dayOfWeek: int, timeSlotId: int, extraLink: Option<string>)

  predicate PairFieldsValid(title: string, teacher: string, room: string, dayOfWeek: int) {
    LengthIn(title, 1, 200) && LengthIn(teacher, 1, 200) && LengthIn(room, 1, 50) && 0 <= dayOfWeek <= 6
  }

  predicate ValidPair(p: Pair) { PairFieldsValid(p.title, p.teacher, p.room, p.dayOfWeek) }

  predicate ValidPairCreate(p: PairCreate) { PairFieldsValid(p.title, p.teacher, p.room, p.dayOfWeek) }

  /**
   * Building a `PairCreate`: the type defaults to a lecture and the link to
   * None; a validation error (None) exactly when a bound is violated.
   */
  function MakePairCreate(
    title: string, teacher: string, room: string, kind: Option<string>,
    dayOfWeek: int, timeSlotId: int, extraLink: Option<string>): (r: Option<PairCreate>)
    ensures r.Some? <==> PairFieldsValid(title, teacher, room, dayOfWeek)
    ensures r.Some? ==> ValidPairCreate(r.value)
    ensures r.Some? ==> r.value.kind == (if kind.Some? then kind.value else DEFAULT_PAIR_TYPE)
    ensures r.Some? ==> (r.value.title == title && r.value.teacher == teacher && r.value.room == room
                         && r.value.dayOfWeek == dayOfWeek && r.value.timeSlotId == timeSlotId
                         && r.value.extraLink == extraLink)
  {
    if PairFieldsValid(title, teacher, room, dayOfWeek) then
      Some(PairCreate(title, teacher, room, kind.GetOr(DEFAULT_PAIR_TYPE), dayOfWeek, timeSlotId, extraLink))
    else None
  }

  /** The stored class a `PairCreate` becomes once it has an id. */
  function PairOf(id: int, p: PairCreate): (r: Pair)
    ensures r.id == Some(id)
    ensures r.title == p.title && r.teacher == p.teacher && r.room == p.room && r.kind == p.kind
    ensures r.dayOfWeek == p.dayOfWeek && r.timeSlotId == p.timeSlotId && r.extraLink == p.extraLink
    ensures ValidPairCreate(p) <==> ValidPair(r)
  {
    Pair(Some(id), p.title, p.teacher, p.room, p.kind, p.dayOfWeek, p.timeSlotId, p.extraLink)
  }

  // ------------------------------------------------------------------ users

  /** A registered student. */
  datatype User = User(
    id: Option<int>, tgId: int, name: string, course: int, directionId: int,
    remindBefore: bool, pausedUntil: Option<Stamp>)

  /** The data needed to register a student. */
  datatype UserCreate = UserCreate(tgId: int, name: string, course: int, directionId: int, remindBefore: bool)

  predicate UserFieldsValid(name: string, course: int) { LengthIn(name, 1, 100) && 1 <= course <= 4 }

  predicate ValidUser(u: User) { UserFieldsValid(u.name, u.course) }

  predicate ValidUserCreate(u: UserCreate) { UserFieldsValid(u.name, u.course) }

  /** Building a `UserCreate`: reminders default to on; None exactly when a bound is violated. */
  function MakeUserCreate(tgId: int, name: string, course: int, directionId: int, remindBefore: Option<bool>): (r: Option<UserCreate>)
    ensures r.Some? <==> UserFieldsValid(name, course)
    ensures r.Some? ==> r.value.remindBefore == (remindBefore != Some(false))
    ensures r.Some? ==> (r.value.tgId == tgId && r.value.name == name && r.value.course == course
                         && r.value.directionId == directionId)
  {
    if UserFieldsValid(name, course) then
      Some(UserCreate(tgId, name, course, directionId, remindBefore.GetOr(true)))
    else None
  }

  /** The stored student a `UserCreate` becomes: not paused, with the given id. */
  function UserOf(id: int, u: UserCreate): (r: User)
    ensures r.id == Some(id) && r.pausedUntil.None?
    ensures r.tgId == u.tgId && r.name == u.name && r.course == u.course
    ensures r.directionId == u.directionId && r.remindBefore == u.remindBefore
    ensures ValidUserCreate(u) <==> ValidUser(r)
  {
    User(Some(id), u.tgId, u.name, u.course, u.directionId, u.remindBefore, None)
  }

  // ------------------------------------------------------------------ directions

  /** A study direction of one course. */
  datatype Direction = Direction(id: Option<int>, name: string, course: int)

  datatype DirectionCreate = DirectionCreate(name: string, course: int)

  predicate DirectionFieldsValid(name: string, course: int) { LengthIn(name, 1, 200) && 1 <= course <= 4 }

  /** Building a `DirectionCreate`: None exactly when a bound is violated. */
  function MakeDirectionCreate(name: string, course: int): (r: Option<DirectionCreate>)
    ensures r.Some? <==> DirectionFieldsValid(name, course)
    ensures r.Some? ==> r.value.name == name && r.value.course == course
  {
    if DirectionFieldsValid(name, course) then Some(DirectionCreate(name, course)) else None
  }

  /** A direction with the given id (None before the row exists) and the create model's name and course. */
  function DirectionOf(id: Option<int>, d: DirectionCreate): (r: Direction)
    ensures r.id == id && r.name == d.name && r.course == d.course
    ensures DirectionFieldsValid(d.name, d.course) <==> DirectionFieldsValid(r.name, r.course)
  {
    Direction(id, d.name, d.course)
  }
}
