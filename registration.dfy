/**
 * The bot's registration dialogue: a finite-state machine over the
 * states awaiting-name, awaiting-course, awaiting-direction and
 * confirming, with the data the dialogue has collected so far. `/start`
 * enters it; confirming registers the student, or changes the student's
 * direction when the dialogue was entered from the settings menu.
 *
 * A handler is dispatched only in its own state and, for buttons, only for
 * its own callback data; otherwise the update is not its and nothing
 * changes. A handler that raises (an `int()` that fails, a model whose
 * bounds are violated, a rejected INSERT) leaves the dialogue as it was.
 */
module Registration {
  import opened Wrappers
  import opened Text
  import opened Models
  import opened Store
  import opened UserQueries

  datatype RegState = AwaitingName | AwaitingCourse | AwaitingDirection | Confirming

  /** What `update_data` has stored; each field is absent until set. */
  datatype FsmData = FsmData(
    name: Option<string>, course: Option<int>, directionId: Option<int>, directionName: Option<string>,
    changingDirection: Option<bool>)

  const NO_DATA: FsmData := FsmData(None, None, None, None, None)

  /** The name used when none was stored. */
  const DEFAULT_NAME: string := "Студент"
  /** The course used when none was stored. */
  const DEFAULT_COURSE: int := 1

  /** The accepted length of a name, after stripping. */
  predicate NameAccepted(name: string) { 2 <= |name| <= 100 }

  /** `int(data.split(":")[1])`; None is the error `int()` raises. */
  function CallbackNumber(callbackData: string): (r: Option<int>)
    ensures r.Some? ==> |Split(callbackData, ':')| >= 2 && r == ParseInt(Split(callbackData, ':')[1])
  {
    var parts := Split(callbackData, ':');
    if |parts| < 2 then None else ParseInt(parts[1])
  }

  /** Reading back the number a button was built with. */
  lemma CallbackNumberRoundTrip(prefix: string, n: nat)
    requires ':' !in prefix
    ensures CallbackNumber(prefix + ":" + NatToString(n)) == Some(n)
  {
    var digits := NatToString(n);
    var s := prefix + ":" + digits;
    assert ':' !in digits by {
      forall i | 0 <= i < |digits|
        ensures digits[i] != ':'
      {
        assert IsDigit(digits[i]);
      }
    }
    var parts := [prefix, digits];
    assert Join(parts, ':') == s by {
      assert Join(parts[1..], ':') == digits;
    }
    SplitUnique(parts, ':');
    ParseIntOfNatToString(n);
  }

  /** Some direction is offered for the course. */
  predicate HasDirections(directions: seq<Direction>, course: int) {
    exists i :: 0 <= i < |directions| && directions[i].course == course
  }

  /** `changing_direction` read with its default. */
  predicate Changing(data: FsmData) { data.changingDirection == Some(true) }

  /**
   * The data every state can count on: the dialogue asks for a direction
   * only once it knows the course, and confirms only once it knows the
   * course and the direction.
   */
  predicate Consistent(state: Option<RegState>, data: FsmData) {
    && (state == Some(AwaitingDirection) ==> data.course.Some?)
    && (state == Some(Confirming) ==> data.course.Some? && data.directionId.Some? && data.directionName.Some?)
  }

  /** What the confirm button did. */
  datatype ConfirmResult = NotHandled | DirectionChanged | Registered(id: int) | Raised

  /** The dialogue of one chat: its state and its stored data. */
  class Conversation {
    var state: Option<RegState>
    var data: FsmData

    ghost predicate Valid()
      reads this
    {
      Consistent(state, data)
    }

    constructor()
      ensures state.None? && data == NO_DATA && Valid()
    {
      state, data := None, NO_DATA;
    }

    /** `state.clear()`: no state and no data. */
    method Clear()
      modifies this
      ensures state.None? && data == NO_DATA && Valid()
    {
      state, data := None, NO_DATA;
    }

    /**
     * `process_name`: a stripped name of 2 to 100 characters is stored and
     * the dialogue asks for the course; any other text is answered with a
     * hint and the state stays.
     */
    method ProcessName(text: string) returns (accepted: bool)
      requires Valid()
      modifies this
      ensures Valid()
      ensures accepted <==> old(state) == Some(AwaitingName) && NameAccepted(Strip(text))
      ensures accepted ==> state == Some(AwaitingCourse) && data == old(data).(name := Some(Strip(text)))
      ensures !accepted ==> state == old(state) && data == old(data)
    {
      if state != Some(AwaitingName) {
        return false;
      }
      var name := Strip(text);
      if |name| < 2 || |name| > 100 {
        return false;
      }
      data := data.(name := Some(name));
      state := Some(AwaitingCourse);
      return true;
    }

    /**
     * `process_course` on "course:N": N is stored; without a direction for
     * that course the dialogue ends, otherwise it asks for the direction.
     */
    method ProcessCourse(db: Database, callbackData: string)
      requires Valid()
      modifies this
      ensures Valid()
      ensures old(state) != Some(AwaitingCourse) || !StartsWith(callbackData, "course:") || CallbackNumber(callbackData).None?
        ==> state == old(state) && data == old(data)
      ensures old(state) == Some(AwaitingCourse) && StartsWith(callbackData, "course:") && CallbackNumber(callbackData).Some? ==>
        var course := CallbackNumber(callbackData).value;
        if HasDirections(db.tables.directions, course)
        then state == Some(AwaitingDirection) && data == old(data).(course := Some(course))
        else state.None? && data == NO_DATA
    {
      if state != Some(AwaitingCourse) || !StartsWith(callbackData, "course:") {
        return;
      }
      var parsed := CallbackNumber(callbackData);
      if parsed.None? {
        return;
      }
      var course := parsed.value;
      data := data.(course := Some(course));
      var directions := db.tables.directions;
      var any := exists i :: 0 <= i < |directions| && directions[i].course == course;
      if !any {
        Clear();
        return;
      }
      state := Some(AwaitingDirection);
    }

    /** `back_to_course`: from the direction list back to the course question. */
    method BackToCourse(callbackData: string)
      requires Valid()
      modifies this
      ensures Valid()
      ensures data == old(data)
      ensures state == if old(state) == Some(AwaitingDirection) && callbackData == "back_to_course"
                       then Some(AwaitingCourse) else old(state)
    {
      if state == Some(AwaitingDirection) && callbackData == "back_to_course" {
        state := Some(AwaitingCourse);
      }
    }

    /**
     * `process_direction` on "direction:N": an unknown direction ends the
     * dialogue; a known one is stored with its name and the dialogue asks
     * for confirmation.
     */
    method ProcessDirection(db: Database, callbackData: string)
      requires Valid()
      modifies this
      ensures Valid()
      ensures old(state) != Some(AwaitingDirection) || !StartsWith(callbackData, "direction:") || CallbackNumber(callbackData).None?
        ==> state == old(state) && data == old(data)
      ensures old(state) == Some(AwaitingDirection) && StartsWith(callbackData, "direction:") && CallbackNumber(callbackData).Some? ==>
        var id := CallbackNumber(callbackData).value;
        var found := FindDirection(db.tables.directions, id);
        if found.Some?
        then state == Some(Confirming) && data == old(data).(directionId := Some(id), directionName := Some(found.value.name))
        else state.None? && data == NO_DATA
    {
      if state != Some(AwaitingDirection) || !StartsWith(callbackData, "direction:") {
        return;
      }
      var parsed := CallbackNumber(callbackData);
      if parsed.None? {
        return;
      }
      var id := parsed.value;
      var found := FindDirection(db.tables.directions, id);
      if found.None? {
        Clear();
        return;
      }
      data := data.(directionId := Some(id), directionName := Some(found.value.name));
      state := Some(Confirming);
    }

    /**
     * `confirm_registration`. When the dialogue changes a direction, the
     * student's course and direction are updated. Otherwise a student is
     * registered with reminders on, provided the stored name and course
     * pass the model's bounds and the Telegram id is new; when either
     * fails the handler raises and the dialogue stays. The dialogue ends
     * after a successful write.
     */
    method ConfirmRegistration(db: Database, tgId: int) returns (r: ConfirmResult)
      requires Valid()
      modifies this, db
      ensures Valid()
      ensures old(state) != Some(Confirming) ==> r == NotHandled
      ensures r == NotHandled || r == Raised ==> state == old(state) && data == old(data) && db.tables == old(db.tables)
      ensures r == DirectionChanged <==> old(state) == Some(Confirming) && Changing(old(data))
      ensures old(state) == Some(Confirming) && Changing(old(data)) ==>
        var course, directionId := old(data).course.value, old(data).directionId.value;
        && db.tables == old(db.tables).(users := UpdateWhere(old(db.tables.users), tgId,
             (u: User) => u.(course := course, directionId := directionId)))
        && state.None? && data == NO_DATA
      ensures old(state) == Some(Confirming) && !Changing(old(data)) ==>
        var made := MakeUserCreate(tgId, old(data).name.GetOr(DEFAULT_NAME), old(data).course.value,
                                   old(data).directionId.value, Some(true));
        if made.Some? && !UserExists(old(db.tables), tgId)
        then r == Registered(old(db.tables.nextId)) && state.None? && data == NO_DATA
             && db.tables == old(db.tables).(users := old(db.tables.users) + [UserOf(old(db.tables.nextId), made.value)],
                                             nextId := old(db.tables.nextId) + 1)
        else r == Raised
    {
      if state != Some(Confirming) {
        return NotHandled;
      }
      var name := data.name.GetOr(DEFAULT_NAME);
      var course := data.course.GetOr(DEFAULT_COURSE);
      var directionId := data.directionId.value;
      if data.changingDirection == Some(true) {
        var _ := UpdateUserDirection(db, tgId, course, directionId);
        Clear();
        return DirectionChanged;
      }
      var made := MakeUserCreate(tgId, name, course, directionId, Some(true));
      if made.None? {
        return Raised;
      }
      var id := CreateUser(db, made.value);
      if id.None? {
        return Raised;
      }
      Clear();
      return Registered(id.value);
    }

    /**
     * `restart_registration`: back to the course question when changing a
     * direction, otherwise back to the name; the stored data stays.
     */
    method RestartRegistration(callbackData: string)
      requires Valid()
      modifies this
      ensures Valid()
      ensures data == old(data)
      ensures state == if old(state) == Some(Confirming) && callbackData == "restart_registration"
                       then (if Changing(old(data)) then Some(AwaitingCourse) else Some(AwaitingName))
                       else old(state)
    {
      if state == Some(Confirming) && callbackData == "restart_registration" {
        if data.changingDirection == Some(true) {
          state := Some(AwaitingCourse);
        } else {
          state := Some(AwaitingName);
        }
      }
    }

    /**
     * `cmd_start`: a registered student is welcomed back and the dialogue
     * is left alone; anyone else is asked for a name. The returned flag is
     * the reminder status the welcome-back text shows.
     */
    method CmdStart(db: Database, tgId: int) returns (welcomeBack: Option<bool>)
      requires Valid()
      modifies this
      ensures Valid()
      ensures data == old(data)
      ensures welcomeBack.Some? <==> UserExists(db.tables, tgId)
      ensures welcomeBack.Some? ==> welcomeBack.value == FindUser(db.tables.users, tgId).value.remindBefore
                                     && state == old(state)
      ensures welcomeBack.None? ==> state == Some(AwaitingName)
    {
      var user := FindUser(db.tables.users, tgId);
      if user.Some? {
        return Some(user.value.remindBefore);
      }
      state := Some(AwaitingName);
      return None;
    }
  }
}
