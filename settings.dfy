/**
 * The bot's settings menu: the reminder switch, pausing for a chosen
 * number of days, resuming, and the entry into the registration dialogue
 * that changes a student's direction. Every handler first looks the
 * student up; an unregistered student gets an alert and nothing is
 * written.
 */
module BotSettings {
  import opened Wrappers
  import opened Text
  import opened Timezone
  import opened Models
  import opened Store
  import opened UserQueries
  import opened Registration

  // ------------------------------------------------------------------ pause state

  /**
   * `is_user_paused`: a stored pause that parses and lies after now. An
   * absent, empty or unreadable value is no pause.
   */
  predicate IsUserPaused(u: User, now: Instant) {
    match u.pausedUntil
    case Some(Iso(at)) => at > now
    case _ => false
  }

  /**
   * The menu's notion of a pause against the one the daily jobs use: they
   * agree for an absent pause and for a readable one except at the very
   * instant it ends, and they disagree on an unreadable value, which the
   * menu shows as no pause while the jobs skip the student.
   */
  lemma PausedAgainstActive(u: User, now: Instant)
    ensures u.pausedUntil.None? ==> !IsUserPaused(u, now) && IsActive(u, now)
    ensures u.pausedUntil.Some? && u.pausedUntil.value.Iso? && u.pausedUntil.value.at != now ==>
      (IsUserPaused(u, now) <==> !IsActive(u, now))
    ensures u.pausedUntil == Some(Iso(now)) ==> !IsUserPaused(u, now) && !IsActive(u, now)
    ensures u.pausedUntil.Some? && u.pausedUntil.value.Unparseable? ==> !IsUserPaused(u, now) && !IsActive(u, now)
  {
  }

  // ------------------------------------------------------------------ keyboards

  /** An inline button: its label and its callback data. */
  datatype Button = Button(text: string, callbackData: string)

  const REMINDERS_OFF: string := "🔕 Выключить напоминания"
  const REMINDERS_ON: string := "🔔 Включить напоминания"
  const RESUME: string := "▶️ Возобновить уведомления"
  const PAUSE: string := "⏸ Приостановить уведомления"

  /** `get_settings_keyboard`: one button per row. */
  function SettingsKeyboard(remindBefore: bool, isPaused: bool): (r: seq<Button>)
    ensures |r| == 5
    ensures r[0].callbackData == "toggle_reminders"
    ensures r[2].callbackData == "change_direction" && r[3].callbackData == "share_bot"
    ensures r[4].callbackData == "close_settings"
  {
    [Button(if remindBefore then REMINDERS_OFF else REMINDERS_ON, "toggle_reminders"),
     if isPaused then Button(RESUME, "resume_notifications") else Button(PAUSE, "pause_notifications"),
     Button("🔄 Сменить направление", "change_direction"),
     Button("📤 Поделиться ботом", "share_bot"),
     Button("❌ Закрыть", "close_settings")]
  }

  /**
   * The menu always offers the opposite of the current state: switching
   * reminders off exactly when they are on, and resuming exactly when the
   * student is paused, pausing otherwise.
   */
  lemma SettingsKeyboardOffersOpposite(remindBefore: bool, isPaused: bool)
    ensures SettingsKeyboard(remindBefore, isPaused)[0].text == REMINDERS_OFF <==> remindBefore
    ensures SettingsKeyboard(remindBefore, isPaused)[1].callbackData == "resume_notifications" <==> isPaused
    ensures SettingsKeyboard(remindBefore, isPaused)[1].callbackData == "pause_notifications" <==> !isPaused
  {
  }

  /** The pause lengths offered, in days. */
  const PAUSE_DAYS: seq<nat> := [1, 3, 7, 14]

  /** The callback data of the pause button for `days`. */
  function PauseData(days: nat): string {
    "pause:" + NatToString(days)
  }

  /** `get_pause_duration_keyboard`: one button per length, then back to the menu. */
  function PauseKeyboard(): (r: seq<Button>)
    ensures |r| == |PAUSE_DAYS| + 1
    ensures forall i :: 0 <= i < |PAUSE_DAYS| ==> r[i].callbackData == PauseData(PAUSE_DAYS[i])
    ensures r[|PAUSE_DAYS|].callbackData == "back_to_settings"
  {
    [Button("1 день", PauseData(1)), Button("3 дня", PauseData(3)), Button("7 дней", PauseData(7)),
     Button("14 дней", PauseData(14)), Button("◀️ Назад", "back_to_settings")]
  }

  /**
   * Every pause button reaches the pause handler and reads back the
   * number of days it was built with.
   */
  lemma PauseButtonsReadBack(days: nat)
    ensures StartsWith(PauseData(days), "pause:")
    ensures CallbackNumber(PauseData(days)) == Some(days)
  {
    var digits := NatToString(days);
    assert PauseData(days) == "pause" + ":" + digits by { assert "pause" + ":" == "pause:"; }
    assert CallbackNumber(PauseData(days)) == Some(days) by { CallbackNumberRoundTrip("pause", days); }
    assert PauseData(days)[..|"pause:"|] == "pause:";
  }

  // ------------------------------------------------------------------ menu

  /** What the settings menu shows: the reminder flag and the pause flag. */
  datatype Menu = Menu(remindBefore: bool, isPaused: bool)

  /**
   * `/settings`, the settings button and `back_to_settings`: the menu of a
   * registered student, None for anyone else.
   */
  function ShowSettings(t: Tables, tgId: int, now: Instant): (r: Option<Menu>)
    ensures r.None? <==> !UserExists(t, tgId)
    ensures r.Some? ==> exists u :: u in t.users && u.tgId == tgId
                                    && r.value == Menu(u.remindBefore, IsUserPaused(u, now))
  {
    match FindUser(t.users, tgId)
    case None => None
    case Some(u) => Some(Menu(u.remindBefore, IsUserPaused(u, now)))
  }

  // ------------------------------------------------------------------ handlers

  /**
   * `toggle_reminders`: the student's reminder flag is flipped, and the
   * new value returned; an unregistered student changes nothing.
   */
  method ToggleReminders(db: Database, tgId: int, now: Instant) returns (newValue: Option<bool>)
    modifies db
    ensures newValue.None? <==> !UserExists(old(db.tables), tgId)
    ensures newValue.None? ==> db.tables == old(db.tables)
    ensures newValue.Some? ==>
      var u := FindUser(old(db.tables.users), tgId).value;
      && newValue.value == !u.remindBefore
      && db.tables == old(db.tables).(users := UpdateWhere(old(db.tables.users), tgId,
           (v: User) => Apply(v, SettingsUpdate(Some(!u.remindBefore), None, now).value)))
  {
    var user := FindUser(db.tables.users, tgId);
    if user.None? {
      return None;
    }
    var value := !user.value.remindBefore;
    var _ := UpdateUserSettings(db, user.value.tgId, Some(value), None, now);
    return Some(value);
  }

  /**
   * Toggling flips the reminder flag and nothing else, so toggling twice
   * gives the student back unchanged.
   */
  lemma ToggleTwiceRestores(u: User, now: Instant)
    ensures var v := Apply(u, SettingsUpdate(Some(!u.remindBefore), None, now).value);
      && v == u.(remindBefore := !u.remindBefore)
      && Apply(v, SettingsUpdate(Some(!v.remindBefore), None, now).value) == u
  {
    SettingsUpdateChangesOnlyGiven(u, Some(!u.remindBefore), None, now);
    var v := Apply(u, SettingsUpdate(Some(!u.remindBefore), None, now).value);
    SettingsUpdateChangesOnlyGiven(v, Some(!v.remindBefore), None, now);
  }

  /** The pause a "pause:N" button stores: N days after now. */
  function PauseEnd(days: int, now: Instant): Instant {
    now + days * SECONDS_PER_DAY
  }

  /**
   * `process_pause_duration`: the number of days is read first, and an
   * unreadable one raises before anything else happens; an unregistered
   * student changes nothing; otherwise the pause ends that many days
   * after now, and that end is returned.
   */
  method ProcessPauseDuration(db: Database, tgId: int, callbackData: string, now: Instant) returns (until: Option<Instant>)
    modifies db
    ensures until.Some? <==> CallbackNumber(callbackData).Some? && UserExists(old(db.tables), tgId)
    ensures until.None? ==> db.tables == old(db.tables)
    ensures until.Some? ==>
      var end := PauseEnd(CallbackNumber(callbackData).value, now);
      && until.value == end
      && db.tables == old(db.tables).(users := UpdateWhere(old(db.tables.users), tgId,
           (v: User) => Apply(v, SettingsUpdate(None, Some(Iso(end)), now).value)))
  {
    var days := CallbackNumber(callbackData);
    if days.None? {
      return None;
    }
    var user := FindUser(db.tables.users, tgId);
    if user.None? {
      return None;
    }
    var end := PauseEnd(days.value, now);
    var _ := UpdateUserSettings(db, user.value.tgId, None, Some(Iso(end)), now);
    return Some(end);
  }

  /**
   * A pause of at least one day silences the student: the menu shows the
   * pause, the daily jobs skip the student up to and including the end,
   * and take the student again after it; the reminder flag stays.
   */
  lemma PauseSilencesUntilEnd(u: User, days: int, now: Instant, at: Instant)
    requires days >= 1
    ensures var v := Apply(u, SettingsUpdate(None, Some(Iso(PauseEnd(days, now))), now).value);
      && IsUserPaused(v, now)
      && v.remindBefore == u.remindBefore
      && (IsActive(v, at) <==> at > PauseEnd(days, now))
  {
    SettingsUpdateChangesOnlyGiven(u, None, Some(Iso(PauseEnd(days, now))), now);
  }

  /**
   * The tables after `update_user_settings` for a Telegram id: unchanged
   * when neither field is given, since no query is issued then.
   */
  function SettingsWritten(t: Tables, tgId: int, remindBefore: Option<bool>, pausedUntil: Option<Stamp>, now: Instant): Tables {
    match SettingsUpdate(remindBefore, pausedUntil, now)
    case None => t
    case Some(items) => t.(users := UpdateWhere(t.users, tgId, (v: User) => Apply(v, items)))
  }

  /**
   * `resume_notifications` as written: it asks for `paused_until=None`,
   * which the settings update reads as "leave unchanged", so nothing is
   * written; the reply still says notifications are back.
   */
  method ResumeNotifications(db: Database, tgId: int, now: Instant) returns (found: bool)
    modifies db
    ensures found <==> UserExists(old(db.tables), tgId)
    ensures db.tables == if found then SettingsWritten(old(db.tables), tgId, None, None, now) else old(db.tables)
  {
    var user := FindUser(db.tables.users, tgId);
    if user.None? {
      return false;
    }
    var _ := UpdateUserSettings(db, user.value.tgId, None, None, now);
    return true;
  }

  /**
   * Resuming as written leaves every student as stored: a paused student
   * stays paused, and the daily jobs keep skipping the student.
   */
  lemma ResumeLeavesPause(t: Tables, tgId: int, now: Instant)
    ensures SettingsWritten(t, tgId, None, None, now) == t
    ensures forall u :: u in SettingsWritten(t, tgId, None, None, now).users && IsUserPaused(u, now) ==>
      u in t.users && !IsActive(u, now)
  {
    assert SettingsUpdate(None, None, now).None?;
  }

  /** A student with the pause removed. */
  function Unpaused(u: User): (v: User)
    ensures v.pausedUntil.None?
    ensures v.(pausedUntil := u.pausedUntil) == u
  {
    u.(pausedUntil := None)
  }

  /**
   * Resuming as intended: the pause of every row of that Telegram id is
   * set to NULL (the update time the query also writes is not modelled).
   */
  method ResumeNotificationsCleared(db: Database, tgId: int) returns (found: bool)
    modifies db
    ensures found <==> UserExists(old(db.tables), tgId)
    ensures db.tables == if found then old(db.tables).(users := UpdateWhere(old(db.tables.users), tgId, Unpaused))
                         else old(db.tables)
  {
    var user := FindUser(db.tables.users, tgId);
    if user.None? {
      return false;
    }
    db.tables := db.tables.(users := UpdateWhere(db.tables.users, user.value.tgId, Unpaused));
    return true;
  }

  /**
   * After the intended resume the student is neither shown as paused nor
   * skipped by the daily jobs, at any time, and keeps every other setting;
   * every other student is untouched.
   */
  lemma ClearedResumeReactivates(users: seq<User>, tgId: int, at: Instant)
    ensures forall i :: 0 <= i < |users| && users[i].tgId == tgId ==>
      var v := UpdateWhere(users, tgId, Unpaused)[i];
      !IsUserPaused(v, at) && IsActive(v, at) && v.remindBefore == users[i].remindBefore
      && v.directionId == users[i].directionId
    ensures forall i :: 0 <= i < |users| && users[i].tgId != tgId ==> UpdateWhere(users, tgId, Unpaused)[i] == users[i]
  {
  }

  /**
   * `change_direction`: a registered student's name is stored and the
   * dialogue is marked as a change; in every case it then asks for the
   * course. Without a student row the mark is not set, so confirming
   * later registers rather than changes.
   */
  method ChangeDirection(conv: Conversation, db: Database, tgId: int)
    requires conv.Valid()
    modifies conv
    ensures conv.Valid()
    ensures conv.state == Some(AwaitingCourse)
    ensures conv.data == match FindUser(db.tables.users, tgId)
      case Some(u) => old(conv.data).(name := Some(u.name), changingDirection := Some(true))
      case None => old(conv.data)
  {
    var user := FindUser(db.tables.users, tgId);
    if user.Some? {
      conv.data := conv.data.(name := Some(user.value.name), changingDirection := Some(true));
    }
    conv.state := Some(AwaitingCourse);
  }
}
