/**
 * The bot's common handlers: the schedule of one day for the student's
 * direction (asked for today or tomorrow), and the profile with the
 * student's reminder and pause status.
 *
 * The table of weekday names is a parameter (`names`), and so is the
 * current weekday; the date format the profile uses for a pause
 * (`strftime('%d.%m.%Y')`) is the parameter `formatDate`.
 */
module CommonHandlers {
  import opened Wrappers
  import opened Text
  import opened Timezone
  import opened Models
  import opened Store
  import opened Sorting
  import opened PairQueries
  import opened BotSettings

  // ------------------------------------------------------------------ weekdays

  /** The weekday after `today`, Monday being 0: Sunday is followed by Monday. */
  function Tomorrow(today: int): (r: int)
    requires 0 <= today < 7
    ensures 0 <= r < 7
    ensures today == 6 ==> r == 0
    ensures today < 6 ==> r == today + 1
  {
    (today + 1) % 7
  }

  /** The fallback name of a weekday the table does not cover. */
  const UNKNOWN_DAY: string := "день"

  /** The name of a weekday: the table's entry, or the fallback past its end. */
  function DayName(names: seq<string>, day: nat): (r: string)
    ensures day < |names| ==> r == names[day]
    ensures |names| <= day ==> r == UNKNOWN_DAY
  {
    if day < |names| then names[day] else UNKNOWN_DAY
  }

  // ------------------------------------------------------------------ one day

  /**
   * The direction name the user row carries: the LEFT JOIN always supplies
   * the key, so a direction that is not found shows as Python's `None`.
   */
  function DirectionLabel(t: Tables, u: User): (r: string)
    ensures FindDirection(t.directions, u.directionId).Some? ==> r == FindDirection(t.directions, u.directionId).value.name
    ensures FindDirection(t.directions, u.directionId).None? ==> r == "None"
  {
    match FindDirection(t.directions, u.directionId)
    case Some(d) => d.name
    case None => "None"
  }

  /** The text for a day without classes. */
  function NoPairsText(dayName: string, shownDirection: string): string {
    Concat(["📅 <b>Расписание на ", dayName, "</b>\n\n🎉 В этот день пар нет! Отдыхай!\n\n🎓 Направление: ", shownDirection])
  }

  /** The first two lines of a day with classes. */
  function Header(dayName: string, shownDirection: string): seq<string> {
    [Concat(["📅 <b>Расписание на ", dayName, "</b>\n"]), Concat(["🎓 ", shownDirection, "\n"])]
  }

  function SlotBlockParts(s: Scheduled): seq<string> {
    ["\n<b>", IntToString(s.slotNumber), "️⃣ ", s.startTime, " - ", s.endTime, "</b>\n📚 ", s.pair.title,
     "\n👨‍🏫 ", s.pair.teacher, "\n🏫 Ауд. ", s.pair.room, " • ", s.pair.kind]
  }

  /** The block of one class: slot number, times, title, teacher, room and kind. */
  function SlotBlock(s: Scheduled): string {
    Concat(SlotBlockParts(s))
  }

  function SlotBlocks(rows: seq<Scheduled>): (r: seq<string>)
    ensures |r| == |rows|
  {
    seq(|rows|, k requires 0 <= k < |rows| => SlotBlock(rows[k]))
  }

  lemma SlotBlocksSnoc(rows: seq<Scheduled>, i: int)
    requires 0 <= i < |rows|
    ensures SlotBlocks(rows[..i + 1]) == SlotBlocks(rows[..i]) + [SlotBlock(rows[i])]
  {
    assert rows[..i + 1][i] == rows[i];
  }

  /** `get_schedule_for_day` on the rows of the day. */
  function DaySchedule(rows: seq<Scheduled>, dayName: string, shownDirection: string): string {
    if rows == [] then NoPairsText(dayName, shownDirection)
    else JoinWith(Header(dayName, shownDirection) + SlotBlocks(rows), "\n")
  }

  /**
   * `get_schedule_for_day`: the day's classes for the student's direction
   * in slot order, one block each, after the day and direction lines;
   * the no-classes text when there are none.
   */
  method GetScheduleForDay(t: Tables, u: User, day: nat, names: seq<string>) returns (text: string)
    ensures text == DaySchedule(PairsForDay(t, u.directionId, day), DayName(names, day), DirectionLabel(t, u))
  {
    var rows := PairsForDay(t, u.directionId, day);
    var dayName := if day < |names| then names[day] else UNKNOWN_DAY;
    var shownDirection := DirectionLabel(t, u);
    if |rows| == 0 {
      return NoPairsText(dayName, shownDirection);
    }
    var lines := ScheduleLines(rows, dayName, shownDirection);
    text := JoinWith(lines, "\n");
  }

  /** The lines of a day with classes: the two header lines, then one block per row in order. */
  method ScheduleLines(rows: seq<Scheduled>, dayName: string, shownDirection: string) returns (lines: seq<string>)
    ensures |lines| == |rows| + 2
    ensures lines == Header(dayName, shownDirection) + SlotBlocks(rows)
  {
    lines := Header(dayName, shownDirection);
    var i := 0;
    while i < |rows|
      invariant 0 <= i <= |rows|
      invariant lines == Header(dayName, shownDirection) + SlotBlocks(rows[..i])
    {
      SlotBlocksSnoc(rows, i);
      lines := lines + [SlotBlock(rows[i])];
      i := i + 1;
    }
    assert rows[..i] == rows;
  }

  /** A block names its class's slot number, times, title, teacher, room and kind. */
  lemma SlotBlockShows(s: Scheduled)
    ensures Contains(SlotBlock(s), IntToString(s.slotNumber))
    ensures Contains(SlotBlock(s), s.startTime) && Contains(SlotBlock(s), s.endTime)
    ensures Contains(SlotBlock(s), s.pair.title) && Contains(SlotBlock(s), s.pair.teacher)
    ensures Contains(SlotBlock(s), s.pair.room) && Contains(SlotBlock(s), s.pair.kind)
  {
    var parts := SlotBlockParts(s);
    ConcatContains(parts, 1);
    ConcatContains(parts, 3);
    ConcatContains(parts, 5);
    ConcatContains(parts, 7);
    ConcatContains(parts, 9);
    ConcatContains(parts, 11);
    ConcatContains(parts, 13);
  }

  /** A day without classes still names the day and the direction. */
  lemma NoPairsShowsDay(dayName: string, shownDirection: string)
    ensures Contains(DaySchedule([], dayName, shownDirection), dayName)
    ensures Contains(DaySchedule([], dayName, shownDirection), shownDirection)
  {
    var parts := ["📅 <b>Расписание на ", dayName, "</b>\n\n🎉 В этот день пар нет! Отдыхай!\n\n🎓 Направление: ", shownDirection];
    ConcatContains(parts, 1);
    ConcatContains(parts, 3);
  }

  /**
   * The schedule of a day lists every class of that day assigned to the
   * student's direction, with its title, teacher, room, kind and times,
   * and the blocks follow the slot numbers; a class of another day or of
   * another direction is not among them.
   */
  lemma ScheduleShowsDayPairs(t: Tables, u: User, day: nat, names: seq<string>, k: int)
    requires 0 <= k < |PairsForDay(t, u.directionId, day)|
    ensures var rows := PairsForDay(t, u.directionId, day);
      var text := DaySchedule(rows, DayName(names, day), DirectionLabel(t, u));
      && rows[k].pair in t.pairs && rows[k].pair.dayOfWeek == day
      && Assigned(t.assignments, PairId(rows[k].pair), u.directionId)
      && Contains(text, SlotBlock(rows[k]))
      && Contains(text, rows[k].pair.title) && Contains(text, rows[k].pair.teacher)
      && Contains(text, rows[k].pair.room) && Contains(text, rows[k].pair.kind)
      && Contains(text, rows[k].startTime) && Contains(text, rows[k].endTime)
      && (forall j :: k < j < |rows| ==> rows[k].slotNumber <= rows[j].slotNumber)
  {
    var rows := PairsForDay(t, u.directionId, day);
    assert rows[k] in rows;
    DayScheduleShowsRow(rows, DayName(names, day), DirectionLabel(t, u), k);
  }

  /** Whatever the rows, the schedule text holds the block of each and what the block names. */
  lemma DayScheduleShowsRow(rows: seq<Scheduled>, dayName: string, shownDirection: string, k: int)
    requires 0 <= k < |rows|
    ensures var text := DaySchedule(rows, dayName, shownDirection);
      && Contains(text, SlotBlock(rows[k]))
      && Contains(text, rows[k].pair.title) && Contains(text, rows[k].pair.teacher)
      && Contains(text, rows[k].pair.room) && Contains(text, rows[k].pair.kind)
      && Contains(text, rows[k].startTime) && Contains(text, rows[k].endTime)
  {
    var lines := Header(dayName, shownDirection) + SlotBlocks(rows);
    var text := JoinWith(lines, "\n");
    assert lines[k + 2] == SlotBlock(rows[k]);
    assert Contains(text, SlotBlock(rows[k]));
    SlotBlockShows(rows[k]);
    ContainsTrans(text, SlotBlock(rows[k]), rows[k].pair.title);
    ContainsTrans(text, SlotBlock(rows[k]), rows[k].pair.teacher);
    ContainsTrans(text, SlotBlock(rows[k]), rows[k].pair.room);
    ContainsTrans(text, SlotBlock(rows[k]), rows[k].pair.kind);
    ContainsTrans(text, SlotBlock(rows[k]), rows[k].startTime);
    ContainsTrans(text, SlotBlock(rows[k]), rows[k].endTime);
  }

  // ------------------------------------------------------------------ today and tomorrow

  /**
   * `schedule_today`: an unknown student gets an alert (None); a known one
   * the schedule of the current weekday.
   */
  method ScheduleToday(t: Tables, tgId: int, today: int, names: seq<string>) returns (text: Option<string>)
    requires 0 <= today < 7
    ensures text.Some? <==> UserExists(t, tgId)
    ensures text.Some? ==> var u := FindUser(t.users, tgId).value;
      text.value == DaySchedule(PairsForDay(t, u.directionId, today), DayName(names, today), DirectionLabel(t, u))
  {
    var user := FindUser(t.users, tgId);
    if user.None? {
      return None;
    }
    var s := GetScheduleForDay(t, user.value, today, names);
    return Some(s);
  }

  /**
   * `schedule_tomorrow`: as for today, for the next weekday, so that on
   * Sunday it is Monday's schedule.
   */
  method ScheduleTomorrow(t: Tables, tgId: int, today: int, names: seq<string>) returns (text: Option<string>)
    requires 0 <= today < 7
    ensures text.Some? <==> UserExists(t, tgId)
    ensures text.Some? ==> var u := FindUser(t.users, tgId).value;
      var day := Tomorrow(today);
      text.value == DaySchedule(PairsForDay(t, u.directionId, day), DayName(names, day), DirectionLabel(t, u))
  {
    var user := FindUser(t.users, tgId);
    if user.None? {
      return None;
    }
    var s := GetScheduleForDay(t, user.value, (today + 1) % 7, names);
    return Some(s);
  }

  // ------------------------------------------------------------------ profile

  const REMIND_ON: string := "✅ Включены"
  const REMIND_OFF: string := "❌ Выключены"
  const NO_PAUSE: string := "Нет"

  /** The reminder status the profile shows. */
  function RemindStatus(remindBefore: bool): (r: string)
    ensures r == REMIND_ON <==> remindBefore
  {
    if remindBefore then REMIND_ON else REMIND_OFF
  }

  /**
   * The pause status the profile shows: the date when `paused_until`
   * parses and lies after now, otherwise "Нет" (an unreadable stamp is
   * swallowed by the bare `except`).
   */
  function PauseStatus(pausedUntil: Option<Stamp>, now: Instant, formatDate: Instant -> string): string {
    match pausedUntil
    case Some(Iso(at)) => if at > now then "До " + formatDate(at) else NO_PAUSE
    case _ => NO_PAUSE
  }

  /** The profile shows a pause exactly when the settings menu deems the student paused. */
  lemma PauseShownIffPaused(u: User, now: Instant, formatDate: Instant -> string)
    ensures PauseStatus(u.pausedUntil, now, formatDate) != NO_PAUSE <==> IsUserPaused(u, now)
    ensures IsUserPaused(u, now) ==>
      PauseStatus(u.pausedUntil, now, formatDate) == "До " + formatDate(u.pausedUntil.value.at)
  {
    if IsUserPaused(u, now) {
      var shown := PauseStatus(u.pausedUntil, now, formatDate);
      assert shown[0] == 'Д' && NO_PAUSE[0] == 'Н';
    }
  }

  function ProfileParts(u: User, shownDirection: string, now: Instant, formatDate: Instant -> string): seq<string> {
    ["👤 <b>Твой профиль</b>\n\n📛 Имя: ", u.name, "\n📚 Курс: ", IntToString(u.course),
     "\n🎓 Направление: ", shownDirection, "\n\n⚙️ <b>Настройки:</b>\n🔔 Напоминания: ", RemindStatus(u.remindBefore),
     "\n⏸ Пауза: ", PauseStatus(u.pausedUntil, now, formatDate), "\n\n💡 Используй ⚙️ Настройки для изменения"]
  }

  /** The profile text of a registered student. */
  function ProfileText(u: User, shownDirection: string, now: Instant, formatDate: Instant -> string): string {
    Concat(ProfileParts(u, shownDirection, now, formatDate))
  }

  /** `profile_button`: None for a student who is not registered. */
  function Profile(t: Tables, tgId: int, now: Instant, formatDate: Instant -> string): (r: Option<string>)
    ensures r.Some? <==> UserExists(t, tgId)
  {
    match FindUser(t.users, tgId)
    case None => None
    case Some(u) => Some(ProfileText(u, DirectionLabel(t, u), now, formatDate))
  }

  /**
   * The profile of a registered student shows the name, the course, the
   * direction, the reminder status and the pause status.
   */
  lemma ProfileShows(t: Tables, tgId: int, now: Instant, formatDate: Instant -> string)
    requires UserExists(t, tgId)
    ensures var u := FindUser(t.users, tgId).value;
      var text := Profile(t, tgId, now, formatDate).value;
      && Contains(text, u.name) && Contains(text, IntToString(u.course))
      && Contains(text, DirectionLabel(t, u))
      && Contains(text, RemindStatus(u.remindBefore))
      && Contains(text, PauseStatus(u.pausedUntil, now, formatDate))
  {
    var u := FindUser(t.users, tgId).value;
    var parts := ProfileParts(u, DirectionLabel(t, u), now, formatDate);
    ConcatContains(parts, 1);
    ConcatContains(parts, 3);
    ConcatContains(parts, 5);
    ConcatContains(parts, 7);
    ConcatContains(parts, 9);
  }
}
