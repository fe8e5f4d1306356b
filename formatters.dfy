/**
 * The texts the bot sends: the morning schedule, the reminder before a
 * class and the confirmation after registration. The wording is kept as
 * named constants; what is proved is how the texts are put together from
 * the data (which pieces appear, in which order, and when).
 */
module Formatters {
  import opened Wrappers
  import opened Text
  import opened Timezone
  import opened Models

  /** A class of the day as the morning job passes it: the class, its start and its end. */
  datatype DayPair = DayPair(pair: Pair, startTime: string, endTime: string)

  /** `if pair.extra_link:`: a link is shown when it is given and not empty. */
  predicate LinkGiven(link: Option<string>) { link.Some? && link.value != [] }

  // ------------------------------------------------------------------ schedule

  const SCHEDULE_INTRO: string := "Вот твоё расписание на сегодня:\n\n"
  const NO_PAIRS_LINE: string := "\nСегодня у тебя нет пар. Отдыхай! 😊\n"
  const CLOSING: string := "Удачного дня! 🎓"

  /** The weekday line and the greeting both variants open with, after their leading newline. */
  function Greeting(weekdayName: string, userName: string): string {
    Concat(["📅 <b>", weekdayName, "</b>\n\nПривет, ", userName, "! 👋\n"])
  }

  /** The link line of a class in the morning message, or nothing. */
  function LinkLine(link: Option<string>): (r: string)
    ensures r != [] <==> LinkGiven(link)
  {
    if LinkGiven(link) then Concat(["🔗 <a href='", link.value, "'>Ссылка на занятие</a>\n"]) else ""
  }

  /** The lines of one class before its link line. */
  function PairCore(e: DayPair): string {
    Concat(["\n🕐 <b>", e.startTime, " - ", e.endTime, "</b>\n📚 ", e.pair.title, "\n👨‍🏫 ",
            e.pair.teacher, "\n🏛 ", e.pair.room, "\n📝 ", e.pair.kind, "\n"])
  }

  /** Everything one class adds to the morning message. */
  function PairBlock(e: DayPair): string {
    Concat([PairCore(e), LinkLine(e.pair.extraLink), "\n"])
  }

  /** The blocks of the classes, in the order given. */
  function PairBlocks(pairs: seq<DayPair>): (r: seq<string>)
    ensures |r| == |pairs| && forall i :: 0 <= i < |pairs| ==> r[i] == PairBlock(pairs[i])
  {
    seq(|pairs|, i requires 0 <= i < |pairs| => PairBlock(pairs[i]))
  }

  /** The morning text with classes before it is stripped: greeting, blocks, closing line. */
  function ScheduleBody(pairs: seq<DayPair>, weekdayName: string, userName: string): string {
    Concat([Greeting(weekdayName, userName), SCHEDULE_INTRO, Concat(PairBlocks(pairs)), CLOSING])
  }

  /**
   * `format_schedule_message` once the weekday is named: the no-classes
   * text as it stands, otherwise the text with its blocks, stripped.
   */
  function ScheduleMessage(pairs: seq<DayPair>, weekdayName: string, userName: string): string {
    if pairs == [] then "\n" + Greeting(weekdayName, userName) + NO_PAIRS_LINE
    else Strip("\n" + ScheduleBody(pairs, weekdayName, userName))
  }

  /** One more class appends its block. */
  lemma PairBlocksSnoc(pairs: seq<DayPair>, i: int)
    requires 0 <= i < |pairs|
    ensures Concat(PairBlocks(pairs[..i + 1])) == Concat(PairBlocks(pairs[..i])) + PairBlock(pairs[i])
  {
    var b := PairBlocks(pairs[..i + 1]);
    assert b[..|b| - 1] == PairBlocks(pairs[..i]);
  }

  /**
   * `format_schedule_message`: the weekday comes from `get_weekday_name_ru`,
   * whose IndexError is None here; then one block per class is appended,
   * its link line only when the class has a link.
   */
  method FormatScheduleMessage(pairs: seq<DayPair>, dayOfWeek: int, userName: string) returns (r: Option<string>)
    ensures r.None? <==> WeekdayNameRu(dayOfWeek).None?
    ensures r.Some? ==> r.value == ScheduleMessage(pairs, WeekdayNameRu(dayOfWeek).value, userName)
  {
    var weekdayName := WeekdayNameRu(dayOfWeek);
    if weekdayName.None? {
      return None;
    }
    var greeting := Greeting(weekdayName.value, userName);
    if |pairs| == 0 {
      return Some("\n" + greeting + NO_PAIRS_LINE);
    }
    var message := "\n" + greeting + SCHEDULE_INTRO;
    var i := 0;
    assert pairs[..0] == [];
    while i < |pairs|
      invariant 0 <= i <= |pairs|
      invariant message == "\n" + greeting + SCHEDULE_INTRO + Concat(PairBlocks(pairs[..i]))
    {
      var e := pairs[i];
      ghost var before := message;
      message := message + PairCore(e);
      if e.pair.extraLink.Some? && e.pair.extraLink.value != [] {
        message := message + LinkLine(e.pair.extraLink);
      }
      message := message + "\n";
      assert message == before + PairBlock(e) by {
        BlockAppended(before, PairCore(e), LinkLine(e.pair.extraLink));
      }
      assert message == "\n" + greeting + SCHEDULE_INTRO + Concat(PairBlocks(pairs[..i + 1])) by {
        PairBlocksSnoc(pairs, i);
        AppendAssoc("\n" + greeting + SCHEDULE_INTRO, Concat(PairBlocks(pairs[..i])), PairBlock(e));
      }
      i := i + 1;
    }
    assert pairs[..i] == pairs;
    message := message + CLOSING;
    LeadingNewline(greeting, SCHEDULE_INTRO, Concat(PairBlocks(pairs)), CLOSING);
    return Some(Strip(message));
  }

  /** Appending a block piece by piece appends the block. */
  lemma BlockAppended(before: string, core: string, link: string)
    ensures before + core + link + "\n" == before + Concat([core, link, "\n"])
    ensures link == [] ==> before + core + "\n" == before + Concat([core, link, "\n"])
  {
    ConcatThree(core, link, "\n");
  }

  /** The text the method builds is the body behind a newline. */
  lemma LeadingNewline(greeting: string, intro: string, blocks: string, closing: string)
    ensures "\n" + greeting + intro + blocks + closing == "\n" + Concat([greeting, intro, blocks, closing])
  {
    ConcatFour(greeting, intro, blocks, closing);
  }

  /** The morning text with classes starts with the weekday line and ends with the closing line. */
  lemma ScheduleBodyFramed(pairs: seq<DayPair>, weekdayName: string, userName: string)
    ensures var body := ScheduleBody(pairs, weekdayName, userName);
      body != [] && !IsSpace(body[0]) && EndsWith(body, CLOSING) && !IsSpace(body[|body| - 1])
  {
    var parts := [Greeting(weekdayName, userName), SCHEDULE_INTRO, Concat(PairBlocks(pairs)), CLOSING];
    ConcatFirst(["📅 <b>", weekdayName, "</b>\n\nПривет, ", userName, "! 👋\n"]);
    ConcatFirst(parts);
    ConcatPart(parts, 3);
    assert parts[4..] == [];
    var body := Concat(parts);
    assert body == Concat(parts[..3]) + CLOSING;
    assert body[|body| - 1] == CLOSING[|CLOSING| - 1] == '🎓';
  }

  /**
   * A morning message with classes is the greeting, the blocks and the
   * closing line: stripping removes only the leading newline.
   */
  lemma ScheduleMessageStripped(pairs: seq<DayPair>, weekdayName: string, userName: string)
    requires pairs != []
    ensures ScheduleMessage(pairs, weekdayName, userName) == ScheduleBody(pairs, weekdayName, userName)
    ensures EndsWith(ScheduleMessage(pairs, weekdayName, userName), CLOSING)
  {
    var body := ScheduleBody(pairs, weekdayName, userName);
    ScheduleBodyFramed(pairs, weekdayName, userName);
    var e: string := [];
    StripFramed("\n", body, e);
    assert "\n" + body + e == "\n" + body;
  }

  /** The blocks stand one per class, in the order the classes were given. */
  lemma PairBlocksInOrder(pairs: seq<DayPair>, i: int)
    requires 0 <= i < |pairs|
    ensures Concat(PairBlocks(pairs))
         == Concat(PairBlocks(pairs[..i])) + PairBlock(pairs[i]) + Concat(PairBlocks(pairs[i + 1..]))
  {
    var b := PairBlocks(pairs);
    ConcatPart(b, i);
    assert b[..i] == PairBlocks(pairs[..i]);
    assert b[i + 1..] == PairBlocks(pairs[i + 1..]);
  }

  /**
   * Each block names the class's times, title, teacher, room and type, and
   * has a link line exactly when the class has a link, which then names
   * the link.
   */
  lemma PairBlockShows(e: DayPair)
    ensures Contains(PairBlock(e), e.startTime) && Contains(PairBlock(e), e.endTime)
    ensures Contains(PairBlock(e), e.pair.title) && Contains(PairBlock(e), e.pair.teacher)
    ensures Contains(PairBlock(e), e.pair.room) && Contains(PairBlock(e), e.pair.kind)
    ensures LinkGiven(e.pair.extraLink) <==> Contains(PairBlock(e), LinkLine(e.pair.extraLink)) && LinkLine(e.pair.extraLink) != []
    ensures LinkGiven(e.pair.extraLink) ==> Contains(PairBlock(e), e.pair.extraLink.value)
  {
    var p := e.pair;
    var core := ["\n🕐 <b>", e.startTime, " - ", e.endTime, "</b>\n📚 ", p.title, "\n👨‍🏫 ",
                 p.teacher, "\n🏛 ", p.room, "\n📝 ", p.kind, "\n"];
    var block := [PairCore(e), LinkLine(p.extraLink), "\n"];
    ConcatContains(block, 0);
    ConcatContains(block, 1);
    ConcatContains(core, 1);
    ConcatContains(core, 3);
    ConcatContains(core, 5);
    ConcatContains(core, 7);
    ConcatContains(core, 9);
    ConcatContains(core, 11);
    ContainsTrans(PairBlock(e), PairCore(e), e.startTime);
    ContainsTrans(PairBlock(e), PairCore(e), e.endTime);
    ContainsTrans(PairBlock(e), PairCore(e), p.title);
    ContainsTrans(PairBlock(e), PairCore(e), p.teacher);
    ContainsTrans(PairBlock(e), PairCore(e), p.room);
    ContainsTrans(PairBlock(e), PairCore(e), p.kind);
    if LinkGiven(p.extraLink) {
      ConcatContains(["🔗 <a href='", p.extraLink.value, "'>Ссылка на занятие</a>\n"], 1);
      ContainsTrans(PairBlock(e), LinkLine(p.extraLink), p.extraLink.value);
    }
  }

  // ------------------------------------------------------------------ reminder

  /** The reminder before its optional link line. */
  function ReminderCore(p: Pair, startTime: string, endTime: string): string {
    Concat(ReminderParts(p, startTime, endTime))
  }

  function ReminderParts(p: Pair, startTime: string, endTime: string): seq<string> {
    ["\n⏰ <b>", "Напоминание!</b>\n\nЧерез 5 минут начинается пара:\n\n🕐 ", startTime, " - ", endTime,
     "\n📚 <b>", p.title, "</b>\n👨‍🏫 ", p.teacher, "\n🏛 ", p.room, "\n"]
  }

  /** The reminder's link line, or nothing. */
  function ReminderLink(link: Option<string>): (r: string)
    ensures r != [] <==> LinkGiven(link)
  {
    if LinkGiven(link) then Concat(ReminderLinkParts(link.value)) else ""
  }

  /** `format_reminder_message`. */
  function ReminderMessage(p: Pair, startTime: string, endTime: string): string {
    Strip(ReminderCore(p, startTime, endTime) + ReminderLink(p.extraLink))
  }

  /** The fixed pieces of the reminder around the fields are not blank. */
  lemma ReminderPiecesNotBlank(p: Pair, startTime: string, endTime: string)
    ensures var parts := ReminderParts(p, startTime, endTime);
      && !AllSpace(parts[0]) && !AllSpace(parts[3]) && !AllSpace(parts[5])
      && !AllSpace(parts[7]) && !AllSpace(parts[9])
  {
    var parts := ReminderParts(p, startTime, endTime);
    assert !IsSpace(parts[0][1]);
    assert !IsSpace(parts[3][1]) && !IsSpace(parts[5][1]) && !IsSpace(parts[7][0]) && !IsSpace(parts[9][1]);
  }

  /** The reminder names the class's start and end, its title and its teacher. */
  lemma ReminderShows(p: Pair, startTime: string, endTime: string)
    ensures Contains(ReminderMessage(p, startTime, endTime), startTime)
    ensures Contains(ReminderMessage(p, startTime, endTime), endTime)
    ensures Contains(ReminderMessage(p, startTime, endTime), p.title)
    ensures Contains(ReminderMessage(p, startTime, endTime), p.teacher)
  {
    var parts := ReminderParts(p, startTime, endTime);
    var link := ReminderLink(p.extraLink);
    ReminderPiecesNotBlank(p, startTime, endTime);
    StripKeepsPiece(parts, 2, link);
    StripKeepsPiece(parts, 4, link);
    StripKeepsPiece(parts, 6, link);
    StripKeepsPiece(parts, 8, link);
  }

  /**
   * The reminder names the room unless stripping eats the room's own
   * trailing blanks (only when no link line follows it), and the link,
   * when one is given.
   */
  lemma ReminderShowsRoomAndLink(p: Pair, startTime: string, endTime: string)
    ensures LinkGiven(p.extraLink) || (p.room != [] && !IsSpace(p.room[|p.room| - 1])) ==>
      Contains(ReminderMessage(p, startTime, endTime), p.room)
    ensures LinkGiven(p.extraLink) ==> Contains(ReminderMessage(p, startTime, endTime), p.extraLink.value)
  {
    var parts := ReminderParts(p, startTime, endTime);
    var link := ReminderLink(p.extraLink);
    ReminderPiecesNotBlank(p, startTime, endTime);
    if LinkGiven(p.extraLink) {
      ReminderLinkShows(p, startTime, endTime);
    } else if p.room != [] && !IsSpace(p.room[|p.room| - 1]) {
      StripKeepsPiece(parts, 10, link);
    }
  }

  /** The pieces of the reminder's link line. */
  function ReminderLinkParts(url: string): seq<string> {
    ["\n🔗 <a href='", url, "'>Перейти к занятию</a>"]
  }

  /** The fixed pieces of the link line are not blank. */
  lemma ReminderLinkPiecesNotBlank(url: string)
    ensures !AllSpace(ReminderLinkParts(url)[0]) && !AllSpace(ReminderLinkParts(url)[2])
  {
    var pieces := ReminderLinkParts(url);
    assert !IsSpace(pieces[0][1]) && !IsSpace(pieces[2][0]);
  }

  /** A piece of a later run of pieces survives stripping the whole text. */
  /** A text after a non-blank head keeps a middle piece that has non-blank text after it. */
  lemma StripKeepsAfterHead(head: string, before: string, x: string, after: string, whole: string)
    requires whole == before + x + after
    requires !AllSpace(head + before) && !AllSpace(after)
    ensures Contains(Strip(head + whole), x)
  {
    assert head + whole == (head + before) + x + after + [];
    StripKeepsMiddle(head + before, x, after, []);
  }

  lemma StripKeepsLaterPiece(parts: seq<string>, pieces: seq<string>, k: int)
    requires parts != [] && !AllSpace(parts[0])
    requires 0 <= k && k + 1 < |pieces| && !AllSpace(pieces[k + 1])
    ensures Contains(Strip(Concat(parts) + Concat(pieces)), pieces[k])
  {
    var head, before, after := Concat(parts), Concat(pieces[..k]), Concat(pieces[k + 1..]);
    assert Concat(pieces) == before + pieces[k] + after by {
      ConcatPart(pieces, k);
    }
    assert !AllSpace(head + before) by {
      ConcatNotBlank(parts);
      var i :| 0 <= i < |head| && !IsSpace(head[i]);
      assert (head + before)[i] == head[i];
    }
    assert !AllSpace(after) by {
      assert pieces[k + 1..][0] == pieces[k + 1];
      ConcatNotBlank(pieces[k + 1..]);
    }
    StripKeepsAfterHead(head, before, pieces[k], after, Concat(pieces));
  }

  /** With a link line, both the room and the link survive the strip. */
  lemma ReminderLinkShows(p: Pair, startTime: string, endTime: string)
    requires LinkGiven(p.extraLink)
    ensures Contains(ReminderMessage(p, startTime, endTime), p.room)
    ensures Contains(ReminderMessage(p, startTime, endTime), p.extraLink.value)
  {
    var parts := ReminderParts(p, startTime, endTime);
    var pieces := ReminderLinkParts(p.extraLink.value);
    assert ReminderLink(p.extraLink) == Concat(pieces);
    ReminderPiecesNotBlank(p, startTime, endTime);
    ReminderLinkPiecesNotBlank(p.extraLink.value);
    ConcatNotBlank(pieces);
    StripKeepsPiece(parts, 10, Concat(pieces));
    StripKeepsLaterPiece(parts, pieces, 1);
  }

  // ------------------------------------------------------------------ confirmation

  const REMINDERS_ENABLED: string := "Включены"
  const REMINDERS_DISABLED: string := "Выключены"

  /** The reminder state the confirmation shows. */
  function ReminderState(remindBefore: bool): string {
    if remindBefore then REMINDERS_ENABLED else REMINDERS_DISABLED
  }

  function ConfirmationParts(name: string, course: int, directionName: string, remindBefore: bool): seq<string> {
    ["\n✅ <b>Регистрация завершена!</b>\n\n👤 Имя: ", name, "\n📚 Курс: ", IntToString(course),
     "\n🎓 Направление: ", directionName, "\n⏰ Напоминания: ", ReminderState(remindBefore),
     "\n\nОтлично! Теперь ты будешь получать расписание каждый день в <b>08:00 по МСК</b>.\n\n"
     + "Используй команду /settings для изменения настроек.\n"]
  }

  /** `format_registration_confirmation`; the text is not stripped. */
  function RegistrationConfirmation(name: string, course: int, directionName: string, remindBefore: bool): string {
    Concat(ConfirmationParts(name, course, directionName, remindBefore))
  }

  /**
   * The confirmation shows the name, the course as `str()` writes it, the
   * direction, and the enabled text exactly when reminders are on.
   */
  lemma ConfirmationShows(name: string, course: int, directionName: string, remindBefore: bool)
    ensures Contains(RegistrationConfirmation(name, course, directionName, remindBefore), name)
    ensures Contains(RegistrationConfirmation(name, course, directionName, remindBefore), IntToString(course))
    ensures Contains(RegistrationConfirmation(name, course, directionName, remindBefore), directionName)
    ensures Contains(RegistrationConfirmation(name, course, directionName, remindBefore), ReminderState(remindBefore))
    ensures (ReminderState(remindBefore) == REMINDERS_ENABLED) <==> remindBefore
  {
    var parts := ConfirmationParts(name, course, directionName, remindBefore);
    ConcatContains(parts, 1);
    ConcatContains(parts, 3);
    ConcatContains(parts, 5);
    ConcatContains(parts, 7);
  }

  /** The texts for reminders on and off of one registration differ. */
  lemma ConfirmationVariantsDiffer(name: string, course: int, directionName: string)
    ensures RegistrationConfirmation(name, course, directionName, true)
            != RegistrationConfirmation(name, course, directionName, false)
  {
    var on := ConfirmationParts(name, course, directionName, true);
    var off := ConfirmationParts(name, course, directionName, false);
    ConcatPart(on, 7);
    ConcatPart(off, 7);
    assert on[..7] == off[..7] && on[8..] == off[8..];
    assert |REMINDERS_ENABLED| == 8 && |REMINDERS_DISABLED| == 9;
  }
}
