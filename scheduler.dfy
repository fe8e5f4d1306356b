/**
 * The job table of the scheduler: one morning job and one reminder job per
 * time slot, each reminder firing a few minutes before its slot starts;
 * and the second computation of the reminder times in the scheduler check
 * script.
 */
module Scheduling {
  import opened Wrappers
  import opened Text
  import opened Store
  import opened Sorting

  const MORNING_MESSAGE_HOUR: int := 8
  const MORNING_MESSAGE_MINUTE: int := 0
  const REMINDER_MINUTES_BEFORE: int := 5
  const MINUTES_PER_DAY: int := 1440

  /** A wall-clock time of day. */
  datatype TimeOfDay = TimeOfDay(hour: int, minute: int)

  /** What `datetime.time` and a cron trigger accept. */
  predicate ValidTime(t: TimeOfDay) { 0 <= t.hour <= 23 && 0 <= t.minute <= 59 }

  function MinuteOfDay(t: TimeOfDay): int { t.hour * 60 + t.minute }

  /** Subtracting whole days does not change the time of day. */
  lemma {:induction false} SubWholeDays(y: int, q: int)
    ensures (y - q * MINUTES_PER_DAY) % MINUTES_PER_DAY == y % MINUTES_PER_DAY
    decreases if q < 0 then -q else q
  {
    if q > 0 {
      var z := y - (q - 1) * MINUTES_PER_DAY;
      assert z % MINUTES_PER_DAY == y % MINUTES_PER_DAY by { SubWholeDays(y, q - 1); }
      assert y - q * MINUTES_PER_DAY == z - MINUTES_PER_DAY by {
        assert q * MINUTES_PER_DAY == (q - 1) * MINUTES_PER_DAY + MINUTES_PER_DAY;
      }
      assert (z - MINUTES_PER_DAY) % MINUTES_PER_DAY == z % MINUTES_PER_DAY by { OneDayShift(z); }
    } else if q < 0 {
      var z := y - (q + 1) * MINUTES_PER_DAY;
      assert z % MINUTES_PER_DAY == y % MINUTES_PER_DAY by { SubWholeDays(y, q + 1); }
      assert y - q * MINUTES_PER_DAY == z + MINUTES_PER_DAY by {
        assert q * MINUTES_PER_DAY == (q + 1) * MINUTES_PER_DAY - MINUTES_PER_DAY;
      }
      assert (z + MINUTES_PER_DAY) % MINUTES_PER_DAY == z % MINUTES_PER_DAY by { OneDayShift(z); }
    }
  }

  /** A day earlier or later is the same time of day. */
  lemma OneDayShift(z: int)
    ensures (z - MINUTES_PER_DAY) % MINUTES_PER_DAY == z % MINUTES_PER_DAY
    ensures (z + MINUTES_PER_DAY) % MINUTES_PER_DAY == z % MINUTES_PER_DAY
  {
  }

  /** Reducing to a time of day first, then moving on `k` minutes, is moving on then reducing. */
  lemma WrapThenAdd(x: int, k: int)
    ensures (x % MINUTES_PER_DAY + k) % MINUTES_PER_DAY == (x + k) % MINUTES_PER_DAY
  {
    var q := x / MINUTES_PER_DAY;
    assert x % MINUTES_PER_DAY + k == (x + k) - q * MINUTES_PER_DAY;
    SubWholeDays(x + k, q);
  }

  /** The time of day `n` minutes after midnight. */
  function FromMinuteOfDay(n: int): (t: TimeOfDay)
    requires 0 <= n < MINUTES_PER_DAY
    ensures ValidTime(t) && MinuteOfDay(t) == n
  {
    TimeOfDay(n / 60, n % 60)
  }

  /**
   * The time of day `minutesBefore` minutes before `start`, on the previous
   * day when that crosses midnight (a datetime on some day less a timedelta,
   * keeping only the time).
   */
  function ReminderAt(start: TimeOfDay, minutesBefore: int): (r: TimeOfDay)
    requires ValidTime(start)
    ensures ValidTime(r)
    ensures (MinuteOfDay(r) + minutesBefore) % MINUTES_PER_DAY == MinuteOfDay(start)
  {
    var x := MinuteOfDay(start) - minutesBefore;
    WrapThenAdd(x, minutesBefore);
    assert x + minutesBefore == MinuteOfDay(start);
    FromMinuteOfDay(x % MINUTES_PER_DAY)
  }

  /** Without crossing midnight the reminder is plainly that many minutes earlier. */
  lemma ReminderSameDay(start: TimeOfDay, minutesBefore: int)
    requires ValidTime(start) && 0 <= minutesBefore <= MinuteOfDay(start)
    ensures MinuteOfDay(ReminderAt(start, minutesBefore)) == MinuteOfDay(start) - minutesBefore
  {
    var x := MinuteOfDay(start) - minutesBefore;
    assert 0 <= x < MINUTES_PER_DAY;
    assert x % MINUTES_PER_DAY == x;
  }

  /** A class at 00:03 is reminded at 23:58 the day before. */
  lemma ReminderWrapsPastMidnight()
    ensures ReminderAt(TimeOfDay(0, 3), 5) == TimeOfDay(23, 58)
  {
  }

  /** `map(int, s.split(':'))` unpacked into two names: exactly two integer pieces. */
  function ParseHourMinute(s: string): (r: Option<(int, int)>)
    ensures r.Some? <==> (var parts := Split(s, ':');
      |parts| == 2 && ParseInt(parts[0]).Some? && ParseInt(parts[1]).Some?)
    ensures r.Some? ==> r.value == (ParseInt(Split(s, ':')[0]).value, ParseInt(Split(s, ':')[1]).value)
  {
    var parts := Split(s, ':');
    if |parts| != 2 then None
    else match (ParseInt(parts[0]), ParseInt(parts[1]))
      case (Some(h), Some(m)) => Some((h, m))
      case _ => None
  }

  /** `time(hour, minute)` of the parsed text: None when either step raises. */
  function ParseClock(s: string): (r: Option<TimeOfDay>)
    ensures r.Some? ==> ValidTime(r.value)
  {
    match ParseHourMinute(s)
    case None => None
    case Some((h, m)) => if ValidTime(TimeOfDay(h, m)) then Some(TimeOfDay(h, m)) else None
  }

  /** A clock text is accepted exactly when both pieces parse and form a valid time. */
  lemma ParseClockSpec(s: string)
    ensures ParseClock(s).Some? <==> (ParseHourMinute(s).Some?
      && ValidTime(TimeOfDay(ParseHourMinute(s).value.0, ParseHourMinute(s).value.1)))
    ensures ParseClock(s).Some? ==> ParseClock(s).value == TimeOfDay(ParseHourMinute(s).value.0, ParseHourMinute(s).value.1)
  {
  }

  /**
   * `calculate_reminder_time`: the time of day `minutesBefore` minutes
   * before the slot's start; None when the start text does not parse as
   * two integers forming a valid time (the call raises).
   */
  function CalculateReminderTime(slotStart: string, minutesBefore: int): (r: Option<TimeOfDay>)
    ensures r.Some? <==> ParseClock(slotStart).Some?
    ensures r.Some? ==> r.value == ReminderAt(ParseClock(slotStart).value, minutesBefore)
  {
    var start := ParseClock(slotStart);
    if start.None? then None else Some(ReminderAt(start.value, minutesBefore))
  }

  /** Two-digit, zero-padded rendering of a number below 100. */
  function TwoDigits(n: nat): (s: string)
    requires n < 100
    ensures |s| == 2 && AllDigits(s) && ':' !in s
  {
    [DigitChar(n / 10), DigitChar(n % 10)]
  }

  /** "HH:MM" for a valid time of day. */
  function ClockText(t: TimeOfDay): string
    requires ValidTime(t)
  {
    TwoDigits(t.hour) + ":" + TwoDigits(t.minute)
  }

  /** Reading back a rendered number gives that number. */
  lemma ParseTwoDigits(n: nat)
    requires n < 100
    ensures ParseInt(TwoDigits(n)) == Some(n)
  {
    var s := TwoDigits(n);
    assert DigitsValue(s) == n by {
      var hi, lo := n / 10, n % 10;
      assert s == [DigitChar(hi), DigitChar(lo)];
      DigitsValueTwo(DigitChar(hi), DigitChar(lo));
      assert DigitValue(DigitChar(hi)) == hi && DigitValue(DigitChar(lo)) == lo;
    }
    ParseIntDigits(s);
  }

  /** Reading back a rendered time of day gives that time. */
  lemma ParseClockText(t: TimeOfDay)
    requires ValidTime(t)
    ensures ParseClock(ClockText(t)) == Some(t)
  {
    var parts := [TwoDigits(t.hour), TwoDigits(t.minute)];
    assert Join(parts, ':') == ClockText(t) by {
      assert parts[1..] == [TwoDigits(t.minute)];
    }
    SplitUnique(parts, ':');
    ParseTwoDigits(t.hour);
    ParseTwoDigits(t.minute);
  }

  /** A start without a colon is rejected. */
  lemma MalformedStartRejected()
    ensures CalculateReminderTime(TwoDigits(8), 5).None?
  {
    var s := TwoDigits(8);
    SplitUnique([s], ':');
    assert Join([s], ':') == s;
  }
  // ------------------------------------------------------------------ job table

  /** Job ids: the morning job's, and `reminder_slot_{n}` for slot number `n`. */
  datatype JobId = MorningId | ReminderId(slotNumber: int)

  /** What a job runs, with the arguments of a reminder job. */
  datatype JobKind = MorningKind | ReminderKind(slotNumber: int, startTime: string, endTime: string)

  /** A job: what it runs and its daily cron time. */
  datatype Job = Job(kind: JobKind, trigger: TimeOfDay)

  const MORNING_JOB: Job := Job(MorningKind, TimeOfDay(MORNING_MESSAGE_HOUR, MORNING_MESSAGE_MINUTE))

  /** The scheduler's job store: jobs by id. */
  class JobStore {
    var jobs: map<JobId, Job>

    constructor ()
      ensures jobs == map[]
    {
      jobs := map[];
    }

    /** `add_job(..., replace_existing=True)`: a job with the same id is replaced. */
    method AddJob(id: JobId, job: Job)
      modifies this
      ensures jobs == old(jobs)[id := job]
    {
      jobs := jobs[id := job];
    }
  }

  predicate SlotNumberLe(a: Slot, b: Slot) { a.slotNumber <= b.slotNumber }

  /** `get_time_slots`: all slots, ordered by slot number. */
  function TimeSlots(t: Tables): (r: seq<Slot>)
    ensures multiset(r) == multiset(t.slots)
    ensures SortedBy(r, SlotNumberLe)
  {
    assert TotalPreorder(SlotNumberLe);
    SortSorted(t.slots, SlotNumberLe);
    Sort(t.slots, SlotNumberLe)
  }

  /** The reminder job of a slot, if its start time parses. */
  function ReminderJobOf(s: Slot): Option<Job> {
    match CalculateReminderTime(s.startTime, REMINDER_MINUTES_BEFORE)
    case None => None
    case Some(at) => Some(Job(ReminderKind(s.slotNumber, s.startTime, s.endTime), at))
  }

  /**
   * The job table after the morning job and the reminder jobs of `slots`,
   * added in order, `reminderOf` building each slot's job; None when it
   * fails for some slot (setup raises).
   */
  function JobTable(slots: seq<Slot>, reminderOf: Slot -> Option<Job>): Option<map<JobId, Job>> {
    if slots == [] then Some(map[MorningId := MORNING_JOB])
    else
      var n := |slots| - 1;
      match (JobTable(slots[..n], reminderOf), reminderOf(slots[n]))
      case (Some(m), Some(job)) => Some(m[ReminderId(slots[n].slotNumber) := job])
      case _ => None
  }

  /**
   * `setup_scheduler`: a new job store gets the morning job and then, slot
   * by slot in slot-number order, that slot's reminder job. It reports
   * failure (setup raises) when a slot's start time does not parse;
   * otherwise the store holds exactly `JobTable` of the slots.
   */
  method SetupScheduler(t: Tables) returns (store: JobStore, ok: bool)
    ensures fresh(store)
    ensures ok <==> JobTable(TimeSlots(t), ReminderJobOf).Some?
    ensures ok ==> store.jobs == JobTable(TimeSlots(t), ReminderJobOf).value
  {
    store := new JobStore();
    store.AddJob(MorningId, MORNING_JOB);
    var slots := TimeSlots(t);
    for i := 0 to |slots|
      invariant JobTable(slots[..i], ReminderJobOf) == Some(store.jobs)
    {
      var job := ReminderJobOf(slots[i]);
      if job.None? {
        assert JobTable(slots, ReminderJobOf).None? by { JobTableDefinedIff(slots, ReminderJobOf); }
        return store, false;
      }
      JobTableExtend(slots, ReminderJobOf, i, store.jobs, job.value);
      store.AddJob(ReminderId(slots[i].slotNumber), job.value);
    }
    assert slots[..|slots|] == slots;
    return store, true;
  }

  /** One more slot whose job can be built adds that job to the table of the slots before it. */
  lemma JobTableExtend(slots: seq<Slot>, reminderOf: Slot -> Option<Job>, i: nat, m: map<JobId, Job>, job: Job)
    requires i < |slots| && JobTable(slots[..i], reminderOf) == Some(m) && reminderOf(slots[i]) == Some(job)
    ensures JobTable(slots[..i + 1], reminderOf) == Some(m[ReminderId(slots[i].slotNumber) := job])
  {
    assert slots[..i + 1][..i] == slots[..i] && slots[..i + 1][i] == slots[i];
  }

  /** The slot numbers among `slots`. */
  function SlotNumbers(slots: seq<Slot>): (r: set<int>)
    ensures forall i :: 0 <= i < |slots| ==> slots[i].slotNumber in r
    ensures forall x :: x in r ==> exists i :: 0 <= i < |slots| && slots[i].slotNumber == x
  {
    if slots == [] then {}
    else
      var n := |slots| - 1;
      var pre := SlotNumbers(slots[..n]);
      assert forall i :: 0 <= i < n ==> slots[..n][i] == slots[i];
      pre + {slots[n].slotNumber}
  }

  /** Setup fails exactly when some slot's start time does not parse. */
  lemma {:induction false} JobTableDefinedIff(slots: seq<Slot>, reminderOf: Slot -> Option<Job>)
    ensures JobTable(slots, reminderOf).Some? <==> forall i :: 0 <= i < |slots| ==> reminderOf(slots[i]).Some?
  {
    if slots != [] {
      var n := |slots| - 1;
      JobTableDefinedIff(slots[..n], reminderOf);
      assert forall i :: 0 <= i < n ==> slots[..n][i] == slots[i];
    }
  }

  /** The ids of a successful setup: the morning job's and one per slot number, nothing else. */
  lemma {:induction false} JobTableKeys(slots: seq<Slot>, reminderOf: Slot -> Option<Job>)
    requires JobTable(slots, reminderOf).Some?
    ensures MorningId in JobTable(slots, reminderOf).value && JobTable(slots, reminderOf).value[MorningId] == MORNING_JOB
    ensures forall id :: id in JobTable(slots, reminderOf).value <==> (id == MorningId || (id.ReminderId? && id.slotNumber in SlotNumbers(slots)))
  {
    if slots != [] {
      var n := |slots| - 1;
      JobTableKeys(slots[..n], reminderOf);
    }
  }

  /**
   * The reminder job under a slot number is built from the last slot with
   * that number: a later slot with the same number replaces it.
   */
  lemma {:induction false} JobTableLastWins(slots: seq<Slot>, reminderOf: Slot -> Option<Job>, i: int)
    requires JobTable(slots, reminderOf).Some?
    requires 0 <= i < |slots|
    requires forall j :: i < j < |slots| ==> slots[j].slotNumber != slots[i].slotNumber
    ensures reminderOf(slots[i]).Some?
    ensures ReminderId(slots[i].slotNumber) in JobTable(slots, reminderOf).value
    ensures JobTable(slots, reminderOf).value[ReminderId(slots[i].slotNumber)] == reminderOf(slots[i]).value
  {
    var n := |slots| - 1;
    var pre := slots[..n];
    if i < n {
      assert pre[i] == slots[i];
      assert forall j :: i < j < |pre| ==> pre[j] == slots[j];
      JobTableLastWins(pre, reminderOf, i);
    }
  }

  /** Replacement by id: the table holds one job more than there are distinct slot numbers. */
  lemma {:induction false} JobCount(slots: seq<Slot>, reminderOf: Slot -> Option<Job>)
    requires JobTable(slots, reminderOf).Some?
    ensures |JobTable(slots, reminderOf).value| == 1 + |SlotNumbers(slots)|
  {
    if slots != [] {
      var n := |slots| - 1;
      var pre := slots[..n];
      var p := JobTable(pre, reminderOf).value;
      var num := slots[n].slotNumber;
      var m := JobTable(slots, reminderOf).value;
      assert m == p[ReminderId(num) := reminderOf(slots[n]).value];
      assert |p| == 1 + |SlotNumbers(pre)| by { JobCount(pre, reminderOf); }
      assert ReminderId(num) in p <==> num in SlotNumbers(pre) by { JobTableKeys(pre, reminderOf); }
      assert SlotNumbers(slots) == SlotNumbers(pre) + {num};
      if num in SlotNumbers(pre) {
        assert |m| == |p|;
        assert SlotNumbers(slots) == SlotNumbers(pre);
      } else {
        assert |m| == |p| + 1;
        assert |SlotNumbers(slots)| == |SlotNumbers(pre)| + 1;
      }
    }
  }

  /** Distinct slot numbers: one number per slot. */
  lemma {:induction false} DistinctSlotNumbers(slots: seq<Slot>)
    requires forall i, j :: 0 <= i < j < |slots| ==> slots[i].slotNumber != slots[j].slotNumber
    ensures |SlotNumbers(slots)| == |slots|
  {
    if slots != [] {
      var n := |slots| - 1;
      var pre := slots[..n];
      assert |SlotNumbers(pre)| == n by {
        assert forall i :: 0 <= i < n ==> pre[i] == slots[i];
        DistinctSlotNumbers(pre);
      }
      LastSlotNumberNew(slots);
      assert SlotNumbers(slots) == SlotNumbers(pre) + {slots[n].slotNumber};
    }
  }

  /** With distinct slot numbers the last slot's number is not among the earlier ones. */
  lemma LastSlotNumberNew(slots: seq<Slot>)
    requires slots != []
    requires forall i, j :: 0 <= i < j < |slots| ==> slots[i].slotNumber != slots[j].slotNumber
    ensures slots[|slots| - 1].slotNumber !in SlotNumbers(slots[..|slots| - 1])
  {
    var n := |slots| - 1;
    forall x | x in SlotNumbers(slots[..n])
      ensures x != slots[n].slotNumber
    {
      var i :| 0 <= i < n && slots[..n][i].slotNumber == x;
      assert slots[..n][i] == slots[i];
    }
  }

  /** With distinct slot numbers (the five seeded slots) there is one job per slot plus the morning job. */
  lemma JobCountDistinct(slots: seq<Slot>, reminderOf: Slot -> Option<Job>)
    requires JobTable(slots, reminderOf).Some?
    requires forall i, j :: 0 <= i < j < |slots| ==> slots[i].slotNumber != slots[j].slotNumber
    ensures |JobTable(slots, reminderOf).value| == 1 + |slots|
  {
    JobCount(slots, reminderOf);
    DistinctSlotNumbers(slots);
  }

  // ------------------------------------------------------------------ check script

  /**
   * The check script's reminder time: the minutes less `before`, and when
   * that is negative one hour borrowed, once, with no wrap of the hour.
   */
  function BorrowedTime(hours: int, minutes: int, before: int): TimeOfDay {
    var m := minutes - before;
    if m < 0 then TimeOfDay(hours - 1, m + 60) else TimeOfDay(hours, m)
  }

  /** Within one hour's borrow and on the same day, both computations agree. */
  lemma BorrowAgrees(start: TimeOfDay, before: int)
    requires ValidTime(start) && 0 <= before <= 60 && MinuteOfDay(start) >= before
    ensures ValidTime(BorrowedTime(start.hour, start.minute, before))
    ensures MinuteOfDay(BorrowedTime(start.hour, start.minute, before)) == MinuteOfDay(start) - before
  {
  }

  /** Before 01:00 the borrow yields hour -1, which no cron trigger accepts. */
  lemma BorrowNoWrapAtMidnight(minutes: int, before: int)
    requires 0 <= minutes < before <= 60
    ensures BorrowedTime(0, minutes, before).hour == -1
    ensures !ValidTime(BorrowedTime(0, minutes, before))
  {
  }

  /** The borrow with the hour wrapped to the previous day. */
  function BorrowedTimeWrapped(hours: int, minutes: int, before: int): TimeOfDay {
    var m := minutes - before;
    if m < 0 then TimeOfDay((hours - 1) % 24, m + 60) else TimeOfDay(hours, m)
  }

  /** With the wrap, the check script's time is the scheduler's for every valid start. */
  lemma BorrowWrappedAgrees(start: TimeOfDay, before: int)
    requires ValidTime(start) && 0 <= before <= 60
    ensures var w := BorrowedTimeWrapped(start.hour, start.minute, before);
      ValidTime(w) && (MinuteOfDay(w) + before - MinuteOfDay(start)) % MINUTES_PER_DAY == 0
  {
    var w := BorrowedTimeWrapped(start.hour, start.minute, before);
    if start.minute < before && start.hour == 0 {
      assert w == TimeOfDay(23, start.minute - before + 60);
      assert MinuteOfDay(w) + before - MinuteOfDay(start) == MINUTES_PER_DAY;
    } else {
      assert MinuteOfDay(w) + before - MinuteOfDay(start) == 0;
    }
  }

  /** The check script's job for slot id `slotId`: the morning one or `reminder_slot_{slotId}`. */
  datatype CheckJob = CheckMorning | CheckReminder(slotId: int, at: TimeOfDay)

  /**
   * The check script's trigger time for a slot: None when the start text
   * does not unpack into two integers or the borrowed time is no valid
   * cron time (the script raises).
   */
  function CheckTime(s: Slot): (r: Option<TimeOfDay>)
    ensures r.Some? ==> ValidTime(r.value)
  {
    var hm := ParseHourMinute(s.startTime);
    if hm.None? then None
    else
      var at := BorrowedTime(hm.value.0, hm.value.1, REMINDER_MINUTES_BEFORE);
      if ValidTime(at) then Some(at) else None
  }

  /** A slot starting in the first minutes after midnight makes the check script raise. */
  lemma CheckRejectsEarlySlot(s: Slot, minutes: int)
    requires ParseHourMinute(s.startTime) == Some((0, minutes))
    requires 0 <= minutes < REMINDER_MINUTES_BEFORE
    ensures CheckTime(s).None?
  {
    BorrowNoWrapAtMidnight(minutes, REMINDER_MINUTES_BEFORE);
  }

  /**
   * The check script's loop: the morning job, then one reminder job per
   * slot row in order, each at the time `timeOf` gives it (none is
   * replaced); false as soon as `timeOf` fails for a slot.
   */
  method AddCheckJobs(slots: seq<Slot>, timeOf: Slot -> Option<TimeOfDay>) returns (ok: bool, jobs: seq<CheckJob>)
    ensures ok <==> forall i :: 0 <= i < |slots| ==> timeOf(slots[i]).Some?
    ensures ok ==> |jobs| == 1 + |slots| && jobs[0] == CheckMorning
    ensures ok ==> forall i :: 0 <= i < |slots| ==> jobs[i + 1] == CheckReminder(slots[i].id, timeOf(slots[i]).value)
  {
    jobs := [CheckMorning];
    var i := 0;
    while i < |slots|
      invariant 0 <= i <= |slots|
      invariant forall k :: 0 <= k < i ==> timeOf(slots[k]).Some?
      invariant |jobs| == 1 + i && jobs[0] == CheckMorning
      invariant forall k :: 0 <= k < i ==> jobs[k + 1] == CheckReminder(slots[k].id, timeOf(slots[k]).value)
    {
      var at := timeOf(slots[i]);
      if at.None? {
        return false, jobs;
      }
      jobs := jobs + [CheckReminder(slots[i].id, at.value)];
      i := i + 1;
    }
    return true, jobs;
  }

  /**
   * The check script: its jobs, then success iff there are exactly six.
   * None when a start does not parse or a trigger is out of range (it
   * raises).
   */
  method CheckScheduler(slots: seq<Slot>) returns (r: Option<bool>, jobs: seq<CheckJob>)
    ensures r.Some? <==> forall i :: 0 <= i < |slots| ==> CheckTime(slots[i]).Some?
    ensures r.Some? ==> |jobs| == 1 + |slots| && jobs[0] == CheckMorning && r.value == (|slots| == 5)
    ensures r.Some? ==> forall i :: 0 <= i < |slots| ==> jobs[i + 1] == CheckReminder(slots[i].id, CheckTime(slots[i]).value)
  {
    var ok;
    ok, jobs := AddCheckJobs(slots, CheckTime);
    r := if ok then Some(|jobs| == 6) else None;
  }
}
