/**
 * The two scheduled jobs: the morning schedule to every active student
 * and the reminder before one time slot. Each walks its students one at a
 * time and writes at most one ledger row per student; a failure for one
 * student is recorded and the loop goes on.
 *
 * The environment is given as oracles indexed by the student's position
 * in the job's list: `queryError(i)` is the text of the exception the
 * schedule query raises for that student, if any; `outcome(i)` the
 * provider's answer to each send attempt; `writeOk(i)` whether the ledger
 * INSERT succeeds; `clock(i)` the database clock at that write.
 */
module Jobs {
  import opened Wrappers
  import opened Timezone
  import opened Models
  import opened Store
  import opened Ledger
  import opened UserQueries
  import opened PairQueries
  import opened Delivery

  /** The error text logged when every send attempt failed. */
  const FAILED_AFTER_RETRIES: string := "Failed after retries"

  /** One ledger row as the job asks for it; id and time come from the database. */
  datatype Entry = Entry(userId: int, messageType: MessageType, status: Status, errorMessage: Option<string>)

  /** What happened for one student: delivered, failed after retries, or an exception. */
  datatype Attempt = Delivered | Failed | Raised(message: string)

  /** The row for an attempt: 'sent', or 'error' with the failure text. The id logged is the Telegram id. */
  function EntryFor(tgId: int, messageType: MessageType, a: Attempt): (e: Entry)
    ensures e.userId == tgId && e.messageType == messageType
    ensures e.status == Sent <==> a == Delivered
    ensures a == Failed ==> e.errorMessage == Some(FAILED_AFTER_RETRIES)
    ensures a.Raised? ==> e.errorMessage == Some(a.message)
    ensures a == Delivered ==> e.errorMessage.None?
  {
    match a
    case Delivered => Entry(tgId, messageType, Sent, None)
    case Failed => Entry(tgId, messageType, Error, Some(FAILED_AFTER_RETRIES))
    case Raised(m) => Entry(tgId, messageType, Error, Some(m))
  }

  /** The result of a send with the default retry budget. */
  function SendAttempt(outcome: nat -> Outcome): Attempt {
    if RetryFrom(outcome, MAX_RETRIES, 0).sent then Delivered else Failed
  }

  // ------------------------------------------------------------------ ledger runs

  /**
   * The tables after a job's writes: position `i` asks for its row, if any,
   * and the write succeeds when `writeOk(i)`.
   */
  function Run(t: Tables, entries: seq<Option<Entry>>, writeOk: nat -> bool, clock: nat -> Instant): Tables
  {
    if entries == [] then t
    else
      var n := |entries| - 1;
      var prev := Run(t, entries[..n], writeOk, clock);
      match entries[n]
      case None => prev
      case Some(e) => if writeOk(n) then Logged(prev, e.userId, e.messageType, e.status, e.errorMessage, clock(n)) else prev
  }

  /** The rows asked for, in order. */
  function Requested(entries: seq<Option<Entry>>): (r: seq<Entry>)
    ensures |r| <= |entries|
  {
    if entries == [] then []
    else
      var n := |entries| - 1;
      Requested(entries[..n]) + (if entries[n].Some? then [entries[n].value] else [])
  }

  /** Number of positions whose row was asked for and written. */
  function Written(entries: seq<Option<Entry>>, writeOk: nat -> bool): (k: nat)
    ensures k <= |Requested(entries)|
  {
    if entries == [] then 0
    else
      var n := |entries| - 1;
      Written(entries[..n], writeOk) + (if entries[n].Some? && writeOk(n) then 1 else 0)
  }

  /** Rows asked for with the given status. */
  function CountStatus(entries: seq<Option<Entry>>, status: Status): (k: nat)
    ensures k <= |Requested(entries)|
  {
    if entries == [] then 0
    else
      var n := |entries| - 1;
      CountStatus(entries[..n], status) + (if entries[n].Some? && entries[n].value.status == status then 1 else 0)
  }

  /** Every requested row is 'sent' or 'error'. */
  lemma {:induction false} StatusCountsAddUp(entries: seq<Option<Entry>>)
    ensures CountStatus(entries, Sent) + CountStatus(entries, Error) == |Requested(entries)|
  {
    if entries != [] {
      StatusCountsAddUp(entries[..|entries| - 1]);
    }
  }

  /** One more position: its row, if asked for and written, follows the earlier ones. */
  lemma RunSnoc(t: Tables, entries: seq<Option<Entry>>, i: nat, writeOk: nat -> bool, clock: nat -> Instant)
    requires i < |entries|
    ensures var prev := Run(t, entries[..i], writeOk, clock);
      Run(t, entries[..i + 1], writeOk, clock)
      == if entries[i].Some? && writeOk(i)
         then Logged(prev, entries[i].value.userId, entries[i].value.messageType, entries[i].value.status,
                     entries[i].value.errorMessage, clock(i))
         else prev
    ensures forall s :: CountStatus(entries[..i + 1], s)
                        == CountStatus(entries[..i], s) + (if entries[i].Some? && entries[i].value.status == s then 1 else 0)
  {
    var p := entries[..i + 1];
    assert p[..i] == entries[..i];
    assert p[i] == entries[i];
  }

  function EntryOf(row: LogRow): Entry {
    Entry(row.userId, row.messageType, row.status, row.errorMessage)
  }

  /**
   * A job only appends to the ledger: the other tables are unchanged, the
   * old rows stay in place, one row is added per successful write, and
   * never more than one per position.
   */
  lemma {:induction false} RunAppendsOnly(t: Tables, entries: seq<Option<Entry>>, writeOk: nat -> bool, clock: nat -> Instant)
    ensures var r := Run(t, entries, writeOk, clock);
      && r.users == t.users && r.directions == t.directions && r.slots == t.slots
      && r.pairs == t.pairs && r.assignments == t.assignments && r.payments == t.payments
      && |r.deliveryLog| == |t.deliveryLog| + Written(entries, writeOk)
      && r.deliveryLog[..|t.deliveryLog|] == t.deliveryLog
      && r.nextId == t.nextId + Written(entries, writeOk)
  {
    if entries != [] {
      var n := |entries| - 1;
      RunAppendsOnly(t, entries[..n], writeOk, clock);
      var prev := Run(t, entries[..n], writeOk, clock);
      if entries[n].Some? && writeOk(n) {
        var r := Run(t, entries, writeOk, clock);
        assert r.deliveryLog[..|prev.deliveryLog|] == prev.deliveryLog;
        assert r.deliveryLog[..|t.deliveryLog|] == prev.deliveryLog[..|t.deliveryLog|];
      }
    }
  }

  /** When every write succeeds, the new ledger rows are exactly the requested ones, in order. */
  lemma {:induction false} RunRowsInOrder(t: Tables, entries: seq<Option<Entry>>, writeOk: nat -> bool, clock: nat -> Instant)
    requires forall i :: 0 <= i < |entries| ==> writeOk(i)
    ensures var r := Run(t, entries, writeOk, clock);
      && |r.deliveryLog| == |t.deliveryLog| + |Requested(entries)|
      && forall k :: 0 <= k < |Requested(entries)| ==> EntryOf(r.deliveryLog[|t.deliveryLog| + k]) == Requested(entries)[k]
  {
    if entries != [] {
      var n := |entries| - 1;
      var pre := entries[..n];
      assert forall i :: 0 <= i < |pre| ==> writeOk(i);
      RunRowsInOrder(t, pre, writeOk, clock);
      var prev := Run(t, pre, writeOk, clock);
      var r := Run(t, entries, writeOk, clock);
      if entries[n].Some? {
        forall k | 0 <= k < |Requested(entries)|
          ensures EntryOf(r.deliveryLog[|t.deliveryLog| + k]) == Requested(entries)[k]
        {
          if k < |Requested(pre)| {
            assert r.deliveryLog[..|prev.deliveryLog|] == prev.deliveryLog;
            assert r.deliveryLog[|t.deliveryLog| + k] == prev.deliveryLog[|t.deliveryLog| + k];
          }
        }
      }
    }
  }

  // ------------------------------------------------------------------ morning

  /** The morning row of one student: the exception's text, or the send's result. */
  function MorningEntry(u: User, i: nat, queryError: nat -> Option<string>, outcome: nat -> nat -> Outcome): (e: Entry)
    ensures e.userId == u.tgId && e.messageType == Morning
  {
    EntryFor(u.tgId, Morning, if queryError(i).Some? then Raised(queryError(i).value) else SendAttempt(outcome(i)))
  }

  /** The rows of the morning job: one per active student, in order. */
  function MorningEntries(users: seq<User>, queryError: nat -> Option<string>, outcome: nat -> nat -> Outcome)
    : (r: seq<Option<Entry>>)
    ensures |r| == |users|
    ensures forall i :: 0 <= i < |r| ==> r[i].Some? && r[i].value.userId == users[i].tgId && r[i].value.messageType == Morning
  {
    seq(|users|, i requires 0 <= i < |users| => Some(MorningEntry(users[i], i, queryError, outcome)))
  }

  /** Every position of the morning job asks for a row. */
  lemma {:induction false} AllRequested(entries: seq<Option<Entry>>)
    requires forall i :: 0 <= i < |entries| ==> entries[i].Some?
    ensures |Requested(entries)| == |entries|
    ensures forall k :: 0 <= k < |entries| ==> Requested(entries)[k] == entries[k].value
  {
    if entries != [] {
      var n := |entries| - 1;
      AllRequested(entries[..n]);
    }
  }

  /**
   * Logging one position's row, if any, and counting it: the step both jobs
   * take after handling a student.
   */
  method Record(db: Database, ghost t0: Tables, ghost entries: seq<Option<Entry>>, i: nat, e: Option<Entry>,
                writeOk: nat -> bool, clock: nat -> Instant, successful: nat, errors: nat)
    returns (successful': nat, errors': nat)
    requires i < |entries| && entries[i] == e
    requires db.tables == Run(t0, entries[..i], writeOk, clock)
    requires successful == CountStatus(entries[..i], Sent) && errors == CountStatus(entries[..i], Error)
    modifies db
    ensures db.tables == Run(t0, entries[..i + 1], writeOk, clock)
    ensures successful' == CountStatus(entries[..i + 1], Sent) && errors' == CountStatus(entries[..i + 1], Error)
  {
    RunSnoc(t0, entries, i, writeOk, clock);
    successful', errors' := successful, errors;
    if e.Some? {
      LogDelivery(db, e.value.userId, e.value.messageType, e.value.status, e.value.errorMessage, clock(i), writeOk(i));
      if e.value.status == Sent {
        successful' := successful + 1;
      } else {
        errors' := errors + 1;
      }
    }
  }

  /** The morning job's handling of one student, up to the ledger write. */
  method MorningStep(t0: Tables, u: User, i: nat, today: int,
                     queryError: nat -> Option<string>, outcome: nat -> nat -> Outcome) returns (e: Entry)
    ensures e == MorningEntry(u, i, queryError, outcome)
  {
    if queryError(i).Some? {
      return EntryFor(u.tgId, Morning, Raised(queryError(i).value));
    }
    var _ := PairsForDay(t0, u.directionId, today);
    var r := SendWithRetry(outcome(i), None);
    e := EntryFor(u.tgId, Morning, if r.sent then Delivered else Failed);
  }

  /**
   * `morning_schedule_job`. When the list of active students cannot be read
   * the job logs the failure and writes nothing; otherwise each active
   * student, in list order, gets one attempt at the default retry budget
   * and one 'morning' row. The counters are those the job logs at the end.
   */
  method MorningJob(db: Database, now: Instant, today: int, fetchOk: bool,
                    queryError: nat -> Option<string>, outcome: nat -> nat -> Outcome,
                    writeOk: nat -> bool, clock: nat -> Instant)
    returns (successful: nat, errors: nat)
    modifies db
    ensures var entries := MorningEntries(ActiveUsers(old(db.tables.users), now), queryError, outcome);
      && db.tables == (if fetchOk then Run(old(db.tables), entries, writeOk, clock) else old(db.tables))
      && successful == (if fetchOk then CountStatus(entries, Sent) else 0)
      && errors == (if fetchOk then CountStatus(entries, Error) else 0)
  {
    successful, errors := 0, 0;
    if !fetchOk {
      return;
    }
    var t0 := db.tables;
    var users := ActiveUsers(t0.users, now);
    ghost var entries := MorningEntries(users, queryError, outcome);
    if users == [] {
      return;
    }
    var i := 0;
    while i < |users|
      invariant 0 <= i <= |users|
      invariant db.tables == Run(t0, entries[..i], writeOk, clock)
      invariant successful == CountStatus(entries[..i], Sent)
      invariant errors == CountStatus(entries[..i], Error)
    {
      var e := MorningStep(t0, users[i], i, today, queryError, outcome);
      successful, errors := Record(db, t0, entries, i, Some(e), writeOk, clock, successful, errors);
      i := i + 1;
    }
    assert entries[..i] == entries;
  }

  /**
   * With every write succeeding the morning job adds exactly one row per
   * active student, in list order, carrying that student's Telegram id; the
   * counters add up to the number of active students.
   */
  lemma MorningOneRowPerUser(t: Tables, now: Instant, queryError: nat -> Option<string>,
                             outcome: nat -> nat -> Outcome, writeOk: nat -> bool, clock: nat -> Instant)
    requires forall i :: 0 <= i < |ActiveUsers(t.users, now)| ==> writeOk(i)
    ensures var users := ActiveUsers(t.users, now);
      var entries := MorningEntries(users, queryError, outcome);
      var r := Run(t, entries, writeOk, clock);
      && |r.deliveryLog| == |t.deliveryLog| + |users|
      && (forall k :: 0 <= k < |users| ==>
            r.deliveryLog[|t.deliveryLog| + k].userId == users[k].tgId
            && r.deliveryLog[|t.deliveryLog| + k].messageType == Morning)
      && CountStatus(entries, Sent) + CountStatus(entries, Error) == |users|
  {
    var users := ActiveUsers(t.users, now);
    var entries := MorningEntries(users, queryError, outcome);
    AllRequested(entries);
    RunRowsInOrder(t, entries, writeOk, clock);
    StatusCountsAddUp(entries);
    var r := Run(t, entries, writeOk, clock);
    forall k | 0 <= k < |users|
      ensures r.deliveryLog[|t.deliveryLog| + k].userId == users[k].tgId
      ensures r.deliveryLog[|t.deliveryLog| + k].messageType == Morning
    {
      assert EntryOf(r.deliveryLog[|t.deliveryLog| + k]) == entries[k].value;
    }
  }

  // ------------------------------------------------------------------ reminders

  /** Active students with reminders on, in the order of the active list. */
  function Candidates(users: seq<User>, now: Instant): (r: seq<User>)
    ensures forall u :: u in r <==> u in users && IsActive(u, now) && u.remindBefore
    ensures forall u :: multiset(r)[u] == if IsActive(u, now) && u.remindBefore then multiset(users)[u] else 0
  {
    FilterCount(ActiveUsers(users, now), (u: User) => u.remindBefore);
    Filter(ActiveUsers(users, now), (u: User) => u.remindBefore)
  }

  /** The first class of the list, from position `i` on, that starts at `start`. */
  function FirstFrom(pairs: seq<Scheduled>, start: string, i: nat): (r: Option<nat>)
    decreases |pairs| - i
    ensures r.Some? ==> i <= r.value < |pairs| && pairs[r.value].startTime == start
                        && forall j :: i <= j < r.value ==> pairs[j].startTime != start
    ensures r.None? ==> forall j :: i <= j < |pairs| ==> pairs[j].startTime != start
  {
    if i >= |pairs| then None
    else if pairs[i].startTime == start then Some(i)
    else FirstFrom(pairs, start, i + 1)
  }

  /** The search loop with `break`: the first class whose start text equals the slot's. */
  method FindMatching(pairs: seq<Scheduled>, start: string) returns (m: Option<nat>)
    ensures m == FirstFrom(pairs, start, 0)
  {
    var i := 0;
    while i < |pairs|
      invariant 0 <= i <= |pairs|
      invariant FirstFrom(pairs, start, i) == FirstFrom(pairs, start, 0)
    {
      if pairs[i].startTime == start {
        return Some(i);
      }
      i := i + 1;
    }
    return None;
  }

  /**
   * The row for the reminder of position `i`: an exception row when the
   * schedule query raises, nothing when no class of today starts at the
   * slot's time, and the send's result otherwise.
   */
  function ReminderEntry(t: Tables, u: User, i: nat, slotStart: string, today: int,
                         queryError: nat -> Option<string>, outcome: nat -> nat -> Outcome): (r: Option<Entry>)
    ensures r.Some? ==> r.value.userId == u.tgId && r.value.messageType == Reminder
    ensures r.None? <==> queryError(i).None? && FirstFrom(PairsForDay(t, u.directionId, today), slotStart, 0).None?
  {
    if queryError(i).Some? then Some(EntryFor(u.tgId, Reminder, Raised(queryError(i).value)))
    else if FirstFrom(PairsForDay(t, u.directionId, today), slotStart, 0).None? then None
    else Some(EntryFor(u.tgId, Reminder, SendAttempt(outcome(i))))
  }

  function ReminderEntries(t: Tables, users: seq<User>, slotStart: string, today: int,
                           queryError: nat -> Option<string>, outcome: nat -> nat -> Outcome): (r: seq<Option<Entry>>)
    ensures |r| == |users|
  {
    seq(|users|, i requires 0 <= i < |users| => ReminderEntry(t, users[i], i, slotStart, today, queryError, outcome))
  }

  /** The reminder job's handling of one student, up to the ledger write. */
  method ReminderStep(t0: Tables, u: User, i: nat, slotStart: string, today: int,
                      queryError: nat -> Option<string>, outcome: nat -> nat -> Outcome) returns (e: Option<Entry>)
    ensures e == ReminderEntry(t0, u, i, slotStart, today, queryError, outcome)
  {
    if queryError(i).Some? {
      return Some(EntryFor(u.tgId, Reminder, Raised(queryError(i).value)));
    }
    var pairs := PairsForDay(t0, u.directionId, today);
    var m := FindMatching(pairs, slotStart);
    if m.None? {
      return None;
    }
    var r := SendWithRetry(outcome(i), None);
    e := Some(EntryFor(u.tgId, Reminder, if r.sent then Delivered else Failed));
  }

  /**
   * `reminder_job` for the slot starting at `slotStart`: like the morning
   * job over the candidates, except that a student with no class at that
   * time is skipped without a row.
   */
  method ReminderJob(db: Database, slotStart: string, now: Instant, today: int, fetchOk: bool,
                     queryError: nat -> Option<string>, outcome: nat -> nat -> Outcome,
                     writeOk: nat -> bool, clock: nat -> Instant)
    returns (successful: nat, errors: nat)
    modifies db
    ensures var entries := ReminderEntries(old(db.tables), Candidates(old(db.tables.users), now), slotStart, today,
                                           queryError, outcome);
      && db.tables == (if fetchOk then Run(old(db.tables), entries, writeOk, clock) else old(db.tables))
      && successful == (if fetchOk then CountStatus(entries, Sent) else 0)
      && errors == (if fetchOk then CountStatus(entries, Error) else 0)
  {
    successful, errors := 0, 0;
    if !fetchOk {
      return;
    }
    var t0 := db.tables;
    var users := Candidates(t0.users, now);
    ghost var entries := ReminderEntries(t0, users, slotStart, today, queryError, outcome);
    if users == [] {
      return;
    }
    var i := 0;
    while i < |users|
      invariant 0 <= i <= |users|
      invariant db.tables == Run(t0, entries[..i], writeOk, clock)
      invariant successful == CountStatus(entries[..i], Sent)
      invariant errors == CountStatus(entries[..i], Error)
    {
      var e := ReminderStep(t0, users[i], i, slotStart, today, queryError, outcome);
      successful, errors := Record(db, t0, entries, i, e, writeOk, clock, successful, errors);
      i := i + 1;
    }
    assert entries[..i] == entries;
  }

  /**
   * A reminder row goes to a student exactly when the schedule query
   * raised or a class of today starts at the slot's time; rows carry the
   * Telegram id, and nobody outside the candidates is involved.
   */
  lemma ReminderRowsOnlyForMatches(t: Tables, users: seq<User>, slotStart: string, today: int,
                                   queryError: nat -> Option<string>, outcome: nat -> nat -> Outcome, i: nat)
    requires i < |users|
    ensures var e := ReminderEntries(t, users, slotStart, today, queryError, outcome)[i];
      && (e.Some? <==> queryError(i).Some?
                       || exists j :: 0 <= j < |PairsForDay(t, users[i].directionId, today)|
                                      && PairsForDay(t, users[i].directionId, today)[j].startTime == slotStart)
      && (e.Some? ==> e.value.userId == users[i].tgId && e.value.messageType == Reminder)
  {
    var pairs := PairsForDay(t, users[i].directionId, today);
    var m := FirstFrom(pairs, slotStart, 0);
    if m.Some? {
      assert pairs[m.value].startTime == slotStart;
    }
  }

  /** With no candidate the reminder job writes nothing. */
  lemma NoCandidatesNoRows(t: Tables, now: Instant, slotStart: string, today: int, queryError: nat -> Option<string>,
                           outcome: nat -> nat -> Outcome, writeOk: nat -> bool, clock: nat -> Instant)
    requires Candidates(t.users, now) == []
    ensures Run(t, ReminderEntries(t, Candidates(t.users, now), slotStart, today, queryError, outcome), writeOk, clock) == t
  {
  }
}
