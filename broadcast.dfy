/**
 * The admin broadcast: the target of a message (everyone, one course or
 * one direction), the recipients it selects, the send loop with one
 * attempt and one ledger row per recipient and a short pause after every
 * thirtieth message, and the recipient count shown before sending.
 *
 * The environment is given as oracles indexed by the recipient's
 * position: `sendError(i)` is the text of the exception the send raises,
 * if any, and `clock(i)` the wall clock when its ledger row is written.
 */
module Broadcast {
  import opened Wrappers
  import opened Text
  import opened Timezone
  import opened Models
  import opened Store
  import opened Sorting
  import opened Ledger
  import opened UserQueries

  // ------------------------------------------------------------------ targets

  const COURSE_PREFIX: string := "course_"
  const DIRECTION_PREFIX: string := "direction_"

  /** The filters a target asks for: a course, a direction, or neither. */
  datatype Audience = Audience(course: Option<int>, directionId: Option<int>)

  /**
   * The target parsing of `send_broadcast` and `get_user_count`: every
   * occurrence of the prefix is removed and the rest read with `int()`.
   * None is the ValueError `int()` raises, which ends the request.
   */
  function ParseTarget(target: string): (r: Option<Audience>)
    ensures r.Some? ==> r.value.course.None? || r.value.directionId.None?
    ensures r.Some? && r.value.course.Some? ==> StartsWith(target, COURSE_PREFIX)
    ensures r.Some? && r.value.directionId.Some? ==> StartsWith(target, DIRECTION_PREFIX) && !StartsWith(target, COURSE_PREFIX)
    ensures !StartsWith(target, COURSE_PREFIX) && !StartsWith(target, DIRECTION_PREFIX) ==> r == Some(Audience(None, None))
  {
    if StartsWith(target, COURSE_PREFIX) then
      match ParseInt(ReplaceAll(target, COURSE_PREFIX, ""))
      case None => None
      case Some(n) => Some(Audience(Some(n), None))
    else if StartsWith(target, DIRECTION_PREFIX) then
      match ParseInt(ReplaceAll(target, DIRECTION_PREFIX, ""))
      case None => None
      case Some(n) => Some(Audience(None, Some(n)))
    else Some(Audience(None, None))
  }

  /** A run of digits does not hold a word that starts with something else. */
  lemma DigitsLackWord(d: string, w: string)
    requires AllDigits(d) && w != [] && !IsDigit(w[0])
    ensures !Contains(d, w)
  {
    forall k: nat | k <= |d|
      ensures !OccursAt(d, w, k)
    {
      if k + |w| <= |d| {
        assert d[k..k + |w|][0] == d[k];
      }
    }
  }

  /** Removing a prefix that cannot occur again leaves the number that followed it. */
  lemma StripPrefixOfNumber(prefix: string, n: nat)
    requires prefix != [] && !IsDigit(prefix[0])
    ensures var s := prefix + NatToString(n);
      StartsWith(s, prefix) && ParseInt(ReplaceAll(s, prefix, "")) == Some(n)
  {
    var d := NatToString(n);
    var s := prefix + d;
    assert s[..|prefix|] == prefix && s[|prefix|..] == d;
    DigitsLackWord(d, prefix);
    ReplaceAllAbsent(d, prefix, "");
    assert ReplaceAll(s, prefix, "") == d;
    ParseIntOfNatToString(n);
  }

  /** `course_N` selects course N. */
  lemma CourseTargetRoundTrip(n: nat)
    ensures ParseTarget(COURSE_PREFIX + NatToString(n)) == Some(Audience(Some(n), None))
  {
    StripPrefixOfNumber(COURSE_PREFIX, n);
  }

  /** `direction_N` selects direction N. */
  lemma DirectionTargetRoundTrip(n: nat)
    ensures ParseTarget(DIRECTION_PREFIX + NatToString(n)) == Some(Audience(None, Some(n)))
  {
    var s := DIRECTION_PREFIX + NatToString(n);
    StripPrefixOfNumber(DIRECTION_PREFIX, n);
    FirstCharDecides(s, COURSE_PREFIX);
  }

  /** A text whose first character differs from a word's does not start with it. */
  lemma FirstCharDecides(s: string, w: string)
    requires s != [] && w != [] && s[0] != w[0]
    ensures !StartsWith(s, w)
  {
    if |w| <= |s| {
      assert s[..|w|][0] == s[0];
    }
  }

  // ------------------------------------------------------------------ recipients

  /** One recipient as `get_users_by_filter` returns it. */
  datatype Recipient = Recipient(id: int, tgId: int, name: string, directionName: string, course: int)

  /** Python truthiness of an optional number: present and not zero. */
  predicate Truthy(v: Option<int>) { v.Some? && v.value != 0 }

  /**
   * A student receives the broadcast when the student's direction exists
   * (the inner join), the student is not paused, and the student matches
   * each filter that is given and not zero.
   */
  predicate Eligible(t: Tables, u: User, a: Audience, now: Instant) {
    var d := FindDirection(t.directions, u.directionId);
    && d.Some?
    && IsActive(u, now)
    && (Truthy(a.course) ==> d.value.course == a.course.value)
    && (Truthy(a.directionId) ==> u.directionId == a.directionId.value)
  }

  function RecipientOf(t: Tables, u: User): Recipient
    requires FindDirection(t.directions, u.directionId).Some?
  {
    var d := FindDirection(t.directions, u.directionId).value;
    Recipient(UserId(u), u.tgId, u.name, d.name, d.course)
  }

  /** The eligible students of `users`, in table order. */
  function Candidates(t: Tables, users: seq<User>, a: Audience, now: Instant): (r: seq<Recipient>)
    ensures |r| <= |users|
    ensures forall x :: x in r <==> exists u :: u in users && Eligible(t, u, a, now) && x == RecipientOf(t, u)
  {
    if users == [] then []
    else
      var rest := Candidates(t, users[1..], a, now);
      assert forall u :: u in users <==> u == users[0] || u in users[1..];
      (if Eligible(t, users[0], a, now) then [RecipientOf(t, users[0])] else []) + rest
  }

  /** `ORDER BY u.name`. */
  predicate NameLe(x: Recipient, y: Recipient) { LexLe(x.name, y.name) }

  lemma NameLeOrders()
    ensures TotalPreorder(NameLe)
  {
    forall x: Recipient, y: Recipient
      ensures NameLe(x, y) || NameLe(y, x)
    {
      LexLeTotal(x.name, y.name);
    }
    forall x: Recipient, y: Recipient, z: Recipient | NameLe(x, y) && NameLe(y, z)
      ensures NameLe(x, z)
    {
      LexLeTrans(x.name, y.name, z.name);
    }
  }

  /** `get_users_by_filter`: the eligible students, ordered by name. */
  function UsersByFilter(t: Tables, a: Audience, now: Instant): seq<Recipient> {
    Sort(Candidates(t, t.users, a, now), NameLe)
  }

  /**
   * The recipients are ordered by name, and they are exactly the eligible
   * students: paused students and students whose direction is gone never
   * receive the message.
   */
  lemma UsersByFilterSelects(t: Tables, a: Audience, now: Instant)
    ensures SortedBy(UsersByFilter(t, a, now), NameLe)
    ensures |UsersByFilter(t, a, now)| <= |t.users|
    ensures forall x :: x in UsersByFilter(t, a, now) <==>
      exists u :: u in t.users && Eligible(t, u, a, now) && x == RecipientOf(t, u)
  {
    var c := Candidates(t, t.users, a, now);
    NameLeOrders();
    SortSorted(c, NameLe);
    forall x
      ensures x in UsersByFilter(t, a, now) <==> x in c
    {
      SortSameElements(c, NameLe, x);
    }
  }

  /** No two recipients share a Telegram id. */
  predicate DistinctChats(rs: seq<Recipient>) {
    forall i, j :: 0 <= i < j < |rs| ==> rs[i].tgId != rs[j].tgId
  }

  /** Students with distinct Telegram ids yield recipients with distinct Telegram ids. */
  lemma {:induction false} CandidatesDistinct(t: Tables, users: seq<User>, a: Audience, now: Instant)
    requires forall i, j :: 0 <= i < j < |users| ==> users[i].tgId != users[j].tgId
    ensures DistinctChats(Candidates(t, users, a, now))
  {
    if users != [] {
      var rest := Candidates(t, users[1..], a, now);
      CandidatesDistinct(t, users[1..], a, now);
      forall x | x in rest
        ensures x.tgId != users[0].tgId
      {
        var u :| u in users[1..] && Eligible(t, u, a, now) && x == RecipientOf(t, u);
        var k :| 0 <= k < |users[1..]| && users[1..][k] == u;
        assert users[k + 1] == u;
      }
      if Eligible(t, users[0], a, now) {
        var r := [RecipientOf(t, users[0])] + rest;
        forall i, j | 0 <= i < j < |r|
          ensures r[i].tgId != r[j].tgId
        {
          if i == 0 {
            assert r[j] == rest[j - 1];
          } else {
            assert r[i] == rest[i - 1] && r[j] == rest[j - 1];
          }
        }
      }
    }
  }

  /** Recipients with distinct Telegram ids hold no recipient twice. */
  lemma {:induction false} DistinctChatsOnce(rs: seq<Recipient>, x: Recipient)
    requires DistinctChats(rs)
    ensures multiset(rs)[x] <= 1
  {
    if rs != [] {
      assert rs == [rs[0]] + rs[1..];
      DistinctChatsOnce(rs[1..], x);
      if x == rs[0] {
        forall k | 0 <= k < |rs[1..]|
          ensures rs[1..][k] != x
        {
          assert rs[1..][k] == rs[k + 1];
        }
        assert x !in rs[1..];
      }
    }
  }

  /**
   * In a consistent database (no Telegram id registered twice) the
   * broadcast reaches each eligible student exactly once and nobody twice.
   */
  lemma EachRecipientOnce(t: Tables, a: Audience, now: Instant)
    requires Valid(t)
    ensures forall x :: multiset(UsersByFilter(t, a, now))[x] <= 1
    ensures forall u :: u in t.users && Eligible(t, u, a, now) ==> multiset(UsersByFilter(t, a, now))[RecipientOf(t, u)] == 1
  {
    var c := Candidates(t, t.users, a, now);
    CandidatesDistinct(t, t.users, a, now);
    forall x
      ensures multiset(UsersByFilter(t, a, now))[x] <= 1
    {
      DistinctChatsOnce(c, x);
    }
    forall u | u in t.users && Eligible(t, u, a, now)
      ensures multiset(UsersByFilter(t, a, now))[RecipientOf(t, u)] == 1
    {
      DistinctChatsOnce(c, RecipientOf(t, u));
      assert RecipientOf(t, u) in c;
    }
  }

  /** A course or direction of 0 is no filter at all: everyone is addressed. */
  lemma {:induction false} ZeroFilterIsEveryone(t: Tables, users: seq<User>, now: Instant)
    ensures Candidates(t, users, Audience(Some(0), None), now) == Candidates(t, users, Audience(None, None), now)
    ensures Candidates(t, users, Audience(None, Some(0)), now) == Candidates(t, users, Audience(None, None), now)
  {
    if users != [] {
      ZeroFilterIsEveryone(t, users[1..], now);
    }
  }

  // ------------------------------------------------------------------ sending

  /** Messages after which the loop pauses: every thirtieth. */
  const PAUSE_EVERY: nat := 30

  /** The tables after the ledger rows of the first `|rs|` recipients. */
  function BroadcastRun(t: Tables, rs: seq<Recipient>, sendError: nat -> Option<string>, clock: nat -> Instant): Tables {
    if rs == [] then t
    else
      var n := |rs| - 1;
      Logged(BroadcastRun(t, rs[..n], sendError, clock), rs[n].id, Broadcast,
             if sendError(n).None? then Sent else Error, sendError(n), clock(n))
  }

  /** One more recipient appends that recipient's row. */
  lemma BroadcastRunStep(t: Tables, rs: seq<Recipient>, i: nat, sendError: nat -> Option<string>, clock: nat -> Instant)
    requires i < |rs|
    ensures BroadcastRun(t, rs[..i + 1], sendError, clock)
      == Logged(BroadcastRun(t, rs[..i], sendError, clock), rs[i].id, Broadcast,
                if sendError(i).None? then Sent else Error, sendError(i), clock(i))
  {
    assert rs[..i + 1][..i] == rs[..i];
  }

  /** The number of the first `n` sends that raised nothing. */
  function SentCount(n: nat, sendError: nat -> Option<string>): (k: nat)
    ensures k <= n
  {
    if n == 0 then 0 else SentCount(n - 1, sendError) + (if sendError(n - 1).None? then 1 else 0)
  }

  /** One more recipient counts once more exactly when that send went through. */
  lemma SentCountStep(n: nat, sendError: nat -> Option<string>)
    ensures SentCount(n + 1, sendError) == SentCount(n, sendError) + (if sendError(n).None? then 1 else 0)
  {
  }

  /**
   * The ledger after a broadcast: the earlier rows untouched, then exactly
   * one 'broadcast' row per recipient in order, carrying the student's row
   * id, 'sent' exactly when the send raised nothing and otherwise 'error'
   * with the exception's text. Nothing but the ledger changes.
   */
  lemma {:induction false} BroadcastRunRows(t: Tables, rs: seq<Recipient>, sendError: nat -> Option<string>, clock: nat -> Instant)
    ensures var r := BroadcastRun(t, rs, sendError, clock);
      && |r.deliveryLog| == |t.deliveryLog| + |rs|
      && r.deliveryLog[..|t.deliveryLog|] == t.deliveryLog
      && r.users == t.users && r.directions == t.directions && r.slots == t.slots
      && r.pairs == t.pairs && r.assignments == t.assignments && r.payments == t.payments
    ensures forall i :: 0 <= i < |rs| ==>
      var row := BroadcastRun(t, rs, sendError, clock).deliveryLog[|t.deliveryLog| + i];
      && row.userId == rs[i].id && row.messageType == Broadcast
      && (row.status == Sent <==> sendError(i).None?)
      && row.errorMessage == sendError(i) && row.deliveredAt == clock(i)
  {
    if rs != [] {
      var n := |rs| - 1;
      var front := rs[..n];
      BroadcastRunRows(t, front, sendError, clock);
      var prev := BroadcastRun(t, front, sendError, clock);
      var r := BroadcastRun(t, rs, sendError, clock);
      assert r.deliveryLog[..|prev.deliveryLog|] == prev.deliveryLog;
      assert r.deliveryLog[..|t.deliveryLog|] == prev.deliveryLog[..|t.deliveryLog|];
    }
  }

  /** Among the broadcast's rows, the 'sent' ones are the successful sends. */
  lemma {:induction false} SentCountIsSentRows(rs: seq<Recipient>, sendError: nat -> Option<string>)
    ensures SentCount(|rs|, sendError) == |set i | 0 <= i < |rs| && sendError(i).None?|
  {
    if rs != [] {
      var n := |rs| - 1;
      SentCountIsSentRows(rs[..n], sendError);
      var before := set i | 0 <= i < n && sendError(i).None?;
      var after := set i | 0 <= i < |rs| && sendError(i).None?;
      if sendError(n).None? {
        assert after == before + {n};
      } else {
        assert after == before;
      }
    }
  }

  /** `(i + 1) % 30 == 0` holds once per thirty messages. */
  lemma PauseStep(i: nat)
    ensures (i + 1) / PAUSE_EVERY == i / PAUSE_EVERY + (if (i + 1) % PAUSE_EVERY == 0 then 1 else 0)
  {
  }

  /** The answer of `send_broadcast`: the no-users error, or the two counters. */
  datatype Redirect = NoUsers | Summary(successful: nat, errors: nat)

  /** `log_broadcast_delivery`: one 'broadcast' row with the time given. */
  method LogBroadcastDelivery(db: Database, userId: int, status: Status, errorMessage: Option<string>, at: Instant)
    modifies db
    ensures db.tables == Logged(old(db.tables), userId, Broadcast, status, errorMessage, at)
  {
    db.tables := Logged(db.tables, userId, Broadcast, status, errorMessage, at);
  }

  /**
   * One pass of the send loop: the send to recipient `i` and its ledger
   * row, 'sent' or 'error' with the exception's text, and the counter it
   * bumps.
   */
  method SendOne(db: Database, ghost t0: Tables, users: seq<Recipient>, i: nat, sendError: nat -> Option<string>,
                 clock: nat -> Instant, successful0: nat, errors0: nat) returns (successful: nat, errors: nat)
    requires i < |users|
    requires db.tables == BroadcastRun(t0, users[..i], sendError, clock)
    requires successful0 == SentCount(i, sendError) && successful0 + errors0 == i
    modifies db
    ensures db.tables == BroadcastRun(t0, users[..i + 1], sendError, clock)
    ensures successful == SentCount(i + 1, sendError) && successful + errors == i + 1
  {
    successful, errors := successful0, errors0;
    var e := sendError(i);
    SentCountStep(i, sendError);
    BroadcastRunStep(t0, users, i, sendError, clock);
    if e.None? {
      LogBroadcastDelivery(db, users[i].id, Sent, None, clock(i));
      successful := successful + 1;
    } else {
      LogBroadcastDelivery(db, users[i].id, Error, e, clock(i));
      errors := errors + 1;
    }
  }

  /**
   * The send loop of `send_broadcast`: one send and one ledger row per
   * recipient, in order, with no retry; the loop pauses after every
   * thirtieth message.
   */
  method SendAll(db: Database, users: seq<Recipient>, sendError: nat -> Option<string>, clock: nat -> Instant)
    returns (successful: nat, errors: nat, pauses: nat)
    modifies db
    ensures successful == SentCount(|users|, sendError) && successful + errors == |users|
    ensures pauses == |users| / PAUSE_EVERY
    ensures db.tables == BroadcastRun(old(db.tables), users, sendError, clock)
  {
    successful, errors, pauses := 0, 0, 0;
    ghost var t0 := db.tables;
    for i := 0 to |users|
      invariant db.tables == BroadcastRun(t0, users[..i], sendError, clock)
      invariant successful == SentCount(i, sendError) && successful + errors == i
      invariant pauses == i / PAUSE_EVERY
    {
      successful, errors := SendOne(db, t0, users, i, sendError, clock, successful, errors);
      if (i + 1) % PAUSE_EVERY == 0 {
        pauses := pauses + 1;
      }
      assert pauses == (i + 1) / PAUSE_EVERY by {
        PauseStep(i);
      }
    }
    assert users[..|users|] == users;
  }

  /**
   * `send_broadcast`. A target `int()` cannot read ends the request with
   * nothing sent (None). With no recipients the answer is the no-users
   * error and nothing is written. Otherwise every recipient is sent to and
   * the answer carries the two counters, which add up to the number of
   * recipients.
   */
  method SendBroadcast(db: Database, target: string, now: Instant, sendError: nat -> Option<string>, clock: nat -> Instant)
    returns (r: Option<Redirect>, pauses: nat)
    modifies db
    ensures ParseTarget(target).None? ==> r.None? && pauses == 0 && db.tables == old(db.tables)
    ensures ParseTarget(target).Some? ==>
      var rs := UsersByFilter(old(db.tables), ParseTarget(target).value, now);
      && r.Some?
      && (rs == [] ==> r.value == NoUsers && pauses == 0 && db.tables == old(db.tables))
      && (rs != [] ==>
           && r.value == Summary(SentCount(|rs|, sendError), |rs| - SentCount(|rs|, sendError))
           && r.value.successful + r.value.errors == |rs|
           && pauses == |rs| / PAUSE_EVERY
           && db.tables == BroadcastRun(old(db.tables), rs, sendError, clock))
  {
    var audience := ParseTarget(target);
    if audience.None? {
      return None, 0;
    }
    var users := UsersByFilter(db.tables, audience.value, now);
    if users == [] {
      return Some(NoUsers), 0;
    }
    var successful, errors;
    successful, errors, pauses := SendAll(db, users, sendError, clock);
    r := Some(Summary(successful, errors));
  }

  /** `get_user_count`: how many students the target would reach; None when `int()` fails. */
  function UserCount(t: Tables, target: string, now: Instant): (r: Option<nat>)
    ensures r.Some? <==> ParseTarget(target).Some?
    ensures r.Some? ==> r.value <= |t.users|
  {
    match ParseTarget(target)
    case None => None
    case Some(a) =>
      UsersByFilterSelects(t, a, now);
      Some(|UsersByFilter(t, a, now)|)
  }

  /**
   * There are no recipients exactly when no student is eligible; so the
   * count shown before sending is zero exactly when sending would answer
   * with the no-users error.
   */
  lemma NoRecipientsIffNoneEligible(t: Tables, a: Audience, now: Instant)
    ensures UsersByFilter(t, a, now) == [] <==> forall u :: u in t.users ==> !Eligible(t, u, a, now)
  {
    var c := UsersByFilter(t, a, now);
    UsersByFilterSelects(t, a, now);
    assert forall u :: u in t.users && Eligible(t, u, a, now) ==> RecipientOf(t, u) in c;
    if c != [] {
      assert c[0] in c;
    }
  }
}
