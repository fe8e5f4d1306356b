/**
 * The admin panel's delivery-log page and CSV export: the filter builder
 * that turns the request's filters into WHERE conditions and their
 * parameters, the page arithmetic, the shaping of each row for display and
 * for the CSV file, and the summary counts.
 */
module LogView {
  import opened Wrappers
  import opened Text
  import opened Timezone
  import opened Models
  import opened Store
  import opened Sorting

  // ------------------------------------------------------------------ filters

  /** The message types and statuses a filter may name; anything else is ignored. */
  const MESSAGE_TYPES: seq<string> := ["morning", "reminder", "broadcast"]
  const STATUSES: seq<string> := ["sent", "error"]

  /** A value bound to one `?` of the query. */
  datatype Param = TextParam(text: string) | StampParam(at: Instant) | IntParam(n: int)

  /** One condition of the WHERE clause, with the value it compares against. */
  datatype Condition =
    | TypeIs(messageType: string)
    | StatusIs(status: string)
    | DeliveredFrom(from: Instant)
    | DeliveredBefore(before: Instant)

  /** The SQL text of a condition; each holds one placeholder. */
  function ConditionSql(c: Condition): string {
    match c
    case TypeIs(_) => "dl.message_type = ?"
    case StatusIs(_) => "dl.status = ?"
    case DeliveredFrom(_) => "dl.delivered_at >= ?"
    case DeliveredBefore(_) => "dl.delivered_at < ?"
  }

  /** The value bound to a condition's placeholder. */
  function ConditionParam(c: Condition): Param {
    match c
    case TypeIs(t) => TextParam(t)
    case StatusIs(s) => TextParam(s)
    case DeliveredFrom(at) => StampParam(at)
    case DeliveredBefore(at) => StampParam(at)
  }

  /** What a condition asks of a ledger row. */
  predicate Holds(c: Condition, row: LogRow) {
    match c
    case TypeIs(t) => MessageTypeName(row.messageType) == t
    case StatusIs(s) => StatusName(row.status) == s
    case DeliveredFrom(at) => row.deliveredAt >= at
    case DeliveredBefore(at) => row.deliveredAt < at
  }

  /** The filters of a request, as the query string gives them. */
  datatype LogFilter = LogFilter(
    messageType: Option<string>, status: Option<string>, dateFrom: Option<string>, dateTo: Option<string>)

  /** Python truthiness of an optional text: present and not empty. */
  predicate Given(s: Option<string>) { s.Some? && s.value != [] }

  predicate TypeApplies(f: LogFilter) { Given(f.messageType) && f.messageType.value in MESSAGE_TYPES }

  predicate StatusApplies(f: LogFilter) { Given(f.status) && f.status.value in STATUSES }

  /** A date filter applies when it is given and `fromisoformat` (here `parseIso`) accepts it. */
  predicate DateApplies(s: Option<string>, parseIso: string -> Option<Instant>) {
    Given(s) && parseIso(s.value).Some?
  }

  /** The condition each filter contributes, if it applies. */
  function TypeCond(f: LogFilter): seq<Condition> {
    if TypeApplies(f) then [TypeIs(f.messageType.value)] else []
  }

  function StatusCond(f: LogFilter): seq<Condition> {
    if StatusApplies(f) then [StatusIs(f.status.value)] else []
  }

  function FromCond(f: LogFilter, parseIso: string -> Option<Instant>): seq<Condition> {
    if DateApplies(f.dateFrom, parseIso) then [DeliveredFrom(parseIso(f.dateFrom.value).value)] else []
  }

  /** The end date is exclusive and one day later than the date given. */
  function ToCond(f: LogFilter, parseIso: string -> Option<Instant>): seq<Condition> {
    if DateApplies(f.dateTo, parseIso) then [DeliveredBefore(parseIso(f.dateTo.value).value + SECONDS_PER_DAY)] else []
  }

  /**
   * The conditions of a request, in the order the builder appends them:
   * type, status, start date, end date.
   */
  function Conditions(f: LogFilter, parseIso: string -> Option<Instant>): seq<Condition> {
    TypeCond(f) + StatusCond(f) + FromCond(f, parseIso) + ToCond(f, parseIso)
  }

  function Sqls(conds: seq<Condition>): (r: seq<string>)
    ensures |r| == |conds| && forall i :: 0 <= i < |conds| ==> r[i] == ConditionSql(conds[i])
  {
    seq(|conds|, i requires 0 <= i < |conds| => ConditionSql(conds[i]))
  }

  function ParamsOf(conds: seq<Condition>): (r: seq<Param>)
    ensures |r| == |conds| && forall i :: 0 <= i < |conds| ==> r[i] == ConditionParam(conds[i])
  {
    seq(|conds|, i requires 0 <= i < |conds| => ConditionParam(conds[i]))
  }

  /** Appending a condition appends its text and its parameter. */
  lemma Appended(conds: seq<Condition>, extra: seq<Condition>)
    requires |extra| <= 1
    ensures Sqls(conds + extra) == Sqls(conds) + Sqls(extra)
    ensures ParamsOf(conds + extra) == ParamsOf(conds) + ParamsOf(extra)
  {
  }

  /** What each filter adds to the conditions and the parameters. */
  lemma PiecesBuilt(f: LogFilter, parseIso: string -> Option<Instant>)
    ensures Sqls(TypeCond(f)) == (if TypeApplies(f) then ["dl.message_type = ?"] else [])
    ensures ParamsOf(TypeCond(f)) == (if TypeApplies(f) then [TextParam(f.messageType.value)] else [])
    ensures Sqls(StatusCond(f)) == (if StatusApplies(f) then ["dl.status = ?"] else [])
    ensures ParamsOf(StatusCond(f)) == (if StatusApplies(f) then [TextParam(f.status.value)] else [])
    ensures Sqls(FromCond(f, parseIso)) == (if DateApplies(f.dateFrom, parseIso) then ["dl.delivered_at >= ?"] else [])
    ensures ParamsOf(FromCond(f, parseIso))
      == (if DateApplies(f.dateFrom, parseIso) then [StampParam(parseIso(f.dateFrom.value).value)] else [])
    ensures Sqls(ToCond(f, parseIso)) == (if DateApplies(f.dateTo, parseIso) then ["dl.delivered_at < ?"] else [])
    ensures ParamsOf(ToCond(f, parseIso))
      == (if DateApplies(f.dateTo, parseIso) then [StampParam(parseIso(f.dateTo.value).value + SECONDS_PER_DAY)] else [])
  {
  }

  /**
   * The filter builder of `logs_page` and `export_logs`: each accepted
   * filter appends its condition and, in step, its parameter.
   */
  method BuildFilter(f: LogFilter, parseIso: string -> Option<Instant>) returns (conditions: seq<string>, params: seq<Param>)
    ensures conditions == Sqls(Conditions(f, parseIso))
    ensures params == ParamsOf(Conditions(f, parseIso))
  {
    PiecesBuilt(f, parseIso);
    conditions, params := [], [];
    if TypeApplies(f) {
      conditions := conditions + ["dl.message_type = ?"];
      params := params + [TextParam(f.messageType.value)];
    }
    ghost var sofar := TypeCond(f);
    assert conditions == Sqls(sofar) && params == ParamsOf(sofar);
    if StatusApplies(f) {
      conditions := conditions + ["dl.status = ?"];
      params := params + [TextParam(f.status.value)];
    }
    Appended(sofar, StatusCond(f));
    sofar := sofar + StatusCond(f);
    assert conditions == Sqls(sofar) && params == ParamsOf(sofar);
    if Given(f.dateFrom) {
      var from := parseIso(f.dateFrom.value);
      if from.Some? {
        conditions := conditions + ["dl.delivered_at >= ?"];
        params := params + [StampParam(from.value)];
      }
    }
    Appended(sofar, FromCond(f, parseIso));
    sofar := sofar + FromCond(f, parseIso);
    assert conditions == Sqls(sofar) && params == ParamsOf(sofar);
    if Given(f.dateTo) {
      var to := parseIso(f.dateTo.value);
      if to.Some? {
        var end := to.value + SECONDS_PER_DAY;
        conditions := conditions + ["dl.delivered_at < ?"];
        params := params + [StampParam(end)];
      }
    }
    Appended(sofar, ToCond(f, parseIso));
    assert sofar + ToCond(f, parseIso) == Conditions(f, parseIso);
  }

  /**
   * The rows a request selects, stated on the request itself: a named type
   * or status must match, the row lies at or after the start date, and
   * before the day after the end date.
   */
  predicate Selected(f: LogFilter, parseIso: string -> Option<Instant>, row: LogRow) {
    && (TypeApplies(f) ==> MessageTypeName(row.messageType) == f.messageType.value)
    && (StatusApplies(f) ==> StatusName(row.status) == f.status.value)
    && (DateApplies(f.dateFrom, parseIso) ==> parseIso(f.dateFrom.value).value <= row.deliveredAt)
    && (DateApplies(f.dateTo, parseIso) ==> row.deliveredAt < parseIso(f.dateTo.value).value + SECONDS_PER_DAY)
  }

  /** Every condition of a list holds for the row. */
  predicate AllHold(conds: seq<Condition>, row: LogRow) {
    forall i :: 0 <= i < |conds| ==> Holds(conds[i], row)
  }

  lemma AllHoldConcat(a: seq<Condition>, b: seq<Condition>, row: LogRow)
    ensures AllHold(a + b, row) <==> AllHold(a, row) && AllHold(b, row)
  {
    if AllHold(a, row) && AllHold(b, row) {
      forall i | 0 <= i < |a + b|
        ensures Holds((a + b)[i], row)
      {
        if i >= |a| {
          assert (a + b)[i] == b[i - |a|];
        }
      }
    }
    if AllHold(a + b, row) {
      forall i | 0 <= i < |a|
        ensures Holds(a[i], row)
      {
        assert (a + b)[i] == a[i];
      }
      forall i | 0 <= i < |b|
        ensures Holds(b[i], row)
      {
        assert (a + b)[|a| + i] == b[i];
      }
    }
  }

  /** A row passes every built condition exactly when the request selects it. */
  lemma ConditionsMeanSelected(f: LogFilter, parseIso: string -> Option<Instant>, row: LogRow)
    ensures AllHold(Conditions(f, parseIso), row) <==> Selected(f, parseIso, row)
  {
    AllHoldConcat(TypeCond(f), StatusCond(f), row);
    AllHoldConcat(TypeCond(f) + StatusCond(f), FromCond(f, parseIso), row);
    AllHoldConcat(TypeCond(f) + StatusCond(f) + FromCond(f, parseIso), ToCond(f, parseIso), row);
    SingleHolds(TypeCond(f), row);
    SingleHolds(StatusCond(f), row);
    SingleHolds(FromCond(f, parseIso), row);
    SingleHolds(ToCond(f, parseIso), row);
  }

  lemma SingleHolds(cs: seq<Condition>, row: LogRow)
    requires |cs| <= 1
    ensures AllHold(cs, row) <==> cs == [] || Holds(cs[0], row)
  {
  }

  /** A type outside the list is ignored: the request builds what it would without it. */
  lemma UnknownTypeIgnored(f: LogFilter, parseIso: string -> Option<Instant>)
    requires f.messageType.Some? && f.messageType.value !in MESSAGE_TYPES
    ensures Conditions(f, parseIso) == Conditions(f.(messageType := None), parseIso)
  {
    var g := f.(messageType := None);
    assert TypeCond(f) == [] == TypeCond(g);
    assert StatusCond(f) == StatusCond(g) && FromCond(f, parseIso) == FromCond(g, parseIso) && ToCond(f, parseIso) == ToCond(g, parseIso);
  }

  /** A status outside the list is ignored in the same way. */
  lemma UnknownStatusIgnored(f: LogFilter, parseIso: string -> Option<Instant>)
    requires f.status.Some? && f.status.value !in STATUSES
    ensures Conditions(f, parseIso) == Conditions(f.(status := None), parseIso)
  {
    var g := f.(status := None);
    assert StatusCond(f) == [] == StatusCond(g);
    assert TypeCond(f) == TypeCond(g) && FromCond(f, parseIso) == FromCond(g, parseIso) && ToCond(f, parseIso) == ToCond(g, parseIso);
  }

  /** A date `fromisoformat` rejects is ignored, each on its own. */
  lemma UnparseableDatesIgnored(f: LogFilter, parseIso: string -> Option<Instant>)
    ensures f.dateFrom.Some? && parseIso(f.dateFrom.value).None? ==>
      Conditions(f, parseIso) == Conditions(f.(dateFrom := None), parseIso)
    ensures f.dateTo.Some? && parseIso(f.dateTo.value).None? ==>
      Conditions(f, parseIso) == Conditions(f.(dateTo := None), parseIso)
  {
    var g, h := f.(dateFrom := None), f.(dateTo := None);
    assert TypeCond(f) == TypeCond(g) == TypeCond(h) && StatusCond(f) == StatusCond(g) == StatusCond(h);
    assert ToCond(f, parseIso) == ToCond(g, parseIso) && FromCond(f, parseIso) == FromCond(h, parseIso);
  }

  /**
   * For an end date at midnight (what a bare `YYYY-MM-DD` parses to) the
   * exclusive bound one day later takes in the whole of that day and
   * nothing after it.
   */
  lemma EndDateTakesWholeDay(to: Instant, at: Instant)
    requires to % SECONDS_PER_DAY == 0
    ensures at < to + SECONDS_PER_DAY <==> at / SECONDS_PER_DAY <= to / SECONDS_PER_DAY
  {
    var d := to / SECONDS_PER_DAY;
    assert to == d * SECONDS_PER_DAY;
    var q, r := at / SECONDS_PER_DAY, at % SECONDS_PER_DAY;
    assert at == q * SECONDS_PER_DAY + r && 0 <= r < SECONDS_PER_DAY;
    if q <= d {
      assert q * SECONDS_PER_DAY <= d * SECONDS_PER_DAY;
    } else {
      assert q * SECONDS_PER_DAY >= (d + 1) * SECONDS_PER_DAY;
    }
  }

  // ------------------------------------------------------------------ where clause

  /** The conditions joined with AND, from the first to the last. */
  function AndJoined(cs: seq<string>): string
    requires cs != []
  {
    if |cs| == 1 then cs[0] else AndJoined(cs[..|cs| - 1]) + " AND " + cs[|cs| - 1]
  }

  /** The WHERE clause: empty without conditions. */
  function WhereClause(cs: seq<string>): string {
    if cs == [] then "" else "WHERE " + AndJoined(cs)
  }

  /** A text without placeholders followed by one `?` holds exactly one. */
  lemma OnePlaceholder(body: string, sql: string)
    requires '?' !in body && sql == body + "?"
    ensures CountChar(sql, '?') == 1
  {
    CountCharConcat(body, "?", '?');
    assert "?"[..0] == [];
  }

  /** Each condition's text holds exactly one placeholder. */
  lemma ConditionSqlPlaceholder(c: Condition)
    ensures CountChar(ConditionSql(c), '?') == 1
  {
    var body := match c
      case TypeIs(_) => "dl.message_type = "
      case StatusIs(_) => "dl.status = "
      case DeliveredFrom(_) => "dl.delivered_at >= "
      case DeliveredBefore(_) => "dl.delivered_at < ";
    OnePlaceholder(body, ConditionSql(c));
  }

  /** The joiners hold no placeholder. */
  lemma JoinersFree()
    ensures CountChar(" AND ", '?') == 0 && CountChar("WHERE ", '?') == 0
  {
  }

  /** Joining keeps every placeholder of the parts and adds none. */
  lemma {:induction false} AndJoinedPlaceholders(conds: seq<Condition>)
    requires conds != []
    ensures CountChar(AndJoined(Sqls(conds)), '?') == |conds|
  {
    var cs := Sqls(conds);
    var n := |cs| - 1;
    ConditionSqlPlaceholder(conds[n]);
    if n > 0 {
      var front := conds[..n];
      assert Sqls(front) == cs[..n];
      AndJoinedPlaceholders(front);
      JoinersFree();
      CountCharConcat(AndJoined(cs[..n]), " AND ", '?');
      CountCharConcat(AndJoined(cs[..n]) + " AND ", cs[n], '?');
    }
  }

  /**
   * The WHERE clause has one placeholder per parameter, so the k-th value
   * of `params` is bound to the k-th condition.
   */
  lemma WherePlaceholdersMatchParams(f: LogFilter, parseIso: string -> Option<Instant>)
    ensures CountChar(WhereClause(Sqls(Conditions(f, parseIso))), '?') == |ParamsOf(Conditions(f, parseIso))|
  {
    var conds := Conditions(f, parseIso);
    if conds != [] {
      AndJoinedPlaceholders(conds);
      JoinersFree();
      CountCharConcat("WHERE ", AndJoined(Sqls(conds)), '?');
    }
  }

  // ------------------------------------------------------------------ pagination

  /** `max(1, ceil(total / per_page))`, with Python's floor division. */
  function TotalPages(total: nat, perPage: int): (r: int)
    requires perPage >= 1
  {
    var q := (total + perPage - 1) / perPage;
    if q < 1 then 1 else q
  }

  /** A positive count of rows fills at least one page. */
  lemma CeilingPositive(total: nat, perPage: int)
    requires perPage >= 1 && total > 0
    ensures (total + perPage - 1) / perPage >= 1
  {
  }

  /** There is always a page; the pages hold every row, and the last one is not empty. */
  lemma TotalPagesBounds(total: nat, perPage: int)
    requires perPage >= 1
    ensures TotalPages(total, perPage) >= 1
    ensures total == 0 ==> TotalPages(total, perPage) == 1
    ensures total > 0 ==> (TotalPages(total, perPage) - 1) * perPage < total <= TotalPages(total, perPage) * perPage
  {
    var q := (total + perPage - 1) / perPage;
    var r := (total + perPage - 1) % perPage;
    assert total + perPage - 1 == q * perPage + r && 0 <= r < perPage;
    if total > 0 {
      CeilingPositive(total, perPage);
      assert (q - 1) * perPage == q * perPage - perPage;
    }
  }

  /** The requested page, lowered to the last page when it is past it. */
  function ClampPage(page: int, totalPages: int): int {
    if page < totalPages then page else totalPages
  }

  function Offset(page: int, perPage: int): int {
    (page - 1) * perPage
  }

  /** A clamped page starts inside the rows, or at 0 when there are none. */
  lemma OffsetWithinRows(page: int, perPage: int, total: nat)
    requires page >= 1 && perPage >= 1
    ensures var p := ClampPage(page, TotalPages(total, perPage));
      1 <= p <= TotalPages(total, perPage)
      && 0 <= Offset(p, perPage)
      && (total == 0 ==> Offset(p, perPage) == 0)
      && (total > 0 ==> Offset(p, perPage) < total)
  {
    TotalPagesBounds(total, perPage);
    var t := TotalPages(total, perPage);
    var p := ClampPage(page, t);
    assert (p - 1) * perPage <= (t - 1) * perPage;
  }

  /** `list(range(lo, hi))`. */
  function Range(lo: int, hi: int): (r: seq<int>)
    ensures |r| == if hi <= lo then 0 else hi - lo
    ensures forall i :: 0 <= i < |r| ==> r[i] == lo + i
    decreases hi - lo
  {
    if hi <= lo then [] else [lo] + Range(lo + 1, hi)
  }

  /** The page information the template receives. */
  datatype Pagination = Pagination(
    page: int, perPage: int, totalCount: nat, totalPages: int, hasPrev: bool, hasNext: bool, pages: seq<int>)

  function Max(a: int, b: int): int { if a < b then b else a }
  function Min(a: int, b: int): int { if a < b then a else b }

  /** The page arithmetic of `logs_page` for a requested page and a row count. */
  function Paginate(page: int, perPage: int, total: nat): Pagination
    requires perPage >= 1
  {
    var totalPages := TotalPages(total, perPage);
    var p := ClampPage(page, totalPages);
    Pagination(p, perPage, total, totalPages, p > 1, p < totalPages,
      Range(Max(1, p - 2), Min(totalPages + 1, p + 3)))
  }

  /**
   * The page window: consecutive pages of the result, at most two on
   * either side of the current page, which is always among them; there is
   * a previous page exactly when the page is not the first, and a next
   * one exactly when it is not the last.
   */
  lemma PaginationWindow(page: int, perPage: int, total: nat)
    requires page >= 1 && perPage >= 1
    ensures var pg := Paginate(page, perPage, total);
      && 1 <= pg.page <= pg.totalPages
      && (pg.hasPrev <==> pg.page != 1)
      && (pg.hasNext <==> pg.page != pg.totalPages)
      && pg.page in pg.pages
      && 1 <= |pg.pages| <= 5
      && (forall i :: 0 <= i < |pg.pages| ==> 1 <= pg.pages[i] <= pg.totalPages && pg.page - 2 <= pg.pages[i] <= pg.page + 2)
      && (forall i :: 0 <= i < |pg.pages| - 1 ==> pg.pages[i + 1] == pg.pages[i] + 1)
  {
    OffsetWithinRows(page, perPage, total);
    var pg := Paginate(page, perPage, total);
    var lo := Max(1, pg.page - 2);
    assert pg.pages[pg.page - lo] == pg.page;
  }

  // ------------------------------------------------------------------ rows

  /** The student whose row id is `id` (the LEFT JOIN on `users.id`), if any. */
  function FindUserById(users: seq<User>, id: int): (r: Option<User>)
    ensures r.Some? <==> exists i :: 0 <= i < |users| && users[i].id == Some(id)
    ensures r.Some? ==> r.value in users && r.value.id == Some(id)
  {
    if users == [] then None
    else if users[0].id == Some(id) then Some(users[0])
    else FindUserById(users[1..], id)
  }

  /** A ledger row with its student and the student's direction, when they still exist. */
  datatype Joined = Joined(row: LogRow, user: Option<User>, direction: Option<Direction>)

  function JoinRow(t: Tables, row: LogRow): (j: Joined)
    ensures j.row == row
    ensures j.direction.Some? ==> j.user.Some?
  {
    var user := FindUserById(t.users, row.userId);
    Joined(row, user, if user.Some? then FindDirection(t.directions, user.value.directionId) else None)
  }

  /** A cell of the page or of the CSV file. */
  datatype Cell = IntCell(n: int) | TextCell(text: string) | TimeCell(at: Instant)

  /** `value or default` for text. */
  function TextOr(v: Option<string>, default: string): (r: string)
    ensures v.Some? && v.value != [] ==> r == v.value
    ensures v.None? || v.value == [] ==> r == default
  {
    if v.Some? && v.value != [] then v.value else default
  }

  /** `value or default` for a number: a missing number or 0 gives the default text. */
  function IntOr(v: Option<int>, default: string): (r: Cell)
    ensures v.Some? && v.value != 0 ==> r == IntCell(v.value)
    ensures v.None? || v.value == 0 ==> r == TextCell(default)
  {
    if v.Some? && v.value != 0 then IntCell(v.value) else TextCell(default)
  }

  const DELETED_USER: string := "Удалён"
  const NOT_AVAILABLE: string := "N/A"

  function UserIdOf(j: Joined): Option<int> { if j.user.Some? then j.user.value.id else None }
  function TgIdOf(j: Joined): Option<int> { if j.user.Some? then Some(j.user.value.tgId) else None }
  function NameOf(j: Joined): Option<string> { if j.user.Some? then Some(j.user.value.name) else None }
  function DirectionNameOf(j: Joined): Option<string> { if j.direction.Some? then Some(j.direction.value.name) else None }
  function CourseOf(j: Joined): Option<int> { if j.direction.Some? then Some(j.direction.value.course) else None }

  /** One entry of the log page. */
  datatype LogEntry = LogEntry(
    id: int, deliveredAt: Instant, messageType: MessageType, status: Status, errorMessage: Option<string>,
    userId: Option<int>, tgId: Option<int>, userName: string, directionName: string, course: Cell)

  /** The entry `logs_page` shows for a joined row. */
  function Entry(j: Joined): (e: LogEntry)
    ensures j.user.None? ==> e.userName == DELETED_USER && e.userId.None? && e.tgId.None?
    ensures j.direction.None? ==> e.directionName == NOT_AVAILABLE
    ensures j.direction.None? ==> e.course == TextCell(NOT_AVAILABLE)
    ensures e.id == j.row.id && e.messageType == j.row.messageType && e.status == j.row.status
  {
    LogEntry(j.row.id, j.row.deliveredAt, j.row.messageType, j.row.status, j.row.errorMessage,
      UserIdOf(j), TgIdOf(j), TextOr(NameOf(j), DELETED_USER), TextOr(DirectionNameOf(j), NOT_AVAILABLE),
      IntOr(CourseOf(j), NOT_AVAILABLE))
  }

  /** The formatting loop of `logs_page`: one entry per fetched row, in order. */
  method FormatLogs(t: Tables, rows: seq<LogRow>) returns (logs: seq<LogEntry>)
    ensures |logs| == |rows|
    ensures forall i :: 0 <= i < |rows| ==> logs[i] == Entry(JoinRow(t, rows[i]))
  {
    logs := [];
    for i := 0 to |rows|
      invariant |logs| == i
      invariant forall k :: 0 <= k < i ==> logs[k] == Entry(JoinRow(t, rows[k]))
    {
      logs := logs + [Entry(JoinRow(t, rows[i]))];
    }
  }

  /** Newest first: the `ORDER BY dl.delivered_at DESC` of both queries. */
  predicate NewerFirst(a: LogRow, b: LogRow) { a.deliveredAt >= b.deliveredAt }

  /** The ledger rows that pass every condition, in ledger order. */
  function Matching(log: seq<LogRow>, conds: seq<Condition>): (r: seq<LogRow>)
    ensures |r| <= |log|
    ensures forall x :: x in r <==> x in log && AllHold(conds, x)
  {
    if log == [] then []
    else
      var rest := Matching(log[1..], conds);
      assert forall x :: x in log <==> x == log[0] || x in log[1..];
      if AllHold(conds, log[0]) then [log[0]] + rest else rest
  }

  /** A matching ledger row is listed as often as the ledger holds it; no other row is listed. */
  lemma {:induction false} MatchingCount(log: seq<LogRow>, conds: seq<Condition>)
    ensures forall x :: multiset(Matching(log, conds))[x] == if AllHold(conds, x) then multiset(log)[x] else 0
  {
    if log != [] {
      assert log == [log[0]] + log[1..];
      MatchingCount(log[1..], conds);
    }
  }

  /** The rows of the log view, newest first. */
  function Listed(log: seq<LogRow>, conds: seq<Condition>): seq<LogRow> {
    Sort(Matching(log, conds), NewerFirst)
  }

  /** The rows of one page: `LIMIT per_page OFFSET offset`. */
  function PageRows(rows: seq<LogRow>, offset: nat, perPage: nat): (r: seq<LogRow>)
    ensures |r| == if offset >= |rows| then 0 else Min(perPage, |rows| - offset)
    ensures forall i :: 0 <= i < |r| ==> r[i] == rows[offset + i]
  {
    if offset >= |rows| then [] else rows[offset..Min(offset + perPage, |rows|)]
  }

  lemma NewerFirstOrders()
    ensures TotalPreorder(NewerFirst)
  {
  }

  /**
   * The listed rows are exactly the selected ones, newest first.
   */
  lemma ListedRows(log: seq<LogRow>, f: LogFilter, parseIso: string -> Option<Instant>)
    ensures SortedBy(Listed(log, Conditions(f, parseIso)), NewerFirst)
    ensures forall x :: x in Listed(log, Conditions(f, parseIso)) <==> x in log && Selected(f, parseIso, x)
    ensures forall x :: multiset(Listed(log, Conditions(f, parseIso)))[x] == if Selected(f, parseIso, x) then multiset(log)[x] else 0
  {
    var conds := Conditions(f, parseIso);
    NewerFirstOrders();
    SortSorted(Matching(log, conds), NewerFirst);
    MatchingCount(log, conds);
    forall x
      ensures x in Listed(log, conds) <==> x in log && Selected(f, parseIso, x)
      ensures multiset(Listed(log, conds))[x] == if Selected(f, parseIso, x) then multiset(log)[x] else 0
    {
      SortSameElements(Matching(log, conds), NewerFirst, x);
      ConditionsMeanSelected(f, parseIso, x);
    }
  }

  /** The rows shown on the (clamped) page, before formatting. */
  function ShownRows(log: seq<LogRow>, conds: seq<Condition>, page: int, perPage: int): seq<LogRow>
    requires page >= 1 && perPage >= 1
  {
    var total := |Matching(log, conds)|;
    OffsetWithinRows(page, perPage, total);
    PageRows(Listed(log, conds), Offset(ClampPage(page, TotalPages(total, perPage)), perPage), perPage)
  }

  /**
   * `logs_page`: the filters are built, the matching rows counted, the page
   * clamped, and the page's rows fetched and formatted. The count query and
   * the page query share the filter parameters; the page query adds the
   * page size and offset after them.
   */
  method LogsPage(db: Database, page: int, perPage: int, f: LogFilter, parseIso: string -> Option<Instant>)
    returns (logs: seq<LogEntry>, pagination: Pagination, pageParams: seq<Param>)
    requires page >= 1 && 10 <= perPage <= 100
    ensures pagination == Paginate(page, perPage, |Matching(db.tables.deliveryLog, Conditions(f, parseIso))|)
    ensures pageParams == ParamsOf(Conditions(f, parseIso)) + [IntParam(perPage), IntParam(Offset(pagination.page, perPage))]
    ensures |logs| == |ShownRows(db.tables.deliveryLog, Conditions(f, parseIso), page, perPage)|
    ensures forall i :: 0 <= i < |logs| ==>
      logs[i] == Entry(JoinRow(db.tables, ShownRows(db.tables.deliveryLog, Conditions(f, parseIso), page, perPage)[i]))
  {
    var conditions, params := BuildFilter(f, parseIso);
    var conds := Conditions(f, parseIso);
    var log := db.tables.deliveryLog;
    var totalCount := |Matching(log, conds)|;
    var totalPages := TotalPages(totalCount, perPage);
    var p := ClampPage(page, totalPages);
    OffsetWithinRows(page, perPage, totalCount);
    var offset := Offset(p, perPage);
    pageParams := params + [IntParam(perPage), IntParam(offset)];
    var rows := PageRows(Listed(log, conds), offset, perPage);
    assert rows == ShownRows(log, conds, page, perPage);
    logs := FormatLogs(db.tables, rows);
    pagination := Paginate(page, perPage, totalCount);
  }

  // ------------------------------------------------------------------ csv export

  /** The header of the CSV file: nine columns. */
  const CSV_HEADER: seq<Cell> := [
    TextCell("ID"), TextCell("Дата"), TextCell("Тип"), TextCell("Статус"), TextCell("Ошибка"),
    TextCell("Telegram ID"), TextCell("Имя"), TextCell("Направление"), TextCell("Курс")]

  /** One line of the CSV file, with the export's defaults for missing values. */
  function CsvRow(j: Joined): (r: seq<Cell>)
    ensures |r| == |CSV_HEADER|
    ensures r[4] == TextCell(TextOr(j.row.errorMessage, ""))
    ensures r[6] == TextCell(TextOr(NameOf(j), DELETED_USER))
  {
    [IntCell(j.row.id), TimeCell(j.row.deliveredAt), TextCell(MessageTypeName(j.row.messageType)),
     TextCell(StatusName(j.row.status)), TextCell(TextOr(j.row.errorMessage, "")),
     IntOr(TgIdOf(j), ""), TextCell(TextOr(NameOf(j), DELETED_USER)),
     TextCell(TextOr(DirectionNameOf(j), NOT_AVAILABLE)), IntOr(CourseOf(j), NOT_AVAILABLE)]
  }

  /** The writer loop of `export_logs`: the header, then one line per row in order. */
  method WriteCsv(t: Tables, rows: seq<LogRow>) returns (lines: seq<seq<Cell>>)
    ensures |lines| == |rows| + 1 && lines[0] == CSV_HEADER
    ensures forall i :: 0 <= i < |rows| ==> lines[i + 1] == CsvRow(JoinRow(t, rows[i]))
    ensures forall i :: 0 <= i < |lines| ==> |lines[i]| == |CSV_HEADER|
  {
    lines := [CSV_HEADER];
    for i := 0 to |rows|
      invariant |lines| == i + 1 && lines[0] == CSV_HEADER
      invariant forall k :: 0 <= k < i ==> lines[k + 1] == CsvRow(JoinRow(t, rows[k]))
      invariant forall k :: 0 <= k < |lines| ==> |lines[k]| == |CSV_HEADER|
    {
      lines := lines + [CsvRow(JoinRow(t, rows[i]))];
    }
  }

  /** `export_logs`: every selected row, newest first, under the header. */
  method ExportLogs(db: Database, f: LogFilter, parseIso: string -> Option<Instant>) returns (lines: seq<seq<Cell>>, params: seq<Param>)
    ensures params == ParamsOf(Conditions(f, parseIso))
    ensures |lines| == |Matching(db.tables.deliveryLog, Conditions(f, parseIso))| + 1 && lines[0] == CSV_HEADER
    ensures forall i :: 0 <= i < |lines| - 1 ==>
      lines[i + 1] == CsvRow(JoinRow(db.tables, Listed(db.tables.deliveryLog, Conditions(f, parseIso))[i]))
  {
    var conditions;
    conditions, params := BuildFilter(f, parseIso);
    var rows := Listed(db.tables.deliveryLog, Conditions(f, parseIso));
    lines := WriteCsv(db.tables, rows);
  }

  // ------------------------------------------------------------------ statistics

  function CountStatus(log: seq<LogRow>, s: Status): (n: nat)
    ensures n <= |log|
  {
    if log == [] then 0 else CountStatus(log[..|log| - 1], s) + (if log[|log| - 1].status == s then 1 else 0)
  }

  function CountType(log: seq<LogRow>, t: MessageType): (n: nat)
    ensures n <= |log|
  {
    if log == [] then 0 else CountType(log[..|log| - 1], t) + (if log[|log| - 1].messageType == t then 1 else 0)
  }

  /** The summary counts: every row is either sent or an error, and of exactly one type. */
  lemma {:induction false} StatsPartition(log: seq<LogRow>)
    ensures CountStatus(log, Sent) + CountStatus(log, Error) == |log|
    ensures CountType(log, Morning) + CountType(log, Reminder) + CountType(log, Broadcast) == |log|
  {
    if log != [] {
      StatsPartition(log[..|log| - 1]);
    }
  }
}
