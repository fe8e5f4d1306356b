/**
 * The PostgreSQL side of the database layer: the rewrite of SQLite query
 * text into PostgreSQL's dialect, the cursor that hands out fetched rows,
 * the splitting of a script into statements, the `RETURNING id` and URL
 * rewrites, and the seeding of the time slots on an empty table.
 */
module CloudDb {
  import opened Wrappers
  import opened Text
  import opened Store
  import opened Scheduling

  // ------------------------------------------------------------------ convert_query

  /** The decimal digits of a placeholder's number. */
  function ParamDigits(k: nat): (s: string)
    ensures s != [] && AllDigits(s)
  {
    NatToString(k)
  }

  /** The positional parameter `$k`. */
  function Placeholder(k: nat): string {
    "$" + ParamDigits(k)
  }

  /** What one character of the query becomes when `k` is the number of the next placeholder. */
  function Piece(c: char, k: nat): string {
    if c == '?' then Placeholder(k) else [c]
  }

  /** A piece holds no `?`, and holds one `$` exactly when it stands for a `?` or a `$`. */
  lemma PieceCounts(c: char, k: nat)
    ensures '?' !in Piece(c, k)
    ensures CountChar(Piece(c, k), '$') == (if c == '?' || c == '$' then 1 else 0)
  {
    if c == '?' {
      var digits := ParamDigits(k);
      assert AllDigits(digits);
      assert '$' !in digits && '?' !in digits;
      assert "$"[..0] == [];
      CountCharConcat("$", digits, '$');
    } else {
      assert [c][..0] == [];
    }
  }

  /**
   * The rest of a query numbered when `seen` placeholders came before it:
   * each `?` becomes the next `$k`, every other character is copied in
   * order. Quotes are not looked at, so a `?` inside a string literal is
   * numbered too.
   */
  function NumberedAfter(q: string, seen: nat): string {
    if q == [] then []
    else Piece(q[0], seen + 1) + NumberedAfter(q[1..], NextSeen(q[0], seen))
  }

  /** The count of placeholders seen once `c` is passed. */
  function NextSeen(c: char, seen: nat): nat {
    if c == '?' then seen + 1 else seen
  }

  /** The count of placeholders seen once the whole of `q` is passed. */
  function SeenAfter(q: string, seen: nat): nat {
    if q == [] then seen else SeenAfter(q[1..], NextSeen(q[0], seen))
  }

  /** Numbering a non-empty text: its first piece, then the rest. */
  lemma NumberedCons(q: string, seen: nat)
    requires q != []
    ensures NumberedAfter(q, seen) == Piece(q[0], seen + 1) + NumberedAfter(q[1..], NextSeen(q[0], seen))
  {
  }

  /** The head and tail of a concatenation whose first part is not empty. */
  lemma ConsConcat(a: string, b: string)
    requires a != []
    ensures a + b != [] && (a + b)[0] == a[0] && (a + b)[1..] == a[1..] + b
  {
  }

  /** The numbered query: the k-th `?` from the left becomes `$k`. */
  function Numbered(q: string): string {
    NumberedAfter(q, 0)
  }

  /** No `?` survives the numbering. */
  lemma {:induction false} NumberedNoQuestionMark(q: string, seen: nat)
    ensures '?' !in NumberedAfter(q, seen)
  {
    if q != [] {
      NumberedNoQuestionMark(q[1..], NextSeen(q[0], seen));
      PieceCounts(q[0], seen + 1);
    }
  }

  /** A string is its first character followed by the rest, for counting. */
  lemma CountCharCons(q: string, c: char)
    requires q != []
    ensures CountChar(q, c) == (if q[0] == c then 1 else 0) + CountChar(q[1..], c)
  {
    assert q == [q[0]] + q[1..];
    assert [q[0]][..0] == [];
    CountCharConcat([q[0]], q[1..], c);
  }

  /** Every `?` of the query becomes one `$`; the `$` already there are kept. */
  lemma {:induction false} NumberedDollarCount(q: string, seen: nat)
    ensures CountChar(NumberedAfter(q, seen), '$') == CountChar(q, '?') + CountChar(q, '$')
  {
    if q != [] {
      var piece := Piece(q[0], seen + 1);
      var rest := NumberedAfter(q[1..], NextSeen(q[0], seen));
      NumberedDollarCount(q[1..], NextSeen(q[0], seen));
      CountCharConcat(piece, rest, '$');
      PieceCounts(q[0], seen + 1);
      CountCharCons(q, '?');
      CountCharCons(q, '$');
    }
  }

  /**
   * Numbering runs left to right: the placeholders of a later part
   * continue the count of the earlier one.
   */
  lemma {:induction false} NumberedConcat(a: string, b: string, seen: nat)
    ensures NumberedAfter(a + b, seen) == NumberedAfter(a, seen) + NumberedAfter(b, SeenAfter(a, seen))
  {
    if a == [] {
      assert a + b == b;
      assert NumberedAfter(a, seen) + NumberedAfter(b, seen) == NumberedAfter(b, seen);
    } else {
      var next := NextSeen(a[0], seen);
      var p, x, y := Piece(a[0], seen + 1), NumberedAfter(a[1..], next), NumberedAfter(b, SeenAfter(a[1..], next));
      ConsConcat(a, b);
      NumberedCons(a + b, seen);
      NumberedCons(a, seen);
      NumberedConcat(a[1..], b, next);
      AppendAssoc(p, x, y);
    }
  }

  /** Passing a text moves the count on by the number of `?` in it. */
  lemma {:induction false} SeenAfterCount(q: string, seen: nat)
    ensures SeenAfter(q, seen) == seen + CountChar(q, '?')
  {
    if q != [] {
      SeenAfterCount(q[1..], NextSeen(q[0], seen));
      CountCharCons(q, '?');
    }
  }

  /** The `?` with `k` placeholders before it becomes `$(k + 1)`. */
  lemma KthPlaceholder(a: string, b: string)
    ensures Numbered(a + ['?'] + b)
      == Numbered(a) + Placeholder(CountChar(a, '?') + 1) + NumberedAfter(b, CountChar(a, '?') + 1)
  {
    var k := CountChar(a, '?');
    var tail := ['?'] + b;
    AppendAssoc(a, ['?'], b);
    NumberedConcat(a, tail, 0);
    SeenAfterCount(a, 0);
    assert tail[0] == '?' && tail[1..] == b;
    NumberedCons(tail, k);
    AppendAssoc(Numbered(a), Placeholder(k + 1), NumberedAfter(b, k + 1));
  }

  /** A query without `?` is not changed by the numbering. */
  lemma {:induction false} NumberedNoPlaceholders(q: string, seen: nat)
    requires '?' !in q
    ensures NumberedAfter(q, seen) == q
  {
    if q != [] {
      assert q[0] in q;
      assert forall c :: c in q[1..] ==> c in q;
      NumberedNoPlaceholders(q[1..], seen);
      assert [q[0]] + q[1..] == q;
    }
  }

  const SQLITE_NOW: string := "datetime('now')"
  const POSTGRES_NOW: string := "NOW()"
  const AUTOINCREMENT: string := "AUTOINCREMENT"

  /** The rewrite of `convert_query` after the numbering. */
  function Converted(q: string): string {
    ReplaceAll(ReplaceAll(Numbered(q), SQLITE_NOW, POSTGRES_NOW), AUTOINCREMENT, "")
  }

  /** Neither placeholder character occurs in the rewritten function names. */
  lemma RewriteTextsFree(c: char)
    requires c == '?' || c == '$'
    ensures c !in SQLITE_NOW && c !in POSTGRES_NOW && c !in AUTOINCREMENT && c !in ""
  {
  }

  /** No `?` is left in a converted query. */
  lemma ConvertedNoQuestionMark(q: string)
    ensures '?' !in Converted(q)
  {
    NumberedNoQuestionMark(q, 0);
    RewriteTextsFree('?');
    ReplaceAllKeepsCount(Numbered(q), SQLITE_NOW, POSTGRES_NOW, '?');
    var once := ReplaceAll(Numbered(q), SQLITE_NOW, POSTGRES_NOW);
    ReplaceAllKeepsCount(once, AUTOINCREMENT, "", '?');
  }

  /** The converted query has one `$` per `?` of the input, besides those the input had. */
  lemma ConvertedDollarCount(q: string)
    ensures CountChar(Converted(q), '$') == CountChar(q, '?') + CountChar(q, '$')
  {
    NumberedDollarCount(q, 0);
    RewriteTextsFree('$');
    ReplaceAllKeepsCount(Numbered(q), SQLITE_NOW, POSTGRES_NOW, '$');
    var once := ReplaceAll(Numbered(q), SQLITE_NOW, POSTGRES_NOW);
    ReplaceAllKeepsCount(once, AUTOINCREMENT, "", '$');
  }

  /** A query with nothing to rewrite passes through unchanged. */
  lemma ConvertedPlain(q: string)
    requires '?' !in q && !Contains(q, SQLITE_NOW) && !Contains(q, AUTOINCREMENT)
    ensures Converted(q) == q
  {
    NumberedNoPlaceholders(q, 0);
    ReplaceAllAbsent(q, SQLITE_NOW, POSTGRES_NOW);
    ReplaceAllAbsent(q, AUTOINCREMENT, "");
  }

  /** `convert_query`: the character loop numbering placeholders, then the two replacements. */
  method ConvertQuery(query: string) returns (r: string)
    ensures r == Converted(query)
  {
    var numbered := NumberPlaceholders(query);
    r := ReplaceAll(numbered, SQLITE_NOW, POSTGRES_NOW);
    r := ReplaceAll(r, AUTOINCREMENT, "");
  }

  /** One turn of the numbering loop: the next character's piece moves from the rest to the output. */
  lemma NumberingStep(query: string, i: nat, seen: nat, done: string)
    requires i < |query|
    ensures done + NumberedAfter(query[i..], seen)
      == (done + Piece(query[i], seen + 1)) + NumberedAfter(query[i + 1..], NextSeen(query[i], seen))
  {
    assert query[i..][1..] == query[i + 1..];
  }

  /** The character loop of `convert_query`, which numbers the placeholders. */
  method NumberPlaceholders(query: string) returns (result: string)
    ensures result == Numbered(query)
  {
    result := [];
    var paramCount: nat := 0;
    var i := 0;
    while i < |query|
      invariant 0 <= i <= |query|
      invariant result + NumberedAfter(query[i..], paramCount) == Numbered(query)
    {
      NumberingStep(query, i, paramCount, result);
      ghost var before, piece := result, Piece(query[i], paramCount + 1);
      if query[i] == '?' {
        paramCount := paramCount + 1;
        result := result + Placeholder(paramCount);
      } else {
        result := result + [query[i]];
      }
      assert result == before + piece;
      i := i + 1;
    }
    assert query[i..] == [];
    assert result + [] == result;
  }

  // ------------------------------------------------------------------ cursor

  /** A column value as the driver returns it. */
  datatype Value = IntValue(i: int) | TextValue(s: string) | NullValue

  /** A fetched row: column name to value. */
  type Row = map<string, Value>

  /** `lastrowid`: the first row's `id` column, when there is one. */
  function FirstId(rows: seq<Row>): (r: Option<Value>)
    ensures r.Some? <==> rows != [] && "id" in rows[0]
    ensures r.Some? ==> r.value == rows[0]["id"]
  {
    if rows != [] && "id" in rows[0] then Some(rows[0]["id"]) else None
  }

  /** The cursor over the rows of one executed statement, with its read position. */
  class Cursor {
    var rows: seq<Row>
    var result: Option<string>
    var index: nat
    var lastRowId: Option<Value>

    ghost predicate Valid()
      reads this
    {
      index <= |rows|
    }

    /** The rows `fetchone` has still to hand out. */
    function Remaining(): seq<Row>
      reads this
      requires Valid()
    {
      rows[index..]
    }

    constructor (rows: seq<Row>, result: Option<string>)
      ensures Valid() && this.rows == rows && this.result == result
      ensures index == 0 && Remaining() == rows
      ensures lastRowId == FirstId(rows)
    {
      this.rows := rows;
      this.result := result;
      index := 0;
      lastRowId := FirstId(rows);
    }

    /** `fetchone`: the next row, advancing the position; None once all are read, forever. */
    method FetchOne() returns (r: Option<Row>)
      requires Valid()
      modifies this
      ensures Valid() && rows == old(rows) && result == old(result) && lastRowId == old(lastRowId)
      ensures old(index) < |rows| ==> r == Some(rows[old(index)]) && index == old(index) + 1
      ensures old(index) == |rows| ==> r.None? && index == old(index)
      ensures r.Some? ==> old(Remaining()) == [r.value] + Remaining()
      ensures r.None? ==> Remaining() == old(Remaining()) == []
    {
      if index < |rows| {
        r := Some(rows[index]);
        index := index + 1;
      } else {
        r := None;
      }
    }

    /** `fetchall`: every row, wherever the position stands. */
    method FetchAll() returns (r: seq<Row>)
      requires Valid()
      ensures r == rows && |r| == index + |Remaining()|
    {
      r := rows;
    }
  }

  /** Reading a cursor with `fetchone` until None yields exactly the rows not yet read, in order. */
  method DrainCursor(c: Cursor) returns (got: seq<Row>)
    requires c.Valid()
    modifies c
    ensures c.Valid() && c.Remaining() == []
    ensures got == old(c.Remaining())
  {
    got := [];
    ghost var start := c.index;
    while true
      invariant c.Valid() && c.rows == old(c.rows) && start <= c.index
      invariant got == c.rows[start..c.index]
      decreases |c.rows| - c.index
    {
      var r := c.FetchOne();
      if r.None? {
        return;
      }
      assert c.rows[start..c.index] == got + [r.value];
      got := got + [r.value];
    }
  }

  /** A statement is a query for rows when its stripped, upper-cased text starts with SELECT. */
  predicate IsSelect(q: string) {
    StartsWith(Upper(Strip(q)), "SELECT")
  }

  /**
   * `execute` of the connection wrapper: the query is converted; a SELECT
   * gives a cursor over the fetched rows, anything else an empty cursor
   * carrying the status text. `fetched` and `status` stand for the server.
   */
  method Execute(query: string, fetched: seq<Row>, status: string) returns (c: Cursor)
    ensures fresh(c) && c.Valid() && c.index == 0
    ensures IsSelect(Converted(query)) ==> c.rows == fetched && c.result.None? && c.lastRowId == FirstId(fetched)
    ensures !IsSelect(Converted(query)) ==> c.rows == [] && c.result == Some(status) && c.lastRowId.None?
  {
    var pgQuery := ConvertQuery(query);
    if IsSelect(pgQuery) {
      c := new Cursor(fetched, None);
    } else {
      c := new Cursor([], Some(status));
    }
  }

  // ------------------------------------------------------------------ executescript

  /** The stripped, non-blank pieces of `parts`, in order. */
  function NonBlankStripped(parts: seq<string>): (r: seq<string>)
    ensures |r| <= |parts|
  {
    if parts == [] then []
    else
      var n := |parts| - 1;
      var s := Strip(parts[n]);
      NonBlankStripped(parts[..n]) + (if s != [] then [s] else [])
  }

  /** The statements of a script: its `;`-separated pieces, stripped, blank ones dropped. */
  function Statements(script: string): seq<string> {
    NonBlankStripped(Split(script, ';'))
  }

  /** Stripping only removes characters. */
  lemma StripKeepsOut(s: string, c: char)
    requires c !in s
    ensures c !in Strip(s)
  {
    var l := LStrip(s);
    assert forall x :: x in l ==> x in s;
    assert forall x :: x in RStrip(l) ==> x in l;
  }

  /** Every piece kept is non-blank and free of `c` when the pieces were. */
  lemma {:induction false} NonBlankStrippedParts(parts: seq<string>, c: char)
    requires forall i :: 0 <= i < |parts| ==> c !in parts[i]
    ensures forall i :: 0 <= i < |NonBlankStripped(parts)| ==>
      NonBlankStripped(parts)[i] != [] && c !in NonBlankStripped(parts)[i]
  {
    if parts != [] {
      var n := |parts| - 1;
      var front := NonBlankStripped(parts[..n]);
      var s := Strip(parts[n]);
      var tail := if s != [] then [s] else [];
      assert NonBlankStripped(parts) == front + tail;
      assert forall i :: 0 <= i < n ==> parts[..n][i] == parts[i];
      NonBlankStrippedParts(parts[..n], c);
      StripKeepsOut(parts[n], c);
      forall i | 0 <= i < |front + tail|
        ensures (front + tail)[i] != [] && c !in (front + tail)[i]
      {
        if i < |front| {
          assert (front + tail)[i] == front[i];
        } else {
          assert (front + tail)[i] == s;
        }
      }
    }
  }

  /** Each statement of a script is non-blank and holds no `;`. */
  lemma StatementsShape(script: string)
    ensures forall i :: 0 <= i < |Statements(script)| ==>
      Statements(script)[i] != [] && ';' !in Statements(script)[i]
  {
    NonBlankStrippedParts(Split(script, ';'), ';');
  }

  /** A script without `;` is one statement, or none when blank. */
  lemma SingleStatement(script: string)
    requires ';' !in script
    ensures Statements(script) == (if Strip(script) == [] then [] else [Strip(script)])
  {
    SplitUnique([script], ';');
    assert Join([script], ';') == script;
    assert [script][..0] == [];
  }

  /** How many of the first `n` statements fail. */
  function FailureCount(n: nat, fails: nat -> bool): (r: nat)
    ensures r <= n
    ensures r == 0 <==> forall i :: 0 <= i < n ==> !fails(i)
  {
    if n == 0 then 0 else FailureCount(n - 1, fails) + (if fails(n - 1) then 1 else 0)
  }

  /**
   * `executescript`'s loop: each statement is converted and sent; a failure
   * (`fails(i)` for the i-th statement) is logged and the loop goes on.
   */
  method ExecuteEach(statements: seq<string>, fails: nat -> bool) returns (sent: seq<string>, failures: nat)
    ensures |sent| == |statements|
    ensures forall i :: 0 <= i < |statements| ==> sent[i] == Converted(statements[i])
    ensures failures == FailureCount(|statements|, fails)
  {
    sent := [];
    failures := 0;
    var i := 0;
    while i < |statements|
      invariant 0 <= i <= |statements|
      invariant |sent| == i
      invariant forall k :: 0 <= k < i ==> sent[k] == Converted(statements[k])
      invariant failures == FailureCount(i, fails)
    {
      var pgStatement := ConvertQuery(statements[i]);
      sent := sent + [pgStatement];
      if fails(i) {
        failures := failures + 1;
      }
      i := i + 1;
    }
  }

  /** `executescript`: every statement of the script is sent, in order, whatever fails. */
  method ExecuteScript(script: string, fails: nat -> bool) returns (sent: seq<string>, failures: nat)
    ensures |sent| == |Statements(script)|
    ensures forall i :: 0 <= i < |sent| ==> sent[i] == Converted(Statements(script)[i])
    ensures failures <= |sent|
  {
    var statements := Statements(script);
    sent, failures := ExecuteEach(statements, fails);
  }

  // ------------------------------------------------------------------ rewrites

  /** `s.rstrip(c)`: `s` without its trailing run of `c`. */
  function RStripChar(s: string, c: char): (r: string)
    ensures |r| <= |s| && r == s[..|r|]
    ensures r != [] ==> r[|r| - 1] != c
    ensures forall i :: |r| <= i < |s| ==> s[i] == c
  {
    if s != [] && s[|s| - 1] == c then RStripChar(s[..|s| - 1], c) else s
  }

  const RETURNING_ID: string := " RETURNING id;"

  /**
   * `execute_returning`'s rewrite of the converted query: an INSERT without
   * RETURNING (in any letter case) gets its trailing `;` dropped and
   * ` RETURNING id;` appended; any other query is left alone.
   */
  function WithReturning(q: string): string {
    if Contains(Upper(q), "INSERT") && !Contains(Upper(q), "RETURNING") then RStripChar(q, ';') + RETURNING_ID
    else q
  }

  /** A word written in capitals that occurs in a text still occurs once the text is upper-cased. */
  lemma UpperKeepsCapitals(s: string, x: string)
    requires Contains(s, x)
    requires forall i :: 0 <= i < |x| ==> UpperChar(x[i]) == x[i]
    ensures Contains(Upper(s), x)
  {
    var k: nat :| k <= |s| && OccursAt(s, x, k);
    var u := Upper(s);
    forall i | 0 <= i < |x|
      ensures u[k..k + |x|][i] == x[i]
    {
      assert s[k + i] == x[i];
    }
    assert OccursAt(u, x, k);
  }

  /** The appended clause holds the word RETURNING, which is written in capitals. */
  lemma ReturningIdWord()
    ensures Contains(RETURNING_ID, "RETURNING")
    ensures forall i :: 0 <= i < |"RETURNING"| ==> UpperChar("RETURNING"[i]) == "RETURNING"[i]
  {
    assert RETURNING_ID[1..10] == "RETURNING";
    assert OccursAt(RETURNING_ID, "RETURNING", 1);
  }

  /** Whatever comes before it, the appended clause names RETURNING. */
  lemma ReturningClauseShows(stem: string)
    ensures Contains(Upper(stem + RETURNING_ID), "RETURNING")
  {
    var t := stem + RETURNING_ID;
    ReturningIdWord();
    assert Contains(t, RETURNING_ID) by {
      assert stem + RETURNING_ID + [] == t;
      ContainsMiddle(stem, RETURNING_ID, []);
    }
    ContainsTrans(t, RETURNING_ID, "RETURNING");
    UpperKeepsCapitals(t, "RETURNING");
  }

  /** After the rewrite, an INSERT asks for its id back. */
  lemma WithReturningAsksForId(q: string)
    requires Contains(Upper(q), "INSERT")
    ensures Contains(Upper(WithReturning(q)), "RETURNING")
  {
    if !Contains(Upper(q), "RETURNING") {
      ReturningClauseShows(RStripChar(q, ';'));
    }
  }

  /** The rewrite is done at most once: a rewritten query is not rewritten again. */
  lemma WithReturningIdempotent(q: string)
    requires Contains(Upper(q), "INSERT")
    ensures WithReturning(WithReturning(q)) == WithReturning(q)
  {
    WithReturningAsksForId(q);
  }

  /** A query that is no INSERT is never touched. */
  lemma WithReturningOnlyInserts(q: string)
    requires !Contains(Upper(q), "INSERT")
    ensures WithReturning(q) == q
  {
  }

  /**
   * `execute_returning`: the converted query, rewritten to hand back the
   * id of an inserted row, is sent; the answer is the `id` of the row the
   * server returns (`reply`), or None when it returns none.
   */
  method ExecuteReturning(query: string, reply: Option<Row>) returns (sent: string, id: Option<Value>)
    requires reply.Some? ==> "id" in reply.value
    ensures sent == WithReturning(Converted(query))
    ensures Contains(Upper(Converted(query)), "INSERT") ==> Contains(Upper(sent), "RETURNING")
    ensures id.Some? <==> reply.Some?
    ensures id.Some? ==> id.value == reply.value["id"]
  {
    var pgQuery := ConvertQuery(query);
    if Contains(Upper(pgQuery), "INSERT") {
      WithReturningAsksForId(pgQuery);
    }
    sent := WithReturning(pgQuery);
    id := if reply.Some? then Some(reply.value["id"]) else None;
  }

  const POSTGRES_SCHEME: string := "postgres://"
  const POSTGRESQL_SCHEME: string := "postgresql://"

  /**
   * `init_pool`'s URL fix: a URL starting with `postgres://` gets the
   * scheme `postgresql://` (only the first occurrence, which is the
   * leading one); any other URL, and a missing one, is kept.
   */
  function PoolUrl(url: Option<string>): (r: Option<string>)
    ensures r.Some? <==> url.Some?
  {
    if url.Some? && StartsWith(url.value, POSTGRES_SCHEME) then
      Some(POSTGRESQL_SCHEME + url.value[|POSTGRES_SCHEME|..])
    else url
  }

  /** The URL handed to the pool never has the short scheme; the rest of the URL is kept. */
  lemma PoolUrlScheme(url: string)
    ensures !StartsWith(PoolUrl(Some(url)).value, POSTGRES_SCHEME)
    ensures StartsWith(url, POSTGRES_SCHEME) ==>
      PoolUrl(Some(url)).value[|POSTGRESQL_SCHEME|..] == url[|POSTGRES_SCHEME|..]
  {
    var r := PoolUrl(Some(url)).value;
    if StartsWith(url, POSTGRES_SCHEME) {
      assert r[8] == 'q';
    }
  }

  /** The fix is idempotent. */
  lemma PoolUrlIdempotent(url: Option<string>)
    ensures PoolUrl(PoolUrl(url)) == PoolUrl(url)
  {
    if url.Some? {
      PoolUrlScheme(url.value);
    }
  }

  // ------------------------------------------------------------------ seeding

  /** The five seeded periods, start and end, numbered 1 to 5 in this order. */
  const SEED_TIMES: seq<(string, string)> := [
    ("08:30", "10:00"),
    ("10:10", "11:40"),
    ("11:50", "13:20"),
    ("14:00", "15:30"),
    ("15:40", "17:10")]

  /** The seeded rows, their ids handed out from `nextId` on. */
  function SeedSlots(nextId: int): (r: seq<Slot>)
    ensures |r| == 5
    ensures forall i :: 0 <= i < 5 ==> r[i] == Slot(nextId + i, i + 1, SEED_TIMES[i].0, SEED_TIMES[i].1)
  {
    seq(5, i requires 0 <= i < 5 => Slot(nextId + i, i + 1, SEED_TIMES[i].0, SEED_TIMES[i].1))
  }

  /** The seeding step of `init_database`: the five periods go in only when the table is empty. */
  method SeedTimeSlots(db: Database)
    modifies db
    ensures old(db.tables.slots) == [] ==>
      db.tables == old(db.tables).(slots := SeedSlots(old(db.tables.nextId)), nextId := old(db.tables.nextId) + 5)
    ensures old(db.tables.slots) != [] ==> db.tables == old(db.tables)
  {
    var count := |db.tables.slots|;
    if count == 0 {
      db.tables := db.tables.(slots := SeedSlots(db.tables.nextId), nextId := db.tables.nextId + 5);
    }
  }

  /** The i-th seeded period's start, as a time of day. */
  function SeedStart(i: int): (t: TimeOfDay)
    requires 0 <= i < 5
    ensures ValidTime(t)
  {
    if i == 0 then TimeOfDay(8, 30)
    else if i == 1 then TimeOfDay(10, 10)
    else if i == 2 then TimeOfDay(11, 50)
    else if i == 3 then TimeOfDay(14, 0)
    else TimeOfDay(15, 40)
  }

  /** The seeded start times are rendered times of day, so they parse back to them. */
  lemma SeedStartsParse(i: int)
    requires 0 <= i < 5
    ensures ParseClock(SEED_TIMES[i].0) == Some(SeedStart(i))
  {
    assert ClockText(SeedStart(i)) == SEED_TIMES[i].0;
    ParseClockText(SeedStart(i));
  }

  /** Every seeded period gets its reminder, five minutes before its start. */
  lemma SeedReminder(nextId: int, i: int)
    requires 0 <= i < 5
    ensures ReminderJobOf(SeedSlots(nextId)[i]).Some?
  {
    SeedStartsParse(i);
    assert SeedSlots(nextId)[i].startTime == SEED_TIMES[i].0;
  }

  /** The seeded periods carry distinct numbers. */
  lemma SeedNumbersDistinct(nextId: int)
    ensures forall i, j :: 0 <= i < j < |SeedSlots(nextId)| ==> SeedSlots(nextId)[i].slotNumber != SeedSlots(nextId)[j].slotNumber
  {
  }

  /** Every seeded period has a reminder job. */
  lemma SeedRemindersDefined(nextId: int)
    ensures forall i :: 0 <= i < |SeedSlots(nextId)| ==> ReminderJobOf(SeedSlots(nextId)[i]).Some?
  {
    forall i | 0 <= i < |SeedSlots(nextId)|
      ensures ReminderJobOf(SeedSlots(nextId)[i]).Some?
    {
      SeedReminder(nextId, i);
    }
  }

  /** On the seeded periods the scheduler registers six jobs: the morning job and five reminders. */
  lemma SeededScheduleHasSixJobs(nextId: int)
    ensures JobTable(SeedSlots(nextId), ReminderJobOf).Some?
    ensures |JobTable(SeedSlots(nextId), ReminderJobOf).value| == 6
  {
    SeedRemindersDefined(nextId);
    JobTableDefinedIff(SeedSlots(nextId), ReminderJobOf);
    SeedNumbersDistinct(nextId);
    JobCountDistinct(SeedSlots(nextId), ReminderJobOf);
  }
}
