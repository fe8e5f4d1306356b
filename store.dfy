/**
 * The application database as in-memory tables. Rows are kept in
 * insertion order, which is the order of their ids; a single counter hands
 * out fresh ids. The SQL engine itself is not modelled: each query of the
 * application becomes a function over these tables and each write a method
 * that replaces them.
 */
module Store {
  import opened Wrappers
  import opened Timezone
  import opened Models

  /** The kinds of message the delivery ledger records. */
  datatype MessageType = Morning | Reminder | Broadcast

  /** Delivery outcome as the ledger records it. */
  datatype Status = Sent | Error

  function MessageTypeName(t: MessageType): string {
    match t
    case Morning => "morning"
    case Reminder => "reminder"
    case Broadcast => "broadcast"
  }

  function StatusName(s: Status): string {
    match s
    case Sent => "sent"
    case Error => "error"
  }

  /** A time slot of the day ("pair number"), with its start and end as "HH:MM" text. */
  datatype Slot = Slot(id: int, slotNumber: int, startTime: string, endTime: string)

  /** A class assigned to a direction. */
  datatype Assignment = Assignment(pairId: int, directionId: int)

  /** One row of the delivery ledger. */
  datatype LogRow = LogRow(
    id: int, userId: int, messageType: MessageType, status: Status,
    errorMessage: Option<string>, deliveredAt: Instant)

  /** One completed donation. */
  datatype Payment = Payment(
    id: int, tgId: int, amount: int, currency: string, payload: string, status: string, chargeId: string)

  /** All tables at one moment. */
  datatype Tables = Tables(
    users: seq<User>,
    directions: seq<Direction>,
    slots: seq<Slot>,
    pairs: seq<Pair>,
    assignments: seq<Assignment>,
    deliveryLog: seq<LogRow>,
    payments: seq<Payment>,
    nextId: int)

  const EMPTY: Tables := Tables([], [], [], [], [], [], [], 1)

  /** Id of a stored row; rows read back from the database always carry one. */
  function UserId(u: User): int { u.id.GetOr(0) }

  function DirectionId(d: Direction): int { d.id.GetOr(0) }

  function PairId(p: Pair): int { p.id.GetOr(0) }

  predicate UserExists(t: Tables, tgId: int) {
    exists i :: 0 <= i < |t.users| && t.users[i].tgId == tgId
  }

  predicate DirectionExists(t: Tables, id: int) {
    exists i :: 0 <= i < |t.directions| && t.directions[i].id == Some(id)
  }

  predicate PairExists(t: Tables, id: int) {
    exists i :: 0 <= i < |t.pairs| && t.pairs[i].id == Some(id)
  }

  /** The student registered under a Telegram id, if any. */
  function FindUser(users: seq<User>, tgId: int): (r: Option<User>)
    ensures r.Some? <==> exists i :: 0 <= i < |users| && users[i].tgId == tgId
    ensures r.Some? ==> r.value in users && r.value.tgId == tgId
  {
    if users == [] then None
    else if users[0].tgId == tgId then Some(users[0])
    else FindUser(users[1..], tgId)
  }

  /** The direction with a given id, if any. */
  function FindDirection(directions: seq<Direction>, id: int): (r: Option<Direction>)
    ensures r.Some? <==> exists i :: 0 <= i < |directions| && directions[i].id == Some(id)
    ensures r.Some? ==> r.value in directions && r.value.id == Some(id)
  {
    if directions == [] then None
    else if directions[0].id == Some(id) then Some(directions[0])
    else FindDirection(directions[1..], id)
  }

  /**
   * The invariants the schema enforces: ids are below the id counter and
   * Telegram ids are unique among students. The primary keys also make
   * class and student ids unique; that is left out here because no result
   * depends on it: the queries are stated per row, which is what SQL's
   * grouping by id gives when ids are unique.
   */
  ghost predicate Valid(t: Tables) {
    && (forall i :: 0 <= i < |t.users| ==> t.users[i].id.Some? && t.users[i].id.value < t.nextId)
    && (forall i, j :: 0 <= i < j < |t.users| ==> t.users[i].tgId != t.users[j].tgId)
    && (forall i :: 0 <= i < |t.pairs| ==> t.pairs[i].id.Some? && t.pairs[i].id.value < t.nextId)
    && (forall i :: 0 <= i < |t.directions| ==> t.directions[i].id.Some? && t.directions[i].id.value < t.nextId)
    && (forall i :: 0 <= i < |t.deliveryLog| ==> t.deliveryLog[i].id < t.nextId)
  }

  /** The database a connection talks to. */
  class Database {
    var tables: Tables

    constructor (initial: Tables)
      ensures tables == initial
    {
      tables := initial;
    }
  }
}
