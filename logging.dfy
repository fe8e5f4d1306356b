/**
 * The delivery ledger write used by the scheduled jobs: one INSERT into
 * the ledger, whose failure is logged and swallowed so that the caller
 * carries on.
 */
module Ledger {
  import opened Wrappers
  import opened Timezone
  import opened Store

  /**
   * The tables after one ledger row is appended: the new row takes the next
   * id, and `deliveredAt` is the database clock (the column default).
   */
  function Logged(t: Tables, userId: int, messageType: MessageType, status: Status,
                  errorMessage: Option<string>, dbNow: Instant): (r: Tables)
    ensures |r.deliveryLog| == |t.deliveryLog| + 1
    ensures r.deliveryLog[..|t.deliveryLog|] == t.deliveryLog
    ensures var row := r.deliveryLog[|t.deliveryLog|];
      row.userId == userId && row.messageType == messageType && row.status == status
      && row.errorMessage == errorMessage && row.deliveredAt == dbNow && row.id == t.nextId
    ensures r.users == t.users && r.directions == t.directions && r.slots == t.slots
      && r.pairs == t.pairs && r.assignments == t.assignments && r.payments == t.payments
    ensures r.nextId == t.nextId + 1
  {
    var row := LogRow(t.nextId, userId, messageType, status, errorMessage, dbNow);
    assert (t.deliveryLog + [row])[..|t.deliveryLog|] == t.deliveryLog;
    t.(deliveryLog := t.deliveryLog + [row], nextId := t.nextId + 1)
  }

  /** Appending a ledger row keeps the schema invariants. */
  lemma LoggedValid(t: Tables, userId: int, messageType: MessageType, status: Status,
                    errorMessage: Option<string>, dbNow: Instant)
    requires Valid(t)
    ensures Valid(Logged(t, userId, messageType, status, errorMessage, dbNow))
  {
    var r := Logged(t, userId, messageType, status, errorMessage, dbNow);
    forall i | 0 <= i < |r.deliveryLog|
      ensures r.deliveryLog[i].id < r.nextId
    {
      if i < |t.deliveryLog| {
        assert r.deliveryLog[i] == t.deliveryLog[i];
      }
    }
  }

  /**
   * `log_delivery`. `writeOk` says whether the INSERT and its commit
   * succeed; when they do not, nothing changes and no error reaches the
   * caller.
   */
  method LogDelivery(db: Database, userId: int, messageType: MessageType, status: Status,
                     errorMessage: Option<string>, dbNow: Instant, writeOk: bool)
    modifies db
    ensures db.tables == if writeOk then Logged(old(db.tables), userId, messageType, status, errorMessage, dbNow)
                         else old(db.tables)
  {
    if writeOk {
      db.tables := Logged(db.tables, userId, messageType, status, errorMessage, dbNow);
    }
  }
}
