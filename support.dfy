/**
 * Donations through Telegram Stars: the invoice the bot sends, the
 * pre-checkout decision Telegram asks for before charging, and the record
 * of a completed payment.
 *
 * Sending the invoice and the messages is I/O and is left out; whether a
 * pre-checkout answer or the payment INSERT raised is a parameter.
 */
module Support {
  import opened Wrappers
  import opened Text
  import opened Store

  /** The prefix every payload this bot issues starts with, and the only thing pre-checkout looks at. */
  const DONATION_PREFIX: string := "support_donation"
  /** Telegram Stars. */
  const CURRENCY: string := "XTR"
  /** The price of the single invoice line, in Stars. */
  const DONATION_AMOUNT: int := 10

  const REJECT_PAYLOAD: string := "Неверный тип платежа"
  const REJECT_ERROR: string := "Ошибка обработки платежа"

  /** The invoice `support_command` sends. */
  datatype Invoice = Invoice(chatId: int, payload: string, currency: string, amount: int)

  /** The payload of the invoice for a user: the prefix, an underscore and the user's Telegram id. */
  function DonationPayload(userId: int): (r: string)
    ensures StartsWith(r, DONATION_PREFIX)
    ensures |r| > |DONATION_PREFIX| + 1 && r[|DONATION_PREFIX|] == '_'
    ensures r[|DONATION_PREFIX| + 1..] == IntToString(userId)
  {
    var r := DONATION_PREFIX + "_" + IntToString(userId);
    assert r[..|DONATION_PREFIX|] == DONATION_PREFIX;
    assert r[|DONATION_PREFIX| + 1..] == IntToString(userId);
    r
  }

  /** `support_command`: one invoice of 10 Stars into the user's chat. */
  function SupportInvoice(chatId: int, userId: int): (r: Invoice)
    ensures r.chatId == chatId && r.currency == CURRENCY && r.amount == DONATION_AMOUNT
    ensures r.payload == DonationPayload(userId)
  {
    Invoice(chatId, DonationPayload(userId), CURRENCY, DONATION_AMOUNT)
  }

  /** Different users get different payloads: the payload names its payer. */
  lemma PayloadNamesPayer(a: int, b: int)
    ensures DonationPayload(a) == DonationPayload(b) <==> a == b
  {
    if DonationPayload(a) == DonationPayload(b) {
      assert IntToString(a) == IntToString(b);
      ParseIntOfIntToString(a);
      ParseIntOfIntToString(b);
    }
  }

  /** Telegram's answer to a pre-checkout query. */
  datatype PreCheckoutAnswer = Approve | Reject(errorMessage: string)

  /**
   * `process_pre_checkout_query`: approve a payload that starts with the
   * donation prefix, reject any other; when the handler raised before
   * answering, reject with the processing error.
   */
  function PreCheckout(payload: string, raised: bool): (r: PreCheckoutAnswer)
    ensures r == Approve <==> !raised && StartsWith(payload, DONATION_PREFIX)
    ensures raised ==> r == Reject(REJECT_ERROR)
    ensures !raised && !StartsWith(payload, DONATION_PREFIX) ==> r == Reject(REJECT_PAYLOAD)
  {
    if raised then Reject(REJECT_ERROR)
    else if StartsWith(payload, DONATION_PREFIX) then Approve
    else Reject(REJECT_PAYLOAD)
  }

  /** Every invoice this bot sends passes its own pre-checkout. */
  lemma IssuedInvoicesApproved(chatId: int, userId: int)
    ensures PreCheckout(SupportInvoice(chatId, userId).payload, false) == Approve
  {
  }

  /**
   * The check is a prefix test only: it also approves a payload the bot
   * never issues, such as the bare prefix.
   */
  lemma PrefixCheckAdmitsForeignPayload(userId: int)
    ensures PreCheckout(DONATION_PREFIX, false) == Approve
    ensures DonationPayload(userId) != DONATION_PREFIX
  {
    assert StartsWith(DONATION_PREFIX, DONATION_PREFIX);
  }

  /** What `process_successful_payment` did. */
  datatype PaymentOutcome = Recorded(id: int) | RecordFailed | RecipientMismatch

  /**
   * The recipient guard compares the configured admin id with itself, so
   * it never fires.
   */
  predicate RecipientMismatched(adminTgId: int) { adminTgId != adminTgId }

  lemma RecipientGuardNeverFires(adminTgId: int)
    ensures !RecipientMismatched(adminTgId)
  {
  }

  /**
   * `process_successful_payment`: the payment is inserted with status
   * 'completed' and Telegram's charge id; when the INSERT raises nothing
   * is stored and the user is told to contact the admin.
   */
  method ProcessSuccessfulPayment(
    db: Database, adminTgId: int, userId: int, amount: int, currency: string, payload: string,
    chargeId: string, insertOk: bool) returns (outcome: PaymentOutcome)
    modifies db
    ensures outcome != RecipientMismatch
    ensures insertOk ==> outcome == Recorded(old(db.tables.nextId))
    ensures insertOk ==> db.tables == old(db.tables).(
      payments := old(db.tables.payments)
        + [Payment(old(db.tables.nextId), userId, amount, currency, payload, "completed", chargeId)],
      nextId := old(db.tables.nextId) + 1)
    ensures !insertOk ==> outcome == RecordFailed && db.tables == old(db.tables)
  {
    if RecipientMismatched(adminTgId) {
      return RecipientMismatch;
    }
    if !insertOk {
      return RecordFailed;
    }
    var id := db.tables.nextId;
    var row := Payment(id, userId, amount, currency, payload, "completed", chargeId);
    db.tables := db.tables.(payments := db.tables.payments + [row], nextId := id + 1);
    return Recorded(id);
  }

  function ThanksParts(amount: int): seq<string> {
    ["\n✨ <b>Огромное спасибо за поддержку!</b>\n\nВы поддержали разработку на ", IntToString(amount),
     " ⭐\n\n", "Ваша поддержка очень важна для развития проекта! \n",
     "Благодаря вам бот будет становиться лучше и получать новые полезные функции.\n\n",
     "С уважением,\nРазработчик бота 💙\n"]
  }

  /** The thank-you message after a recorded payment. */
  function ThanksText(amount: int): string {
    Concat(ThanksParts(amount))
  }

  /** The thank-you message states the amount paid. */
  lemma ThanksShowsAmount(amount: int)
    ensures Contains(ThanksText(amount), IntToString(amount))
  {
    ConcatContains(ThanksParts(amount), 1);
  }
}
