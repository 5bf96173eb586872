/**
 * Rules the three command handlers share: their failure messages, the payloads they
 * write, the `some` scan that guards cancel and refund, and the ledger invariant that
 * scan maintains: every cancel or refund event sits in the stream of the wallet that made
 * the payment, and no payment has more than one of them.
 */
module PaymentLedger {
  import opened Results
  import opened PaymentEvents
  import opened WalletEntity
  import opened EventStoreRepository

  function WalletNotFoundMessage(walletId: string): string {
    "Wallet " + walletId + " no encontrada"
  }

  function PaymentNotFoundMessage(paymentId: string): string {
    "Pago " + paymentId + " no encontrado"
  }

  function AlreadyTerminalMessage(paymentId: string): string {
    "Pago " + paymentId + " ya fue cancelado o reembolsado"
  }

  /** A cancel or a refund: the two event types after which a payment admits nothing more. */
  predicate IsTerminalType(eventType: string) {
    eventType == PaymentCancelledType || eventType == PaymentRefundedType
  }

  /** A PaymentProcessed row never counts as a cancel or a refund. */
  lemma ProcessedIsNotTerminal()
    ensures !IsTerminalType(PaymentProcessedType)
  {
    assert PaymentProcessedType[7] != PaymentCancelledType[7];
  }

  predicate IsTerminalFor(e: StoredEvent, paymentId: string) {
    IsTerminalType(e.eventType) && e.eventData.paymentId == paymentId
  }

  /** The handlers' `walletEvents.some(...)`: does any event of the list end this payment? */
  function AnyTerminalFor(events: seq<StoredEvent>, paymentId: string): (found: bool)
    ensures found <==> exists i :: 0 <= i < |events| && IsTerminalFor(events[i], paymentId)
  {
    if events == [] then false
    else IsTerminalFor(events[0], paymentId) || AnyTerminalFor(events[1..], paymentId)
  }

  /** The payload ProcessPaymentHandler writes for a payment out of wallet `w`. */
  function ProcessedData(cmd: ProcessPaymentCommand, paymentId: string, w: Wallet): EventData {
    EventData(paymentId, cmd.walletId, cmd.amount, cmd.currency,
              Some(cmd.recipientWalletId), Some(cmd.concept), None,
              w.balance, CalculateNewBalance(w, cmd.amount))
  }

  /**
   * The payload of a cancel or refund: amount and currency of the original payment, the
   * given reason, and the wallet's CURRENT balance plus that amount (not the original
   * event's previous balance).
   */
  function TerminalData(paymentId: string, original: EventData, reason: string, w: Wallet): EventData {
    EventData(paymentId, original.walletId, original.amount, original.currency,
              None, None, Some(reason), w.balance, w.balance + original.amount)
  }

  /** The row cancel or refund appends: to the payer's stream, with the next id and version. */
  function TerminalRow(log: seq<StoredEvent>, paymentId: string, original: EventData, reason: string,
                       w: Wallet, eventType: string, now: int): StoredEvent
  {
    StoredEvent(|log| + 1, original.walletId, WalletAggregateType, eventType,
                TerminalData(paymentId, original, reason, w), now,
                |EventsFor(log, original.walletId)| + 1)
  }

  /**
   * What cancel and refund promise, from the log `before` to the log `after`: an unknown
   * payment, a payment already cancelled or refunded (anywhere in the log), and an unknown
   * payer wallet are refused in that order with the log untouched; otherwise exactly one
   * terminal row is appended and the payment id is returned.
   */
  ghost predicate TerminalOutcome(before: seq<StoredEvent>, after: seq<StoredEvent>,
                                  wallets: map<string, Wallet>, paymentId: string, reason: string,
                                  eventType: string, now: int, r: Result<string>)
  {
    WellFormed(r) &&
    (!r.success ==> after == before) &&
    match FirstProcessed(before, paymentId)
    case None => r == Fail(PaymentNotFoundMessage(paymentId))
    case Some(original) =>
      if AnyTerminalFor(before, paymentId) then
        r == Fail(AlreadyTerminalMessage(paymentId))
      else if original.eventData.walletId !in wallets then
        r == Fail(WalletNotFoundMessage(original.eventData.walletId))
      else
        r == Ok(paymentId) &&
        after == before + [TerminalRow(before, paymentId, original.eventData, reason,
                                       wallets[original.eventData.walletId], eventType, now)]
  }

  /*
   * The four ways cancel and refund end, each as it meets `TerminalOutcome`; the handlers
   * name the one their path takes.
   */
  lemma OutcomePaymentNotFound(before: seq<StoredEvent>, after: seq<StoredEvent>, wallets: map<string, Wallet>,
                               paymentId: string, reason: string, eventType: string, now: int, r: Result<string>)
    requires FirstProcessed(before, paymentId).None?
    requires after == before && r == Fail(PaymentNotFoundMessage(paymentId))
    ensures TerminalOutcome(before, after, wallets, paymentId, reason, eventType, now, r)
  {
  }

  lemma OutcomeAlreadyTerminal(before: seq<StoredEvent>, after: seq<StoredEvent>, wallets: map<string, Wallet>,
                               paymentId: string, reason: string, eventType: string, now: int, r: Result<string>)
    requires FirstProcessed(before, paymentId).Some? && AnyTerminalFor(before, paymentId)
    requires after == before && r == Fail(AlreadyTerminalMessage(paymentId))
    ensures TerminalOutcome(before, after, wallets, paymentId, reason, eventType, now, r)
  {
  }

  lemma OutcomeWalletNotFound(before: seq<StoredEvent>, after: seq<StoredEvent>, wallets: map<string, Wallet>,
                              paymentId: string, reason: string, eventType: string, now: int, r: Result<string>)
    requires FirstProcessed(before, paymentId).Some? && !AnyTerminalFor(before, paymentId)
    requires FirstProcessed(before, paymentId).value.eventData.walletId !in wallets
    requires after == before
    requires r == Fail(WalletNotFoundMessage(FirstProcessed(before, paymentId).value.eventData.walletId))
    ensures TerminalOutcome(before, after, wallets, paymentId, reason, eventType, now, r)
  {
  }

  lemma OutcomeAppended(before: seq<StoredEvent>, after: seq<StoredEvent>, wallets: map<string, Wallet>,
                        paymentId: string, reason: string, eventType: string, now: int, r: Result<string>,
                        original: EventData, w: Wallet)
    requires FirstProcessed(before, paymentId).Some? && !AnyTerminalFor(before, paymentId)
    requires FirstProcessed(before, paymentId).value.eventData == original
    requires original.walletId in wallets && wallets[original.walletId] == w
    requires after == before + [TerminalRow(before, paymentId, original, reason, w, eventType, now)]
    requires r == Ok(paymentId)
    ensures TerminalOutcome(before, after, wallets, paymentId, reason, eventType, now, r)
  {
  }

  /** Every cancel or refund event lies in the stream of the wallet named by its payment's original event. */
  ghost predicate TerminalsInPayerStream(log: seq<StoredEvent>) {
    forall i :: 0 <= i < |log| && IsTerminalType(log[i].eventType) ==>
      FirstProcessed(log, log[i].eventData.paymentId).Some? &&
      log[i].aggregateId == FirstProcessed(log, log[i].eventData.paymentId).value.eventData.walletId
  }

  /** No payment is cancelled or refunded twice. */
  ghost predicate AtMostOneTerminalPerPayment(log: seq<StoredEvent>) {
    forall i, j :: 0 <= i < j < |log| && IsTerminalType(log[i].eventType) && IsTerminalType(log[j].eventType)
      ==> log[i].eventData.paymentId != log[j].eventData.paymentId
  }

  ghost predicate LedgerInvariant(log: seq<StoredEvent>) {
    TerminalsInPayerStream(log) && AtMostOneTerminalPerPayment(log)
  }

  lemma EmptyLedger()
    ensures LedgerInvariant([])
  {
  }

  /**
   * The handlers' scan of the payer's stream finds a cancel or refund exactly when the whole
   * log holds one, given the stream the store returns for the original event's wallet.
   */
  lemma StreamScanSeesEveryTerminal(log: seq<StoredEvent>, paymentId: string, stream: seq<StoredEvent>)
    requires LedgerInvariant(log) && FirstProcessed(log, paymentId).Some?
    requires forall e :: e in stream <==> e in log && e.aggregateId == FirstProcessed(log, paymentId).value.eventData.walletId
    ensures AnyTerminalFor(stream, paymentId) <==> AnyTerminalFor(log, paymentId)
  {
    var w := FirstProcessed(log, paymentId).value.eventData.walletId;
    if AnyTerminalFor(log, paymentId) {
      var i :| 0 <= i < |log| && IsTerminalFor(log[i], paymentId);
      assert log[i] in stream;
      var k :| 0 <= k < |stream| && stream[k] == log[i];
    }
    if AnyTerminalFor(stream, paymentId) {
      var k :| 0 <= k < |stream| && IsTerminalFor(stream[k], paymentId);
      assert stream[k] in log;
      var i :| 0 <= i < |log| && log[i] == stream[k];
    }
  }

  /** Appending a PaymentProcessed (or any non-terminal) event keeps the invariant. */
  lemma AppendNonTerminalKeepsLedger(log: seq<StoredEvent>, e: StoredEvent)
    requires LedgerInvariant(log) && !IsTerminalType(e.eventType)
    ensures LedgerInvariant(log + [e])
  {
    var l := log + [e];
    forall i | 0 <= i < |l| && IsTerminalType(l[i].eventType)
      ensures FirstProcessed(l, l[i].eventData.paymentId).Some?
      ensures l[i].aggregateId == FirstProcessed(l, l[i].eventData.paymentId).value.eventData.walletId
    {
      assert l[i] == log[i];
      FirstProcessedSnoc(log, e, log[i].eventData.paymentId);
    }
  }

  /**
   * The guard of cancel and refund: a terminal event for a known payment that has none yet,
   * appended to the payer's stream, keeps the invariant.
   */
  lemma AppendGuardedTerminalKeepsLedger(log: seq<StoredEvent>, e: StoredEvent)
    requires LedgerInvariant(log) && IsTerminalType(e.eventType)
    requires FirstProcessed(log, e.eventData.paymentId).Some?
    requires e.aggregateId == FirstProcessed(log, e.eventData.paymentId).value.eventData.walletId
    requires !AnyTerminalFor(log, e.eventData.paymentId)
    ensures LedgerInvariant(log + [e])
    ensures AnyTerminalFor(log + [e], e.eventData.paymentId)
  {
    var p := e.eventData.paymentId;
    var l := log + [e];
    forall i | 0 <= i < |l| && IsTerminalType(l[i].eventType)
      ensures FirstProcessed(l, l[i].eventData.paymentId).Some?
      ensures l[i].aggregateId == FirstProcessed(l, l[i].eventData.paymentId).value.eventData.walletId
    {
      FirstProcessedSnoc(log, e, l[i].eventData.paymentId);
      if i < |log| {
        assert l[i] == log[i];
      }
    }
    forall i, j | 0 <= i < j < |l| && IsTerminalType(l[i].eventType) && IsTerminalType(l[j].eventType)
      ensures l[i].eventData.paymentId != l[j].eventData.paymentId
    {
      if j == |log| {
        assert l[i] == log[i];
        assert !IsTerminalFor(log[i], p);
      } else {
        assert l[i] == log[i] && l[j] == log[j];
      }
    }
    assert l[|log|] == e;
  }

  /**
   * The append both handlers end with: one terminal row for a known payment with no terminal
   * row yet, written to the payer's stream; the store and the ledger invariant are kept.
   */
  method AppendTerminal(eventStore: EventStore, paymentId: string, original: EventData, reason: string,
                        w: Wallet, eventType: string, now: int)
    requires eventStore.Valid() && LedgerInvariant(eventStore.log) && IsTerminalType(eventType)
    requires FirstProcessed(eventStore.log, paymentId).Some?
    requires FirstProcessed(eventStore.log, paymentId).value.eventData == original
    requires !AnyTerminalFor(eventStore.log, paymentId)
    modifies eventStore
    ensures eventStore.Valid() && LedgerInvariant(eventStore.log)
    ensures eventStore.log == old(eventStore.log) + [TerminalRow(old(eventStore.log), paymentId, original, reason, w, eventType, now)]
  {
    var data := TerminalData(paymentId, original, reason, w);
    ghost var before := eventStore.log;
    ghost var row := TerminalRow(before, paymentId, original, reason, w, eventType, now);
    eventStore.Append(original.walletId, WalletAggregateType, eventType, data, now);
    assert eventStore.log == before + [row];
    AppendGuardedTerminalKeepsLedger(before, row);
  }

  /**
   * A payment is cancelled or refunded at most once: after one successful cancel or refund,
   * any further cancel or refund of it is refused with the "already" message and the log
   * stays as it is, whichever of the two came first.
   */
  lemma SecondTerminalIsRefused(l0: seq<StoredEvent>, l1: seq<StoredEvent>, l2: seq<StoredEvent>,
                                wallets1: map<string, Wallet>, wallets2: map<string, Wallet>,
                                paymentId: string, reason1: string, reason2: string,
                                type1: string, type2: string, now1: int, now2: int,
                                r1: Result<string>, r2: Result<string>)
    requires IsTerminalType(type1)
    requires TerminalOutcome(l0, l1, wallets1, paymentId, reason1, type1, now1, r1) && r1.success
    requires TerminalOutcome(l1, l2, wallets2, paymentId, reason2, type2, now2, r2)
    ensures r2 == Fail(AlreadyTerminalMessage(paymentId))
    ensures l2 == l1
  {
    var original := FirstProcessed(l0, paymentId).value;
    var e := TerminalRow(l0, paymentId, original.eventData, reason1,
                         wallets1[original.eventData.walletId], type1, now1);
    assert l1 == l0 + [e];
    FirstProcessedSnoc(l0, e, paymentId);
    assert l1[|l1| - 1] == e && IsTerminalFor(e, paymentId);
  }
}
