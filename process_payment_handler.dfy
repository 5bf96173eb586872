/**
 * ProcessPaymentHandler: look the payer's wallet up, run the entity's rules, and append one
 * immutable PaymentProcessed event. No balance is written anywhere; the event records the
 * balance before and after. The fresh payment id, the event id and the clock are parameters.
 */
module ProcessPayment {
  import opened Results
  import opened PaymentEvents
  import opened WalletEntity
  import opened EventStoreRepository
  import opened WalletRepositoryImpl
  import opened PaymentLedger

  /** The row a successful payment appends: to the payer's stream, with the next id and version. */
  function ProcessedRow(log: seq<StoredEvent>, command: ProcessPaymentCommand, paymentId: string,
                        w: Wallet, now: int): StoredEvent
  {
    StoredEvent(|log| + 1, command.walletId, WalletAggregateType, PaymentProcessedType,
                ProcessedData(command, paymentId, w), now, |EventsFor(log, command.walletId)| + 1)
  }

  /** A processed row keeps the ledger invariant and, for a new payment id, becomes that payment's original event. */
  lemma ProcessedAppendKeepsLedger(log: seq<StoredEvent>, row: StoredEvent)
    requires LedgerInvariant(log) && row.eventType == PaymentProcessedType
    ensures LedgerInvariant(log + [row])
    ensures FirstProcessed(log, row.eventData.paymentId).None?
            ==> FirstProcessed(log + [row], row.eventData.paymentId) == Some(row)
  {
    AppendNonTerminalKeepsLedger(log, row);
    FirstProcessedSnoc(log, row, row.eventData.paymentId);
  }

  /** Everything `execute` promises on its success path, stated over the log before and after the append. */
  lemma AcceptedPaymentOutcome(before: seq<StoredEvent>, after: seq<StoredEvent>, wallets: map<string, Wallet>,
                               command: ProcessPaymentCommand, paymentId: string, eventId: string, now: int,
                               r: Result<string>, published: Option<PaymentProcessedEvent>)
    requires LedgerInvariant(before)
    requires command.walletId in wallets && CanProcessPayment(wallets[command.walletId], command.amount).success
    requires after == before + [ProcessedRow(before, command, paymentId, wallets[command.walletId], now)]
    requires r == Ok(paymentId)
    requires published == Some(PaymentProcessedEvent(eventId, now, paymentId, command.walletId, command.amount,
                                                     command.currency, command.recipientWalletId, command.concept,
                                                     wallets[command.walletId].balance,
                                                     CalculateNewBalance(wallets[command.walletId], command.amount)))
    ensures LedgerInvariant(after) && WellFormed(r) && r.success
    ensures after[|after| - 1].eventData.newBalance >= 0
    ensures FirstProcessed(before, paymentId).None? ==> FirstProcessed(after, paymentId) == Some(after[|after| - 1])
  {
    var w := wallets[command.walletId];
    AcceptedPaymentKeepsBalanceNonNegative(w, command.amount);
    ProcessedAppendKeepsLedger(before, ProcessedRow(before, command, paymentId, w, now));
  }

  class ProcessPaymentHandler {
    const walletRepository: WalletRepository
    const eventStore: EventStore

    constructor (walletRepository: WalletRepository, eventStore: EventStore)
      ensures this.walletRepository == walletRepository && this.eventStore == eventStore
    {
      this.walletRepository := walletRepository;
      this.eventStore := eventStore;
    }

    /**
     * `execute`: an unknown wallet and a payment the rules refuse leave the store as it was
     * and return the error; otherwise exactly one PaymentProcessed row is appended, the same
     * event is published, and the new payment id is returned.
     */
    method Execute(command: ProcessPaymentCommand, paymentId: string, eventId: string, now: int)
      returns (r: Result<string>, published: Option<PaymentProcessedEvent>)
      requires eventStore.Valid() && LedgerInvariant(eventStore.log)
      modifies eventStore
      ensures eventStore.Valid() && LedgerInvariant(eventStore.log)
      ensures WellFormed(r)
      ensures command.walletId !in walletRepository.wallets
              ==> r == Fail(WalletNotFoundMessage(command.walletId))
      ensures command.walletId in walletRepository.wallets
              && !CanProcessPayment(walletRepository.wallets[command.walletId], command.amount).success
              ==> r == Fail(CanProcessPayment(walletRepository.wallets[command.walletId], command.amount).error.value)
      ensures r.success <==> command.walletId in walletRepository.wallets
                             && CanProcessPayment(walletRepository.wallets[command.walletId], command.amount).success
      ensures !r.success ==> eventStore.log == old(eventStore.log) && published.None?
      ensures r.success ==>
        var w := walletRepository.wallets[command.walletId];
        r == Ok(paymentId) &&
        eventStore.log == old(eventStore.log) + [ProcessedRow(old(eventStore.log), command, paymentId, w, now)] &&
        published == Some(PaymentProcessedEvent(eventId, now, paymentId, command.walletId, command.amount,
                                                command.currency, command.recipientWalletId, command.concept,
                                                w.balance, CalculateNewBalance(w, command.amount)))
      ensures r.success ==> eventStore.log[|eventStore.log| - 1].eventData.newBalance >= 0
      ensures r.success && FirstProcessed(old(eventStore.log), paymentId).None?
              ==> eventStore.FindEventByPaymentId(paymentId) == Some(eventStore.log[|eventStore.log| - 1])
    {
      var wallet := walletRepository.FindById(command.walletId);
      if wallet.None? {
        r := Fail(WalletNotFoundMessage(command.walletId));
        published := None;
        return;
      }
      var w := wallet.value;
      var validation := CanProcessPayment(w, command.amount);
      if !validation.success {
        r := Fail(validation.error.value);
        published := None;
        return;
      }
      var previousBalance := w.balance;
      var newBalance := CalculateNewBalance(w, command.amount);
      var event := PaymentProcessedEvent(eventId, now, paymentId, command.walletId, command.amount,
                                         command.currency, command.recipientWalletId, command.concept,
                                         previousBalance, newBalance);
      ghost var before := eventStore.log;
      ghost var row := ProcessedRow(before, command, paymentId, w, now);
      // the wallet map lives in another object, so the append leaves it as it was
      assert (walletRepository as object) != (eventStore as object);
      eventStore.Append(command.walletId, WalletAggregateType, PaymentProcessedType,
                        ProcessedData(command, paymentId, w), now);
      assert eventStore.log == before + [row];
      published := Some(event);
      r := Ok(paymentId);
      AcceptedPaymentOutcome(before, eventStore.log, walletRepository.wallets, command, paymentId, eventId, now,
                             r, published);
    }
  }
}
