/**
 * CancelPaymentHandler: find the payment's original event, refuse a payment the payer's
 * stream already shows as cancelled or refunded, and append a PaymentCancelled event whose
 * new balance is the wallet's current balance plus the payment's amount. The event id and
 * the clock are parameters.
 */
module CancelPayment {
  import opened Results
  import opened PaymentEvents
  import opened WalletEntity
  import opened EventStoreRepository
  import opened WalletRepositoryImpl
  import opened PaymentLedger

  class CancelPaymentHandler {
    const eventStore: EventStore
    const walletRepository: WalletRepository

    constructor (eventStore: EventStore, walletRepository: WalletRepository)
      ensures this.eventStore == eventStore && this.walletRepository == walletRepository
    {
      this.eventStore := eventStore;
      this.walletRepository := walletRepository;
    }

    /**
     * `execute`: the outcome `TerminalOutcome` describes for a PaymentCancelled row, the
     * ledger invariant kept, and, on success, the published event carries the stored payload.
     */
    method Execute(command: CancelPaymentCommand, eventId: string, now: int)
      returns (r: Result<string>, published: Option<PaymentCancelledEvent>)
      requires eventStore.Valid() && LedgerInvariant(eventStore.log)
      modifies eventStore
      ensures eventStore.Valid() && LedgerInvariant(eventStore.log)
      ensures TerminalOutcome(old(eventStore.log), eventStore.log, walletRepository.wallets,
                              command.paymentId, command.reason, PaymentCancelledType, now, r)
      ensures published.Some? <==> r.success
      ensures r.success ==>
        var d := eventStore.log[|eventStore.log| - 1].eventData;
        published == Some(PaymentCancelledEvent(eventId, now, command.paymentId, d.walletId, d.amount,
                                                d.currency, command.reason, d.previousBalance, d.newBalance))
    {
      ghost var before := eventStore.log;
      var originalEvent := eventStore.FindEventByPaymentId(command.paymentId);
      if originalEvent.None? {
        r := Fail(PaymentNotFoundMessage(command.paymentId));
        published := None;
        OutcomePaymentNotFound(before, eventStore.log, walletRepository.wallets, command.paymentId,
                               command.reason, PaymentCancelledType, now, r);
        return;
      }
      var paymentData := originalEvent.value.eventData;
      var walletId := paymentData.walletId;

      var walletEvents := eventStore.GetEvents(walletId);
      var alreadyCancelled := AnyTerminalFor(walletEvents, command.paymentId);
      StreamScanSeesEveryTerminal(before, command.paymentId, walletEvents);
      if alreadyCancelled {
        r := Fail(AlreadyTerminalMessage(command.paymentId));
        published := None;
        OutcomeAlreadyTerminal(before, eventStore.log, walletRepository.wallets, command.paymentId,
                               command.reason, PaymentCancelledType, now, r);
        return;
      }

      var wallet := walletRepository.FindById(walletId);
      if wallet.None? {
        r := Fail(WalletNotFoundMessage(walletId));
        published := None;
        OutcomeWalletNotFound(before, eventStore.log, walletRepository.wallets, command.paymentId,
                              command.reason, PaymentCancelledType, now, r);
        return;
      }
      var w := wallet.value;
      // previousBalance is the wallet's balance, newBalance that balance plus the payment's amount
      var data := TerminalData(command.paymentId, paymentData, command.reason, w);
      var event := PaymentCancelledEvent(eventId, now, command.paymentId, walletId, data.amount, data.currency,
                                         command.reason, data.previousBalance, data.newBalance);
      // the wallet map lives in another object, so the append leaves it as it was
      assert (walletRepository as object) != (eventStore as object);
      AppendTerminal(eventStore, command.paymentId, paymentData, command.reason, w, PaymentCancelledType, now);
      published := Some(event);
      r := Ok(command.paymentId);
      OutcomeAppended(before, eventStore.log, walletRepository.wallets, command.paymentId,
                      command.reason, PaymentCancelledType, now, r, paymentData, w);
    }
  }
}
