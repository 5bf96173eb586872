/**
 * Whole-flow runs of the command side over the demo wallets: the handlers wired to one
 * fresh event store and one fresh wallet repository, as the payment module wires them.
 */
module PaymentScenarios {
  import opened Results
  import opened PaymentEvents
  import opened WalletEntity
  import opened EventStoreRepository
  import opened WalletRepositoryImpl
  import opened PaymentLedger
  import opened ProcessPayment
  import opened RefundPayment

  /**
   * A refund of the single payment in a log, with the payer's wallet still at its seed
   * balance: accepted, and recorded on top of that unchanged balance.
   */
  lemma RefundOverUnchangedWallet(l1: seq<StoredEvent>, l2: seq<StoredEvent>, wallets: map<string, Wallet>,
                                  reason: string, now: int, r: Result<string>)
    requires "WAL-001" in wallets && wallets["WAL-001"].balance == 10_000
    requires |l1| == 1 && l1[0].eventType == PaymentProcessedType
    requires l1[0].eventData.paymentId == "PAY-001" && l1[0].eventData.walletId == "WAL-001"
    requires l1[0].eventData.amount == 1_000
    requires TerminalOutcome(l1, l2, wallets, "PAY-001", reason, PaymentRefundedType, now, r)
    ensures r == Ok("PAY-001") && |l2| == 2 && l2[1].eventData.newBalance == 11_000
  {
    ProcessedIsNotTerminal();
    assert FirstProcessed(l1, "PAY-001") == Some(l1[0]);
    assert !AnyTerminalFor(l1, "PAY-001");
  }

  /**
   * WAL-001 pays 1,000 and the payment is refunded, then refunded again. The wallet
   * repository is never written, so the refund starts from the seeded 10,000 and records a
   * new balance of 11,000; the second refund is refused and the log keeps two rows.
   */
  method PayThenRefundTwice() returns (paid: Result<string>, refunded: Result<string>,
                                        again: Result<string>, refundNewBalance: int, rows: nat)
    ensures paid == Ok("PAY-001") && refunded == Ok("PAY-001")
    ensures again == Fail(AlreadyTerminalMessage("PAY-001"))
    ensures refundNewBalance == 11_000
    ensures rows == 2
  {
    var store := new EventStore();
    var wallets := new WalletRepository();
    var processHandler := new ProcessPaymentHandler(wallets, store);
    var refundHandler := new RefundPaymentHandler(store, wallets);
    EmptyLedger();
    // two distinct repositories: appending events never touches the wallet map
    assert (wallets as object) != (store as object);
    ghost var w1 := wallets.wallets["WAL-001"];
    assert w1.balance == 10_000;

    var paidEvent;
    paid, paidEvent := processHandler.Execute(
      ProcessPaymentCommand("WAL-001", 1_000, "USD", "WAL-002", "Compra"), "PAY-001", "EVT-1", 1);
    ghost var log1 := store.log;
    assert paid.success;
    assert |log1| == 1 && log1[0].eventType == PaymentProcessedType;
    assert log1[0].eventData.paymentId == "PAY-001" && log1[0].eventData.walletId == "WAL-001";
    assert log1[0].eventData.amount == 1_000;

    var refundEvent;
    refunded, refundEvent := refundHandler.Execute(RefundPaymentCommand("PAY-001", "Producto defectuoso"), "EVT-2", 2);
    ghost var log2 := store.log;
    RefundOverUnchangedWallet(log1, log2, wallets.wallets, "Producto defectuoso", 2, refunded);
    refundNewBalance := store.log[|store.log| - 1].eventData.newBalance;

    var published2;
    again, published2 := refundHandler.Execute(RefundPaymentCommand("PAY-001", "Doble refund"), "EVT-3", 3);
    SecondTerminalIsRefused(log1, log2, store.log, wallets.wallets, wallets.wallets, "PAY-001",
                            "Producto defectuoso", "Doble refund", PaymentRefundedType, PaymentRefundedType,
                            2, 3, refunded, again);
    rows := |store.log|;
  }
}
