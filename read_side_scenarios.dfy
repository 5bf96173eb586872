/**
 * The read side end to end: projections applied in delivery order, then the list query.
 * The event bus delivers asynchronously, so the projections are called here explicitly,
 * and the order they run in is the caller's choice.
 */
module ReadSideScenarios {
  import opened Results
  import opened PaymentEvents
  import opened PaymentReadRepositoryImpl
  import opened PaymentProcessedProjection
  import opened CancelledProjection
  import opened ListPayments

  /**
   * A cancellation delivered before its payment's PaymentProcessed event finds no row to
   * update, so once the late PaymentProcessed arrives the payment reads PROCESSED.
   */
  lemma CancelBeforeProcessedEndsProcessed(rows: seq<PaymentReadModel>, processed: PaymentProcessedEvent,
                                           cancelled: PaymentCancelledEvent)
    requires cancelled.paymentId == processed.paymentId && Lookup(rows, processed.paymentId).None?
    ensures var after := Upserted(StatusUpdated(rows, cancelled.paymentId, StatusName(CANCELLED)), ReadRowOf(processed));
            Lookup(after, processed.paymentId) == Some(ReadRowOf(processed))
            && Lookup(after, processed.paymentId).value.status == "PROCESSED"
  {
    StatusUpdateOfAbsentKey(rows, cancelled.paymentId, StatusName(CANCELLED));
    UpsertLookup(rows, ReadRowOf(processed), processed.paymentId);
  }

  /**
   * PaymentProcessed then PaymentCancelled for a 1,000 payment of WAL-001 (10,000 before):
   * the row reads CANCELLED, the balance snapshot stays at 9,000, and listing WAL-001's
   * payments gives that one row on one page.
   */
  method ProjectPayThenCancel() returns (status: string, snapshot: int, listed: PaginatedPayments)
    ensures status == "CANCELLED" && snapshot == 9_000
    ensures listed.meta.total == 1 && listed.meta.totalPages == 1 && |listed.data| == 1
  {
    var repository := new PaymentReadRepository();
    var wallets := new WalletsReadModel(map["WAL-001" := WalletSnapshot(10_000, 0)]);
    var onProcessed := new PaymentProcessedHandler(repository, wallets);
    var onCancelled := new PaymentCancelledProjection(repository);
    var paid := PaymentProcessedEvent("EVT-1", 1, "PAY-001", "WAL-001", 1_000, "USD", "WAL-002", "Compra",
                                      10_000, 9_000);
    onProcessed.Handle(paid, 1);
    assert repository.rows == [ReadRowOf(paid)];
    var cancel := PaymentCancelledEvent("EVT-2", 2, "PAY-001", "WAL-001", 1_000, "USD", "Error", 9_000, 10_000);
    onCancelled.Handle(cancel);
    var row := ReadRowOf(paid).(status := "CANCELLED");
    assert repository.rows == [row];
    status := repository.FindById("PAY-001").value.status;
    snapshot := wallets.balances["WAL-001"].balance;

    var list := new ListPaymentsHandler(repository);
    var query := ListPaymentsQuery(Some("WAL-001"), None, 1, 20);
    assert MatchCount(repository.rows, FiltersOf(query)) == 1 by {
      assert repository.rows[1..] == [];
    }
    listed := list.Execute(query);
  }
}
