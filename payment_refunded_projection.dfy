/**
 * The PaymentRefunded projection: it sets the payment's read row to REFUNDED through
 * `updateStatus`. It holds no handle on `wallets_read_model`, so the balance snapshot
 * keeps whatever the PaymentProcessed projection last wrote.
 */
module RefundedProjection {
  import opened Results
  import opened PaymentEvents
  import opened PaymentReadRepositoryImpl

  /**
   * The read rows after the projection: a row keyed by the payment gets status REFUNDED and
   * keeps its other fields; an unknown payment changes nothing and nothing is inserted.
   */
  lemma RefundedReadRow(rows: seq<PaymentReadModel>, event: PaymentRefundedEvent, q: string)
    ensures var after := StatusUpdated(rows, event.paymentId, StatusName(REFUNDED));
      |after| == |rows| &&
      Lookup(after, q) ==
        if q == event.paymentId && Lookup(rows, q).Some? then Some(Lookup(rows, q).value.(status := "REFUNDED"))
        else Lookup(rows, q)
    ensures Lookup(rows, event.paymentId).None? ==> StatusUpdated(rows, event.paymentId, StatusName(REFUNDED)) == rows
  {
    StatusUpdateLookup(rows, event.paymentId, StatusName(REFUNDED), q);
    if Lookup(rows, event.paymentId).None? {
      StatusUpdateOfAbsentKey(rows, event.paymentId, StatusName(REFUNDED));
    }
  }

  /** Handling the same event twice equals handling it once. */
  lemma RefundedIdempotent(rows: seq<PaymentReadModel>, event: PaymentRefundedEvent)
    ensures StatusUpdated(StatusUpdated(rows, event.paymentId, StatusName(REFUNDED)), event.paymentId, StatusName(REFUNDED))
            == StatusUpdated(rows, event.paymentId, StatusName(REFUNDED))
  {
    StatusUpdateIdempotent(rows, event.paymentId, StatusName(REFUNDED));
  }

  class PaymentRefundedProjection {
    const paymentReadRepository: PaymentReadRepository

    constructor (paymentReadRepository: PaymentReadRepository)
      ensures this.paymentReadRepository == paymentReadRepository
    {
      this.paymentReadRepository := paymentReadRepository;
    }

    /** `handle`: only the payment's status is written. */
    method Handle(event: PaymentRefundedEvent)
      requires paymentReadRepository.Valid()
      modifies paymentReadRepository
      ensures paymentReadRepository.Valid()
      ensures paymentReadRepository.rows
              == StatusUpdated(old(paymentReadRepository.rows), event.paymentId, StatusName(REFUNDED))
    {
      paymentReadRepository.UpdateStatus(event.paymentId, StatusName(REFUNDED));
    }
  }
}
