/**
 * The PaymentCancelled projection: it sets the payment's read row to CANCELLED through
 * `updateStatus`. It holds no handle on `wallets_read_model`, so the balance snapshot
 * keeps whatever the PaymentProcessed projection last wrote.
 */
module CancelledProjection {
  import opened Results
  import opened PaymentEvents
  import opened PaymentReadRepositoryImpl

  /**
   * The read rows after the projection: a row keyed by the payment gets status CANCELLED and
   * keeps its other fields; an unknown payment changes nothing and nothing is inserted.
   */
  lemma CancelledReadRow(rows: seq<PaymentReadModel>, event: PaymentCancelledEvent, q: string)
    ensures var after := StatusUpdated(rows, event.paymentId, StatusName(CANCELLED));
      |after| == |rows| &&
      Lookup(after, q) ==
        if q == event.paymentId && Lookup(rows, q).Some? then Some(Lookup(rows, q).value.(status := "CANCELLED"))
        else Lookup(rows, q)
    ensures Lookup(rows, event.paymentId).None? ==> StatusUpdated(rows, event.paymentId, StatusName(CANCELLED)) == rows
  {
    StatusUpdateLookup(rows, event.paymentId, StatusName(CANCELLED), q);
    if Lookup(rows, event.paymentId).None? {
      StatusUpdateOfAbsentKey(rows, event.paymentId, StatusName(CANCELLED));
    }
  }

  /** Handling the same event twice equals handling it once. */
  lemma CancelledIdempotent(rows: seq<PaymentReadModel>, event: PaymentCancelledEvent)
    ensures StatusUpdated(StatusUpdated(rows, event.paymentId, StatusName(CANCELLED)), event.paymentId, StatusName(CANCELLED))
            == StatusUpdated(rows, event.paymentId, StatusName(CANCELLED))
  {
    StatusUpdateIdempotent(rows, event.paymentId, StatusName(CANCELLED));
  }

  class PaymentCancelledProjection {
    const paymentReadRepository: PaymentReadRepository

    constructor (paymentReadRepository: PaymentReadRepository)
      ensures this.paymentReadRepository == paymentReadRepository
    {
      this.paymentReadRepository := paymentReadRepository;
    }

    /** `handle`: only the payment's status is written. */
    method Handle(event: PaymentCancelledEvent)
      requires paymentReadRepository.Valid()
      modifies paymentReadRepository
      ensures paymentReadRepository.Valid()
      ensures paymentReadRepository.rows
              == StatusUpdated(old(paymentReadRepository.rows), event.paymentId, StatusName(CANCELLED))
    {
      paymentReadRepository.UpdateStatus(event.paymentId, StatusName(CANCELLED));
    }
  }
}
