/**
 * The data-only types of the payment module: the stored event row, its payload, the
 * three domain events, the commands and queries, and the payment status names.
 * Ids are strings, amounts are integers in minor units, timestamps are integers.
 */
module PaymentEvents {
  import opened Results

  const WalletAggregateType: string := "Wallet"
  const PaymentProcessedType: string := "PaymentProcessed"
  const PaymentCancelledType: string := "PaymentCancelled"
  const PaymentRefundedType: string := "PaymentRefunded"

  /**
   * The JSON payload of a stored event, as the command handlers write it. Fields that
   * only one kind of event carries are optional: `recipientWalletId` and `concept` for
   * PaymentProcessed, `reason` for PaymentCancelled and PaymentRefunded.
   */
  datatype EventData = EventData(
    paymentId: string,
    walletId: string,
    amount: int,
    currency: string,
    recipientWalletId: Option<string>,
    concept: Option<string>,
    reason: Option<string>,
    previousBalance: int,
    newBalance: int)

  /** A row of the event store. */
  datatype StoredEvent = StoredEvent(
    id: nat,
    aggregateId: string,
    aggregateType: string,
    eventType: string,
    eventData: EventData,
    occurredAt: int,
    version: nat)

  datatype PaymentProcessedEvent = PaymentProcessedEvent(
    eventId: string, occurredAt: int,
    paymentId: string, walletId: string, amount: int, currency: string,
    recipientWalletId: string, concept: string, previousBalance: int, newBalance: int)

  datatype PaymentCancelledEvent = PaymentCancelledEvent(
    eventId: string, occurredAt: int,
    paymentId: string, walletId: string, amount: int, currency: string,
    reason: string, previousBalance: int, newBalance: int)

  datatype PaymentRefundedEvent = PaymentRefundedEvent(
    eventId: string, occurredAt: int,
    paymentId: string, walletId: string, amount: int, currency: string,
    reason: string, previousBalance: int, newBalance: int)

  datatype PaymentStatus = PROCESSED | CANCELLED | REFUNDED

  /** The string value of each enum member, as the read model stores it. */
  function StatusName(s: PaymentStatus): string {
    match s
    case PROCESSED => "PROCESSED"
    case CANCELLED => "CANCELLED"
    case REFUNDED => "REFUNDED"
  }

  datatype ProcessPaymentCommand = ProcessPaymentCommand(
    walletId: string, amount: int, currency: string, recipientWalletId: string, concept: string)

  datatype CancelPaymentCommand = CancelPaymentCommand(paymentId: string, reason: string)

  datatype RefundPaymentCommand = RefundPaymentCommand(paymentId: string, reason: string)

  datatype GetPaymentHistoryQuery = GetPaymentHistoryQuery(walletId: string, limit: int)

  datatype ListPaymentsQuery = ListPaymentsQuery(
    walletId: Option<string>, status: Option<PaymentStatus>, page: int, limit: int)
}
