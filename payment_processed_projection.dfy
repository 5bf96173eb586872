/**
 * The PaymentProcessed projection: it upserts the payment into `payments_read_model` with
 * status PROCESSED and sets the payer's row of `wallets_read_model` to the event's new
 * balance. The balance write is an `UPDATE`, so a wallet without a row gets none. The two
 * writes are modelled as one atomic step; `now` stands for the database's `NOW()`.
 */
module PaymentProcessedProjection {
  import opened Results
  import opened PaymentEvents
  import opened PaymentReadRepositoryImpl

  /** A row of `wallets_read_model`: the balance snapshot and when it was last written. */
  datatype WalletSnapshot = WalletSnapshot(balance: int, updatedAt: int)

  /** The balance write: an existing wallet row takes the new balance and time; a missing one stays missing. */
  function BalanceSet(balances: map<string, WalletSnapshot>, walletId: string, balance: int, now: int)
    : map<string, WalletSnapshot>
  {
    if walletId in balances then balances[walletId := WalletSnapshot(balance, now)] else balances
  }

  /** The read row the projection upserts: the event's fields, status PROCESSED, created at `occurredAt`. */
  function ReadRowOf(event: PaymentProcessedEvent): PaymentReadModel {
    PaymentReadModel(event.paymentId, event.walletId, event.amount, event.currency,
                     event.recipientWalletId, event.concept, StatusName(PROCESSED), event.occurredAt)
  }

  /**
   * The payment's read row after the projection: a new payment gets the event's fields,
   * status PROCESSED and `createdAt = occurredAt`; a payment already present keeps its
   * fields and has its status set back to PROCESSED, whatever it was. No other payment changes.
   */
  lemma ProcessedReadRow(rows: seq<PaymentReadModel>, event: PaymentProcessedEvent, q: string)
    ensures var after := Upserted(rows, ReadRowOf(event));
      Lookup(after, q) ==
        if q != event.paymentId then Lookup(rows, q)
        else if Lookup(rows, q).None? then
          Some(PaymentReadModel(event.paymentId, event.walletId, event.amount, event.currency,
                                event.recipientWalletId, event.concept, "PROCESSED", event.occurredAt))
        else Some(Lookup(rows, q).value.(status := "PROCESSED"))
  {
    UpsertLookup(rows, ReadRowOf(event), q);
  }

  /**
   * The snapshot after the projection: the payer's row, if it exists, holds the event's new
   * balance; no row is created, and every other wallet keeps its row.
   */
  lemma ProcessedSnapshot(balances: map<string, WalletSnapshot>, event: PaymentProcessedEvent, now: int)
    ensures var after := BalanceSet(balances, event.walletId, event.newBalance, now);
      after.Keys == balances.Keys &&
      (event.walletId in balances ==> after[event.walletId] == WalletSnapshot(event.newBalance, now)) &&
      (forall w :: w in balances && w != event.walletId ==> after[w] == balances[w])
  {
  }

  /**
   * Handling the same event again, at any later time, gives the state one handling at that
   * time gives: the row is upserted with the same status and the balance is set absolutely.
   */
  lemma ProcessedReplayIdempotent(rows: seq<PaymentReadModel>, balances: map<string, WalletSnapshot>,
                                  event: PaymentProcessedEvent, now1: int, now2: int)
    ensures Upserted(Upserted(rows, ReadRowOf(event)), ReadRowOf(event)) == Upserted(rows, ReadRowOf(event))
    ensures BalanceSet(BalanceSet(balances, event.walletId, event.newBalance, now1), event.walletId, event.newBalance, now2)
            == BalanceSet(balances, event.walletId, event.newBalance, now2)
  {
    UpsertIdempotent(rows, ReadRowOf(event));
  }

  /** The `wallets_read_model` table, keyed by wallet id. */
  class WalletsReadModel {
    var balances: map<string, WalletSnapshot>

    constructor (balances: map<string, WalletSnapshot>)
      ensures this.balances == balances
    {
      this.balances := balances;
    }

    /** The `UPDATE` of step 2: only an existing row changes. */
    method SetBalance(walletId: string, balance: int, now: int)
      modifies this
      ensures balances == BalanceSet(old(balances), walletId, balance, now)
    {
      if walletId in balances {
        balances := balances[walletId := WalletSnapshot(balance, now)];
      }
    }
  }

  class PaymentProcessedHandler {
    const paymentReadRepository: PaymentReadRepository
    const walletsReadModel: WalletsReadModel

    constructor (paymentReadRepository: PaymentReadRepository, walletsReadModel: WalletsReadModel)
      ensures this.paymentReadRepository == paymentReadRepository
      ensures this.walletsReadModel == walletsReadModel
    {
      this.paymentReadRepository := paymentReadRepository;
      this.walletsReadModel := walletsReadModel;
    }

    /** `handle`: the upsert, then the balance update; the primary key still holds afterwards. */
    method Handle(event: PaymentProcessedEvent, now: int)
      requires paymentReadRepository.Valid()
      modifies paymentReadRepository, walletsReadModel
      ensures paymentReadRepository.Valid()
      ensures paymentReadRepository.rows == Upserted(old(paymentReadRepository.rows), ReadRowOf(event))
      ensures walletsReadModel.balances == BalanceSet(old(walletsReadModel.balances), event.walletId, event.newBalance, now)
    {
      paymentReadRepository.Upsert(ReadRowOf(event));
      walletsReadModel.SetBalance(event.walletId, event.newBalance, now);
    }
  }
}
