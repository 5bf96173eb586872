/**
 * The wallet aggregate: a balance snapshot and the business rules a payment must pass.
 * The entity never changes its own balance, so it is a value here.
 */
module WalletEntity {
  import opened Results
  import JsText

  /** The largest amount one payment may move, in the wallet's currency unit. */
  const MaxTransactionAmount: int := 50_000

  const NegativeSeedMessage: string := "El saldo inicial no puede ser negativo"
  const NonPositiveAmountMessage: string := "El monto debe ser mayor a cero"
  const OverCapMessage: string := "El monto máximo por transacción es 50,000"

  const InsufficientFundsPrefix: string := "Fondos insuficientes. Disponible: "
  const RequiredLabel: string := ", Requerido: "

  /** The insufficient-funds message: the prefix, then the available balance and the amount asked for. */
  function InsufficientFundsMessage(balance: int, amount: int): (m: string)
    ensures |m| > |InsufficientFundsPrefix| && m[..|InsufficientFundsPrefix|] == InsufficientFundsPrefix
  {
    InsufficientFundsPrefix
    + (JsText.NumberToString(balance) + RequiredLabel + JsText.NumberToString(amount))
  }

  /**
   * Where the figures sit in the insufficient-funds message: the balance's decimal text right
   * after the prefix, then ", Requerido: ", then the amount's decimal text to the end; for
   * non-negative figures each piece reads back as its number.
   */
  lemma InsufficientFundsFigures(balance: int, amount: int)
    ensures var m := InsufficientFundsMessage(balance, amount);
      var b := JsText.NumberToString(balance);
      var a := JsText.NumberToString(amount);
      var i := |InsufficientFundsPrefix|;
      var j := i + |b|;
      var k := j + |RequiredLabel|;
      |m| == k + |a| && m[i..j] == b && m[j..k] == RequiredLabel && m[k..] == a
    ensures balance >= 0 ==> JsText.DecimalValue(JsText.NumberToString(balance)) == balance
    ensures amount >= 0 ==> JsText.DecimalValue(JsText.NumberToString(amount)) == amount
  {
    var b := JsText.NumberToString(balance);
    var a := JsText.NumberToString(amount);
    var m := InsufficientFundsMessage(balance, amount);
    assert m == InsufficientFundsPrefix + b + RequiredLabel + a;
    if balance >= 0 {
      JsText.NatToStringRoundTrip(balance);
    }
    if amount >= 0 {
      JsText.NatToStringRoundTrip(amount);
    }
  }

  datatype WalletProps = WalletProps(walletId: string, ownerId: string, balance: int, currency: string)

  /** The getters of the source entity are the fields of this record. */
  datatype Wallet = Wallet(walletId: string, ownerId: string, balance: int, currency: string)

  /** `Wallet.create`: only a seed balance below zero is refused. */
  function Create(props: WalletProps): (r: Result<Wallet>)
    ensures WellFormed(r)
    ensures r.success <==> props.balance >= 0
    ensures !r.success ==> r.error == Some(NegativeSeedMessage) && r.value.None?
    ensures r.success ==> r.value == Some(Wallet(props.walletId, props.ownerId, props.balance, props.currency))
  {
    if props.balance < 0 then Fail(NegativeSeedMessage)
    else Ok(Wallet(props.walletId, props.ownerId, props.balance, props.currency))
  }

  /** `canProcessPayment`: amount above zero, then the cap, then the funds. */
  function CanProcessPayment(w: Wallet, amount: int): (r: Result<()>)
    ensures WellFormed(r) && r.value.None?
    ensures r.success <==> 0 < amount <= MaxTransactionAmount && amount <= w.balance
    ensures amount <= 0 ==> r.error == Some(NonPositiveAmountMessage)
    ensures amount > MaxTransactionAmount ==> r.error == Some(OverCapMessage)
    ensures 0 < amount <= MaxTransactionAmount && w.balance < amount
            ==> r.error == Some(InsufficientFundsMessage(w.balance, amount))
  {
    if amount <= 0 then Fail(NonPositiveAmountMessage)
    else if amount > MaxTransactionAmount then Fail(OverCapMessage)
    else if w.balance < amount then Fail(InsufficientFundsMessage(w.balance, amount))
    else OkEmpty()
  }

  /** `calculateNewBalance`: the balance a payment would leave; the wallet itself is a value and stays as it was. */
  function CalculateNewBalance(w: Wallet, amount: int): (b: int)
    ensures b + amount == w.balance
  {
    w.balance - amount
  }

  /** A payment the rules accept never takes the balance below zero. */
  lemma AcceptedPaymentKeepsBalanceNonNegative(w: Wallet, amount: int)
    requires CanProcessPayment(w, amount).success
    ensures CalculateNewBalance(w, amount) >= 0
    ensures CalculateNewBalance(w, amount) < w.balance
  {
  }

  /** The over-cap message wins over insufficient funds, as for 60,000 against 10,000. */
  lemma OverCapBeforeInsufficientFunds(w: Wallet)
    requires w.balance == 10_000
    ensures CanProcessPayment(w, 60_000).error == Some(OverCapMessage)
    ensures CanProcessPayment(w, 15_000).error == Some(InsufficientFundsMessage(10_000, 15_000))
    ensures CanProcessPayment(w, 60_000).error != CanProcessPayment(w, 15_000).error
  {
  }
}
