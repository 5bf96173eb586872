/**
 * The Disbursement entity: `create` validates the props (minimum and maximum amount,
 * allowed currency, a 20-digit account, in that order) and builds a PENDING disbursement;
 * `approve` and `reject` move a PENDING disbursement to APPROVED or REJECTED in place.
 */
module DisbursementEntity {
  import opened Results
  import opened JsText

  datatype DisbursementStatus = PENDING | APPROVED | REJECTED | COMPLETED

  datatype DisbursementProps = DisbursementProps(
    loanId: string, amount: int, currency: string, recipientAccount: string, concept: string)

  /** What a repository stores of a disbursement: its props and its status. */
  datatype DisbursementRecord = DisbursementRecord(props: DisbursementProps, status: DisbursementStatus)

  const MinimumAmount: int := 100
  const MaximumAmount: int := 50_000
  const AllowedCurrencies: seq<string> := ["USD", "PEN"]

  const MinimumAmountMessage: string := "El monto mínimo es 100"
  const MaximumAmountMessage: string := "El monto máximo es 50,000"
  const CurrencyMessage: string := "Moneda no permitida"
  const AccountMessage: string := "La cuenta debe tener 20 dígitos"
  const ApproveOnlyPendingMessage: string := "Solo se pueden aprobar desembolsos pendientes"
  const RejectOnlyPendingMessage: string := "Solo se pueden rechazar desembolsos pendientes"
  const ReasonRequiredMessage: string := "Se debe proporcionar una razón"

  /** `/^\d{20}$/`: exactly twenty ASCII digits and nothing else. */
  predicate IsAccountNumber(s: string) {
    |s| == 20 && forall i :: 0 <= i < |s| ==> IsAsciiDigit(s[i])
  }

  /**
   * The message of the first rule of `create` the props break, or nothing when they break
   * none. The rules are checked in order: minimum, maximum, currency, account.
   */
  function ValidationError(props: DisbursementProps): (e: Option<string>)
    ensures e.None? <==> MinimumAmount <= props.amount <= MaximumAmount
                         && props.currency in AllowedCurrencies && IsAccountNumber(props.recipientAccount)
    ensures props.amount < MinimumAmount ==> e == Some(MinimumAmountMessage)
    ensures MinimumAmount <= props.amount && props.amount > MaximumAmount ==> e == Some(MaximumAmountMessage)
    ensures MinimumAmount <= props.amount <= MaximumAmount && props.currency !in AllowedCurrencies
            ==> e == Some(CurrencyMessage)
    ensures MinimumAmount <= props.amount <= MaximumAmount && props.currency in AllowedCurrencies
              && !IsAccountNumber(props.recipientAccount)
            ==> e == Some(AccountMessage)
  {
    if props.amount < MinimumAmount then Some(MinimumAmountMessage)
    else if props.amount > MaximumAmount then Some(MaximumAmountMessage)
    else if props.currency !in AllowedCurrencies then Some(CurrencyMessage)
    else if !IsAccountNumber(props.recipientAccount) then Some(AccountMessage)
    else None
  }

  /** The account number the entity's own tests use. */
  const SampleAccount: string := "12345678901234567890"

  lemma SampleAccountIsValid()
    ensures IsAccountNumber(SampleAccount)
  {
    assert forall i :: 0 <= i < |SampleAccount| ==> IsAsciiDigit(SampleAccount[i]);
  }

  /** The boundaries are inclusive: 100 and 50,000 pass the amount rules, 99 and 50,001 do not. */
  lemma AmountBoundaries(props: DisbursementProps)
    requires props.currency == "USD" && props.recipientAccount == SampleAccount
    ensures props.amount == 100 || props.amount == 50_000 ==> ValidationError(props).None?
    ensures props.amount == 99 ==> ValidationError(props) == Some(MinimumAmountMessage)
    ensures props.amount == 50_001 ==> ValidationError(props) == Some(MaximumAmountMessage)
  {
    SampleAccountIsValid();
    assert props.currency == AllowedCurrencies[0];
  }

  class Disbursement {
    var id: Option<string>
    const loanId: string
    const amount: int
    const currency: string
    const recipientAccount: string
    const concept: string
    var status: DisbursementStatus

    /** The private constructor: a new disbursement is PENDING and has no id yet. */
    constructor (props: DisbursementProps)
      ensures Props() == props && status == PENDING && id.None?
    {
      loanId := props.loanId;
      amount := props.amount;
      currency := props.currency;
      recipientAccount := props.recipientAccount;
      concept := props.concept;
      status := PENDING;
      id := None;
    }

    function Props(): DisbursementProps
      reads this
    {
      DisbursementProps(loanId, amount, currency, recipientAccount, concept)
    }

    function Record(): DisbursementRecord
      reads this
    {
      DisbursementRecord(Props(), status)
    }

    /** `Disbursement.create`: the first broken rule's message, or a new PENDING disbursement. */
    static method Create(props: DisbursementProps) returns (r: Result<Disbursement>)
      ensures WellFormed(r)
      ensures ValidationError(props).Some? ==> r == Fail(ValidationError(props).value)
      ensures ValidationError(props).None? ==>
        r.success && r.value.Some? && fresh(r.value.value)
        && r.value.value.Record() == DisbursementRecord(props, PENDING) && r.value.value.id.None?
    {
      var error := ValidationError(props);
      if error.Some? {
        return Fail(error.value);
      }
      var d := new Disbursement(props);
      return Ok(d);
    }

    /** `approve`: PENDING becomes APPROVED; any other status is refused and kept. */
    method Approve() returns (r: Result<()>)
      modifies this
      ensures WellFormed(r)
      ensures old(status) == PENDING ==> r == OkEmpty() && status == APPROVED
      ensures old(status) != PENDING ==> r == Fail(ApproveOnlyPendingMessage) && status == old(status)
      ensures Props() == old(Props()) && id == old(id)
    {
      if status != PENDING {
        return Fail(ApproveOnlyPendingMessage);
      }
      status := APPROVED;
      return OkEmpty();
    }

    /**
     * `reject`: the status is checked before the reason; a PENDING disbursement with a
     * non-blank reason becomes REJECTED, and every refusal keeps the status.
     */
    method Reject(reason: string) returns (r: Result<()>)
      modifies this
      ensures WellFormed(r)
      ensures old(status) != PENDING ==> r == Fail(RejectOnlyPendingMessage) && status == old(status)
      ensures old(status) == PENDING && IsBlank(reason) ==> r == Fail(ReasonRequiredMessage) && status == PENDING
      ensures old(status) == PENDING && !IsBlank(reason) ==> r == OkEmpty() && status == REJECTED
      ensures Props() == old(Props()) && id == old(id)
    {
      if status != PENDING {
        return Fail(RejectOnlyPendingMessage);
      }
      if IsBlank(reason) {
        return Fail(ReasonRequiredMessage);
      }
      status := REJECTED;
      return OkEmpty();
    }

    /** `setId`. */
    method SetId(newId: string)
      modifies this
      ensures id == Some(newId) && status == old(status) && Props() == old(Props())
    {
      id := Some(newId);
    }
  }

  /**
   * The entity's life cycle on the valid props of its own tests: created PENDING, approved
   * once, and a second approval refused with the status left APPROVED; a reject after that
   * is refused as well.
   */
  method ApproveTwice() returns (created: bool, first: Result<()>, second: Result<()>, late: Result<()>,
                                 status: DisbursementStatus)
    ensures created && first == OkEmpty() && second == Fail(ApproveOnlyPendingMessage)
    ensures late == Fail(RejectOnlyPendingMessage) && status == APPROVED
  {
    var props := DisbursementProps("LOAN-123", 1000, "USD", SampleAccount, "Test");
    SampleAccountIsValid();
    assert props.currency == AllowedCurrencies[0];
    var r := Disbursement.Create(props);
    created := r.success;
    var d := r.value.value;
    first := d.Approve();
    second := d.Approve();
    late := d.Reject("No aplica");
    status := d.status;
  }

  /** A blank reason is refused and leaves the disbursement PENDING; a real reason then rejects it. */
  method RejectNeedsReason() returns (blank: Result<()>, given: Result<()>, status: DisbursementStatus)
    ensures blank == Fail(ReasonRequiredMessage) && given == OkEmpty() && status == REJECTED
  {
    var props := DisbursementProps("LOAN-123", 1000, "PEN", SampleAccount, "Test");
    SampleAccountIsValid();
    assert props.currency == AllowedCurrencies[1];
    var r := Disbursement.Create(props);
    var d := r.value.value;
    var spaces := "  \t ";
    assert forall i :: 0 <= i < |spaces| ==> IsJsWhitespace(spaces[i]);
    blank := d.Reject(spaces);
    var reason := "Documentos incompletos";
    assert reason[0] == 'D' && !IsJsWhitespace(reason[0]);
    given := d.Reject(reason);
    status := d.status;
  }
}
