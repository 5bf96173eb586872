/**
 * CreateDisbursementUseCase: build the entity (stopping at the first broken rule), ask the
 * compliance service about the recipient account, and save. The compliance service and the
 * repository's `save` are supplied as functions; `save` returns the new id, or nothing
 * when it throws.
 */
module CreateDisbursement {
  import opened Results
  import opened DisbursementEntity

  datatype ComplianceCheckResult = ComplianceCheckResult(isClean: bool, reason: Option<string>)

  const SaveFailedMessage: string := "Error al guardar el desembolso"

  /** `${reason}` in a template literal: a missing reason is written `undefined`. */
  function ReasonText(reason: Option<string>): string {
    match reason
    case None => "undefined"
    case Some(s) => s
  }

  class CreateDisbursementUseCase {
    const checkAccount: string -> ComplianceCheckResult
    const save: DisbursementRecord -> Option<string>

    constructor (save: DisbursementRecord -> Option<string>, checkAccount: string -> ComplianceCheckResult)
      ensures this.save == save && this.checkAccount == checkAccount
    {
      this.save := save;
      this.checkAccount := checkAccount;
    }

    /**
     * `execute`. `consulted` is the account compliance was asked about and `saved` the
     * record handed to `save`, each `None` when that step was not reached: a validation
     * failure consults nobody, a compliance failure saves nothing.
     */
    method Execute(input: DisbursementProps)
      returns (r: Result<string>, consulted: Option<string>, saved: Option<DisbursementRecord>)
      ensures WellFormed(r)
      ensures ValidationError(input).Some? ==>
        r == Fail(ValidationError(input).value) && consulted.None? && saved.None?
      ensures ValidationError(input).None? ==> consulted == Some(input.recipientAccount)
      ensures ValidationError(input).None? && !checkAccount(input.recipientAccount).isClean ==>
        r == Fail("Compliance: " + ReasonText(checkAccount(input.recipientAccount).reason)) && saved.None?
      ensures ValidationError(input).None? && checkAccount(input.recipientAccount).isClean ==>
        saved == Some(DisbursementRecord(input, PENDING)) &&
        r == (if save(DisbursementRecord(input, PENDING)).Some? then Ok(save(DisbursementRecord(input, PENDING)).value)
              else Fail(SaveFailedMessage))
      ensures r.success <==> ValidationError(input).None? && checkAccount(input.recipientAccount).isClean
                             && save(DisbursementRecord(input, PENDING)).Some?
    {
      consulted := None;
      saved := None;
      var disbursementResult := Disbursement.Create(input);
      if !disbursementResult.success {
        r := Fail(disbursementResult.error.value);
        return;
      }
      var disbursement := disbursementResult.value.value;

      consulted := Some(input.recipientAccount);
      var complianceCheck := checkAccount(input.recipientAccount);
      if !complianceCheck.isClean {
        r := Fail("Compliance: " + ReasonText(complianceCheck.reason));
        return;
      }

      saved := Some(disbursement.Record());
      var id := save(disbursement.Record());
      if id.None? {
        r := Fail(SaveFailedMessage);
      } else {
        r := Ok(id.value);
      }
    }
  }
}
