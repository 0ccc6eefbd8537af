/** The compiled contract. */
module Ir {
  import opened Prelude

  datatype ClaimIr = ClaimIr(id: string, kind: string, required: bool, critical: bool, ensure: string)

  datatype VerificationIr = VerificationIr(
    claimId: string,
    verifierRef: string,
    inlineShell: Option<string>,
    requirement: Option<string>)

  datatype Contract = Contract(
    uniVersion: string,
    intent: string,
    domain: string,
    goal: string,
    claims: seq<ClaimIr>,
    verification: seq<VerificationIr>)
}
