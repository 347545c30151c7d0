/** Protocol error codes: core/errors/errors.go. */
module Errors {
  datatype Code =
    | ArithmeticOverflow
    | InvalidChildArity
    | ScaleDomainFault
    | SignatureMisrepresentation
    | CanonicalEncodingDistortion
    | DosSizeExceeded
    | RootMismatch
    | InvalidSignature
    | InvalidTxType
    | InsufficientFunds
    | AlreadyBonded
    | NotBonded
    | UnbondingPending
    | BondBelowMinimum
    | SequenceFault
    | EmptyValidatorSet
    | BlockHeightSequenceFault
    | BytecodeTooLarge
    | Malformed // an fmt.Errorf without a code
    | ContractFailure // the contract runtime's own codes, ERR_023 to ERR_027
}
