/** The failure codes of the public external-resync validator, as far as modelled code returns them. */
module ExternalErrors {
  datatype ExternalError =
    | InvalidFrame
    | UnsupportedVersion
    | UnsupportedProfile
    | UnsupportedOperation
    | NoncanonicalEncoding
    | LimitExceeded
    | EpochMismatch
    | SignerMismatch
    | IdentityMismatch
    | DeltaMismatch
    | DecodeRejected
    | TreeRejected
    | ProtocolRejected
    | MissingRequiredExtension
}
