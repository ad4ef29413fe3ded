/** The failure codes shared by the Dart and native contracts, as far as modelled code returns them. */
module Errors {
  datatype MlsError =
    | InvalidFrame
    | UnsupportedContractVersion
    | UnsupportedProfile
    | UnsupportedOperation
    | NoncanonicalEncoding
    | LimitExceeded
    | StorageFormatMismatch
    | InvalidStorageSnapshot
    | GroupMismatch
    | ResultingEpochMismatch
    | ResultingRosterMismatch
    | AadMismatch
    | PendingCommitMissing
    | PendingCommitExists
    | AcceptanceBindingMismatch
    | PendingBindingMismatch
    | FutureMessageEpoch
    | RequiredCommitEpochMismatch
    | PastEpochUnavailable
    | UnsupportedLocalMetadataVersion
    | LocalMetadataMissing
    | UnsupportedRetention
    | WireHashMismatch
    | ExternalDeltaMismatch
    | InternalFailure
}
