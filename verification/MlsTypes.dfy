/** The records shared by the contracts: leaves, rosters, commit bindings and opaque storage rows. */
module MlsTypes {
  import opened Foundation

  datatype Leaf = Leaf(index: u32, identity: Bytes, signatureKey: Bytes)

  datatype Roster = Roster(groupId: Bytes, epoch: u64, leaves: seq<Leaf>, digest: Bytes)

  datatype ExpectedState = ExpectedState(groupId: Bytes, epoch: u64, digest: Bytes)

  datatype Transition = Transition(commandId: Bytes, contextSha256: Bytes)

  datatype PendingBinding = PendingBinding(
    groupId: Bytes, incarnationId: Bytes, transition: Transition, author: Leaf, previousState: ExpectedState,
    commitSha256: Bytes, aadSha256: Bytes, welcomeSha256: Option<Bytes>, groupInfoSha256: Option<Bytes>)

  /** One opaque storage row; no group id means installation-global state. */
  datatype StorageEntry = StorageEntry(key: Bytes, value: Bytes, groupId: Option<Bytes>)

  const EntryKey: StorageEntry -> Bytes := (e: StorageEntry) => e.key

  /** Text known at build time, as bytes. */
  function Ascii(s: string): (b: Bytes)
    ensures |b| == |s|
  {
    seq(|s|, i requires 0 <= i < |s| => (s[i] as int) % 0x100)
  }

  /** Whether a row belongs to the installation rather than to one group. */
  predicate IsGlobalKey(key: Bytes) {
    || Ascii("KeyPackage") <= key
    || Ascii("Psk") <= key
    || Ascii("EncryptionKeyPair") <= key
    || Ascii("SignatureKeyPair") <= key
  }

  predicate Within(b: Bytes, minimum: nat, maximum: nat) {
    minimum <= |b| <= maximum
  }

  predicate RetentionSupported(retention: nat) {
    retention == 2 || retention == 4
  }

  function StateOf(r: Roster): ExpectedState {
    ExpectedState(r.groupId, r.epoch, r.digest)
  }
}
