/** What storage keys begin with, label by label, and whose state each label names. */
module KeyLabels {
  import opened Foundation
  import opened MlsTypes

  /** What the keys of installation state begin with. */
  const INSTALLATION_LABELS: seq<string> := ["KeyPackage", "Psk", "EncryptionKeyPair", "SignatureKeyPair"]

  /** What the keys of one group's state begin with; the last is the package's own prefix. */
  const GROUP_LABELS: seq<string> := [
    "EpochKeyPairs", "Tree", "GroupContext", "InterimTranscriptHash", "ConfirmationTag", "MlsGroupJoinConfig", "OwnLeafNodes",
    "GroupState", "QueuedProposal", "ProposalQueueRefs", "OwnLeafNodeIndex", "EpochSecrets", "ResumptionPsk", "MessageSecrets",
    "OpenMlsDart/"]

  predicate Installation(key: Bytes) {
    exists i :: 0 <= i < |INSTALLATION_LABELS| && Ascii(INSTALLATION_LABELS[i]) <= key
  }

  /** The group id a row under the key must carry. */
  function GroupOf(key: Bytes, group: Option<Bytes>): Option<Bytes> {
    if Installation(key) then None else group
  }

  lemma GlobalIsInstallation(key: Bytes)
    ensures IsGlobalKey(key) <==> Installation(key)
  {
    hide Ascii;
    assert INSTALLATION_LABELS[0] == "KeyPackage" && INSTALLATION_LABELS[1] == "Psk"
        && INSTALLATION_LABELS[2] == "EncryptionKeyPair" && INSTALLATION_LABELS[3] == "SignatureKeyPair";
  }

  lemma AllGlobalAreInstallation()
    ensures forall k :: IsGlobalKey(k) <==> Installation(k)
  {
    hide IsGlobalKey, Installation;
    forall k ensures IsGlobalKey(k) <==> Installation(k) {
      GlobalIsInstallation(k);
    }
  }

  /** Two texts that differ at a place both have are never prefixes of one key. */
  lemma LabelsDiffer(a: string, b: string, i: nat, key: Bytes)
    requires i < |a| && i < |b| && a[i] as int < 0x80 && b[i] as int < 0x80 && a[i] != b[i]
    ensures !(Ascii(a) <= key && Ascii(b) <= key)
  {
    assert Ascii(a)[i] != Ascii(b)[i];
    assert Ascii(a) <= key ==> key[i] == Ascii(a)[i];
    if Ascii(a) <= key {
      assert |key| > i && key[i] != Ascii(b)[i];
    }
  }

  /** No key of a group's state is an installation key, whatever follows the label. */
  lemma GroupLabelsAreNotInstallation(j: nat, rest: Bytes)
    requires j < |GROUP_LABELS|
    ensures !Installation(Ascii(GROUP_LABELS[j]) + rest)
  {
    hide Ascii;
    var (l, key) := (GROUP_LABELS[j], Ascii(GROUP_LABELS[j]) + rest);
    assert Ascii(l) <= key;
    LabelsDiffer(l, "KeyPackage", 0, key);
    if j == 9 {
      LabelsDiffer(l, "Psk", 1, key);
    } else {
      LabelsDiffer(l, "Psk", 0, key);
    }
    if j == 0 || j == 11 {
      LabelsDiffer(l, "EncryptionKeyPair", 1, key);
    } else {
      LabelsDiffer(l, "EncryptionKeyPair", 0, key);
    }
    LabelsDiffer(l, "SignatureKeyPair", 0, key);
  }
}
