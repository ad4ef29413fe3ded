/** The scanner accepts exactly the printed forms of the profile's shapes. */
module TlsGrammar {
  import opened Foundation
  import opened ExternalErrors
  import opened TlsCursor
  import opened TlsShape

  // ---------------------------------------------------------------- what is printed is read back

  lemma NumberIsNotEmpty(n: nat, k: Bytes)
    ensures BE(2, n) + k != []
  {
  }

  lemma NothingToRead()
    ensures ReadWords([]) == Ok([]) && ReadInfoExtensions([], true, true) == Ok([]) && ReadProposals([], true, true) == Ok([])
  {
  }

  lemma {:induction false} ExtensionsRead(es: seq<Extension>, count: nat)
    requires |es| + count <= MAX_EXTENSIONS && forall e :: e in es ==> |e.data| <= 4096
    ensures ReadExtensions(Extensions(es), count) == Ok(es)
  {
    hide GetNumber, GetVector, BE, Vec;
    if es != [] {
      var (e, k) := (es[0], Extensions(es[1..]));
      PowValues();
      NumberReads(2, e.kind, Vec(e.data) + k);
      VectorReads(e.data, 4096, k);
      ExtensionsRead(es[1..], count + 1);
      NumberIsNotEmpty(e.kind, Vec(e.data) + k);
      assert [e] + es[1..] == es;
    }
  }

  lemma {:induction false} CapabilitiesRead(vs: seq<Bytes>, k: Bytes)
    requires GoodCapabilities(vs)
    ensures ReadCapabilities(|vs|, VecsTo(vs, k)) == Ok((vs, k))
  {
    hide GetVector, Vec, GoodCapabilities;
    if vs != [] {
      FirstCapability(vs);
      VectorReads(vs[0], 128, VecsTo(vs[1..], k));
      CapabilitiesRead(vs[1..], k);
      assert [vs[0]] + vs[1..] == vs;
    }
  }

  lemma FirstCapability(vs: seq<Bytes>)
    requires GoodCapabilities(vs) && vs != []
    ensures |vs[0]| <= 128 && |vs[0]| % 2 == 0 && GoodCapabilities(vs[1..])
  {
  }

  lemma SourceReads(s: LeafSource, k: Bytes)
    requires GoodSource(s)
    ensures ReadSource(SourceTo(s, k)) == Ok((s, k))
  {
    hide GetNumber, GetVector, GetBytes, BE, Vec;
    PowValues();
    match s
    case KeyPackage(lifetime) =>
      NumberReads(1, 1, lifetime + k);
      TakeReads(lifetime, k);
    case Update =>
      NumberReads(1, 2, k);
    case Commit(parentHash) =>
      NumberReads(1, 3, Vec(parentHash) + k);
      VectorReads(parentHash, 32, k);
  }

  lemma LeafReads(l: LeafShape, k: Bytes)
    requires GoodLeaf(l)
    ensures ReadLeaf(LeafTo(l, k)) == Ok((l, k))
  {
    hide GetExact, GetVector, GetConstant, BE, Vec, VecsTo, SourceTo, Extensions, ReadExtensions, ReadCapabilities, ReadSource,
         GoodCapabilities, GoodSource;
    PowValues();
    var t5 := Vec(l.signature) + k;
    var t4 := Vec(Extensions(l.extensions)) + t5;
    var t3 := VecsTo(l.capabilities, SourceTo(l.source, t4));
    var t2 := Vec(l.identity) + t3;
    var t1 := BE(2, 1) + t2;
    ExactReads(l.encryptionKey, 32, Vec(l.signatureKey) + t1);
    ExactReads(l.signatureKey, 32, t1);
    ConstantReads(2, 1, UnsupportedProfile, t2);
    ExactReads(l.identity, 45, t3);
    CapabilitiesRead(l.capabilities, SourceTo(l.source, t4));
    SourceReads(l.source, t4);
    VectorReads(Extensions(l.extensions), 16 * 1024, t5);
    ExtensionsRead(l.extensions, 0);
    ExactReads(l.signature, 64, k);
  }

  lemma WordReads(w: u32, rest: seq<u32>, tail: Bytes)
    requires w < MAX_LEAVES && ReadWords(tail) == Ok(rest)
    ensures ReadWords(BE(4, w) + tail) == Ok([w] + rest)
  {
    hide BE, FromBE;
    PowValues();
    FromBEInvertsBE(4, w);
    var s := BE(4, w) + tail;
    assert s[..4] == BE(4, w) && s[4..] == tail;
  }

  lemma FirstWord(ws: seq<u32>)
    requires GoodWords(ws) && ws != []
    ensures ws[0] < MAX_LEAVES && GoodWords(ws[1..]) && [ws[0]] + ws[1..] == ws
  {
    assert ws[0] in ws && forall w :: w in ws[1..] ==> w in ws;
  }

  lemma {:induction false} WordsLength(ws: seq<u32>)
    ensures |Words(ws)| == 4 * |ws|
  {
    hide BE;
    if ws != [] {
      WordsLength(ws[1..]);
    }
  }

  lemma {:induction false} WordsRead(ws: seq<u32>)
    requires GoodWords(ws)
    ensures ReadWords(Words(ws)) == Ok(ws)
  {
    hide BE, ReadWords, GoodWords;
    if ws == [] {
      NothingToRead();
    } else {
      FirstWord(ws);
      WordsRead(ws[1..]);
      WordReads(ws[0], ws[1..], Words(ws[1..]));
    }
  }

  lemma NodeReads(n: Node, leaves: nat, k: Bytes)
    requires GoodNode(n) && (n.LeafNode? ==> leaves < MAX_LEAVES)
    ensures ReadNode(NodeTo(n, k), leaves) == Ok((n, k))
  {
    hide GetNumber, GetExact, GetVector, BE, Vec, LeafTo, ReadLeaf, GoodLeaf, Words, ReadWords;
    PowValues();
    match n
    case Blank =>
      NumberReads(1, 0, k);
    case LeafNode(l) =>
      NumberReads(1, 1, BE(1, 1) + LeafTo(l, k));
      NumberReads(1, 1, LeafTo(l, k));
      LeafReads(l, k);
    case Parent(key, parentHash, unmerged) =>
      var t3 := Vec(Words(unmerged)) + k;
      var t2 := Vec(parentHash) + t3;
      NumberReads(1, 1, BE(1, 2) + (Vec(key) + t2));
      NumberReads(1, 2, Vec(key) + t2);
      ExactReads(key, 32, t2);
      VectorReads(parentHash, 32, t3);
      VectorReads(Words(unmerged), 4 * MAX_LEAVES, k);
      WordsRead(unmerged);
      WordsLength(unmerged);
  }

  lemma NodeIsNotEmpty(n: Node, k: Bytes)
    ensures NodeTo(n, k) != []
  {
  }

  lemma {:induction false} NodesRead(ns: seq<Node>, count: nat, leaves: nat)
    requires |ns| + count <= MAX_TREE_NODES && LeafCount(ns) + leaves <= MAX_LEAVES && forall n :: n in ns ==> GoodNode(n)
    ensures ReadNodes(Nodes(ns), count, leaves) == Ok(ns)
  {
    hide NodeTo, ReadNode, GoodNode;
    if ns != [] {
      var k := Nodes(ns[1..]);
      NodeReads(ns[0], leaves, k);
      NodeIsNotEmpty(ns[0], k);
      NodesRead(ns[1..], count + 1, if ns[0].LeafNode? then leaves + 1 else leaves);
      assert [ns[0]] + ns[1..] == ns;
    }
  }

  lemma InfoBodyReads(e: InfoExtension)
    requires GoodInfoExtension(e)
    ensures match e case Tree(ns) => ReadTree(InfoBody(e)) == Ok(ns) case ExternalKey(key) => ReadExternalKey(InfoBody(e)) == Ok(key)
  {
    hide GetExact, GetVector, Vec, Nodes, ReadNodes, GoodNode;
    match e
    case Tree(ns) =>
      VectorReads(Nodes(ns), MAX_MLS_BYTES, []);
      NodesRead(ns, 0, 0);
    case ExternalKey(key) =>
      ExactReads(key, 32, []);
  }

  lemma InfoExtensionReads(e: InfoExtension, k: Bytes, seenTree: bool, seenKey: bool)
    requires GoodInfoExtension(e) && !(if e.Tree? then seenTree else seenKey)
    ensures var s := BE(2, InfoKind(e)) + (Vec(InfoBody(e)) + k);
            ReadInfoExtensions(s, seenTree, seenKey) ==
              match ReadInfoExtensions(k, seenTree || e.Tree?, seenKey || e.ExternalKey?)
              case Ok(rest) => Ok([e] + rest)
              case Err(error) => Err(error)
  {
    hide GetNumber, GetVector, BE, Vec, InfoBody, ReadTree, ReadExternalKey, GoodInfoExtension;
    PowValues();
    InfoBodySmall(e);
    NumberReads(2, InfoKind(e), Vec(InfoBody(e)) + k);
    VectorReads(InfoBody(e), MAX_MLS_BYTES, k);
    InfoBodyReads(e);
  }

  lemma InfoExtensionsRead(es: seq<InfoExtension>)
    requires |es| == 2 && es[0].Tree? != es[1].Tree? && forall e :: e in es ==> GoodInfoExtension(e)
    ensures ReadInfoExtensions(InfoExtensions(es), false, false) == Ok(es)
  {
    hide BE, Vec, InfoBody, GoodInfoExtension, ReadInfoExtensions;
    var (a, b) := (es[0], es[1]);
    var last := BE(2, InfoKind(b)) + (Vec(InfoBody(b)) + []);
    assert es == [a] + [b] && es[1..] == [b] && [b][1..] == [];
    assert InfoExtensions([]) == [] && InfoExtensions([b]) == last;
    assert InfoExtensions(es) == BE(2, InfoKind(a)) + (Vec(InfoBody(a)) + last);
    InfoExtensionReads(a, last, false, false);
    InfoExtensionReads(b, [], a.Tree?, a.ExternalKey?);
    NothingToRead();
    assert [b] + [] == [b];
  }

  lemma InfoBodySmall(e: InfoExtension)
    requires GoodInfoExtension(e)
    ensures |InfoBody(e)| <= MAX_MLS_BYTES
  {
    hide InfoBody, GoodTree;
  }

  lemma GroupInfoReads(g: GroupInfo, k: Bytes)
    requires GoodGroupInfo(g)
    ensures ReadGroupInfo(GroupInfoTo(g, k)) == Ok((g, k))
  {
    hide GetBytes, GetExact, GetVector, GetConstant, BE, Vec, InfoExtensions, ReadInfoExtensions, GoodInfoExtension;
    PowValues();
    var t9 := Vec(g.signature) + k;
    var t8 := g.signer + t9;
    var t7 := Vec(g.confirmation) + t8;
    var t6 := Vec(InfoExtensions(g.extensions)) + t7;
    var t5 := Vec([]) + t6;
    var t4 := Vec(g.transcript) + t5;
    var t3 := Vec(g.treeHash) + t4;
    var t2 := g.epoch + t3;
    var t1 := Vec(g.groupId) + t2;
    ConstantReads(2, 1, UnsupportedProfile, BE(2, 4) + (BE(2, 1) + (BE(2, 1) + t1)));
    ConstantReads(2, 4, UnsupportedProfile, BE(2, 1) + (BE(2, 1) + t1));
    ConstantReads(2, 1, UnsupportedProfile, BE(2, 1) + t1);
    ConstantReads(2, 1, UnsupportedProfile, t1);
    ExactReads(g.groupId, 16, t2);
    TakeReads(g.epoch, t3);
    ExactReads(g.treeHash, 32, t4);
    VectorReads(g.transcript, 32, t5);
    VectorReads([], 16 * 1024, t6);
    VectorReads(InfoExtensions(g.extensions), MAX_MLS_BYTES, t7);
    InfoExtensionsRead(g.extensions);
    ExactReads(g.confirmation, 32, t8);
    TakeReads(g.signer, t9);
    ExactReads(g.signature, 64, k);
  }

  lemma ProposalReads(p: Proposal, k: Bytes, init: bool, remove: bool)
    requires GoodProposal(p) && !(if p.ExternalInit? then init else remove)
    ensures ReadProposals(ProposalTo(p, k), init, remove) ==
              match ReadProposals(k, init || p.ExternalInit?, remove || p.Remove?)
              case Ok(rest) => Ok([p] + rest)
              case Err(error) => Err(error)
  {
    hide GetConstant, GetNumber, GetExact, GetBytes, BE, Vec;
    PowValues();
    match p
    case ExternalInit(kem) =>
      ConstantReads(1, 1, DeltaMismatch, BE(2, 6) + (Vec(kem) + k));
      NumberReads(2, 6, Vec(kem) + k);
      ExactReads(kem, 32, k);
    case Remove(target) =>
      ConstantReads(1, 1, DeltaMismatch, BE(2, 3) + (target + k));
      NumberReads(2, 3, target + k);
      TakeReads(target, k);
  }

  lemma ProposalsRead(ps: seq<Proposal>)
    requires |ps| == 2 && ps[0].ExternalInit? != ps[1].ExternalInit? && forall p :: p in ps ==> GoodProposal(p)
    ensures ReadProposals(Proposals(ps), false, false) == Ok(ps)
  {
    hide ProposalTo, ReadProposals, GoodProposal;
    var (a, b) := (ps[0], ps[1]);
    var last := ProposalTo(b, []);
    assert ps == [a] + [b] && ps[1..] == [b] && [b][1..] == [];
    assert Proposals([]) == [] && Proposals([b]) == last;
    assert Proposals(ps) == ProposalTo(a, last);
    ProposalReads(a, last, false, false);
    ProposalReads(b, [], a.ExternalInit?, a.Remove?);
    NothingToRead();
    assert [b] + [] == [b];
  }

  lemma VecIsNotEmpty(b: Bytes, k: Bytes)
    requires |b| < VECTOR_LIMIT
    ensures Vec(b) + k != []
  {
  }

  lemma {:induction false} RecipientsRead(rs: seq<(Bytes, Bytes)>, count: nat)
    requires |rs| + count <= MAX_LEAVES && forall r :: r in rs ==> |r.0| == 32 && |r.1| == 48
    ensures ReadRecipients(Recipients(rs), count) == Ok(rs)
  {
    hide GetExact, Vec;
    if rs != [] {
      var k := Recipients(rs[1..]);
      ExactReads(rs[0].0, 32, Vec(rs[0].1) + k);
      ExactReads(rs[0].1, 48, k);
      VecIsNotEmpty(rs[0].0, Vec(rs[0].1) + k);
      RecipientsRead(rs[1..], count + 1);
      assert [(rs[0].0, rs[0].1)] + rs[1..] == rs;
    }
  }

  lemma {:induction false} PathReads(ns: seq<PathNode>, depth: nat)
    requires |ns| + depth <= MAX_DEPTH && forall n :: n in ns ==> |n.key| == 32 && GoodRecipients(n.recipients)
    ensures ReadPath(Path(ns), depth) == Ok(ns)
  {
    hide GetExact, GetVector, Vec, Recipients, ReadRecipients;
    if ns != [] {
      var (n, k) := (ns[0], Path(ns[1..]));
      ExactReads(n.key, 32, Vec(Recipients(n.recipients)) + k);
      VectorReads(Recipients(n.recipients), MAX_MLS_BYTES, k);
      RecipientsRead(n.recipients, 0);
      VecIsNotEmpty(n.key, Vec(Recipients(n.recipients)) + k);
      PathReads(ns[1..], depth + 1);
      assert [PathNode(n.key, n.recipients)] + ns[1..] == ns;
    }
  }

  lemma CommitReads(c: ExternalCommit, k: Bytes)
    requires GoodCommit(c)
    ensures ReadCommit(CommitTo(c, k)) == Ok((c, k))
  {
    hide GetBytes, GetExact, GetVector, GetConstant, BE, Vec, Proposals, ReadProposals, LeafTo, ReadLeaf, GoodLeaf, Path, ReadPath,
         GoodPath, GoodProposal;
    PowValues();
    var t9 := Vec(c.confirmation) + k;
    var t8 := Vec(c.signature) + t9;
    var t7 := Vec(Path(c.path)) + t8;
    var t6 := LeafTo(c.leaf, t7);
    var t5 := BE(1, 1) + t6;
    var t4 := Vec(Proposals(c.proposals)) + t5;
    var t3 := BE(1, 3) + t4;
    var t2 := Vec(c.aad) + t3;
    var t1 := BE(1, 4) + t2;
    var t0 := c.epoch + t1;
    ConstantReads(2, 1, UnsupportedProfile, BE(2, 1) + (Vec(c.groupId) + t0));
    ConstantReads(2, 1, UnsupportedProfile, Vec(c.groupId) + t0);
    ExactReads(c.groupId, 16, t0);
    TakeReads(c.epoch, t1);
    ConstantReads(1, 4, SignerMismatch, t2);
    VectorReads(c.aad, MAX_AAD_BYTES, t3);
    ConstantReads(1, 3, ProtocolRejected, t4);
    VectorReads(Proposals(c.proposals), 128, t5);
    ProposalsRead(c.proposals);
    ConstantReads(1, 1, ProtocolRejected, t6);
    LeafReads(c.leaf, t7);
    VectorReads(Path(c.path), MAX_MLS_BYTES, t8);
    WholePathReads(c.path);
    ExactReads(c.signature, 64, t9);
    ExactReads(c.confirmation, 32, k);
  }

  lemma WholePathReads(ns: seq<PathNode>)
    requires GoodPath(ns)
    ensures ReadPath(Path(ns), 0) == Ok(ns)
  {
    hide GoodRecipients;
    PathReads(ns, 0);
  }

  // ---------------------------------------------------------------- what is read was printed

  lemma {:induction false} ExtensionsAreRead(s: Bytes, count: nat)
    requires ReadExtensions(s, count).Ok? && count <= MAX_EXTENSIONS
    ensures var es := ReadExtensions(s, count).value;
            s == Extensions(es) && |es| + count <= MAX_EXTENSIONS && forall e :: e in es ==> |e.data| <= 4096
    decreases |s|
  {
    hide GetNumber, GetVector, BE, Vec;
    if s != [] {
      var (kind, t) := GetNumber(2, s).value;
      var (data, k) := GetVector(4096, t).value;
      NumberIsRead(2, s);
      VectorIsRead(4096, t);
      ExtensionsAreRead(k, count + 1);
      var es := ReadExtensions(s, count).value;
      assert es[1..] == ReadExtensions(k, count + 1).value;
    }
  }

  lemma {:induction false} CapabilitiesAreRead(n: nat, s: Bytes)
    requires ReadCapabilities(n, s).Ok?
    ensures var (vs, k) := ReadCapabilities(n, s).value;
            s == VecsTo(vs, k) && |vs| == n && GoodCapabilities(vs)
  {
    hide GetVector, Vec;
    if n > 0 {
      var (v, k) := GetVector(128, s).value;
      VectorIsRead(128, s);
      CapabilitiesAreRead(n - 1, k);
      var vs := ReadCapabilities(n, s).value.0;
      assert vs[1..] == ReadCapabilities(n - 1, k).value.0;
    }
  }

  lemma SourceIsRead(s: Bytes)
    requires ReadSource(s).Ok?
    ensures var (source, k) := ReadSource(s).value; s == SourceTo(source, k) && GoodSource(source)
  {
    hide GetNumber, GetVector, GetBytes, BE, Vec;
    var (tag, k) := GetNumber(1, s).value;
    NumberIsRead(1, s);
    if tag == 1 {
      TakeIsRead(16, k);
    } else if tag == 3 {
      VectorIsRead(32, k);
    }
  }

  lemma LeafIsRead(s: Bytes)
    requires ReadLeaf(s).Ok?
    ensures var (l, k) := ReadLeaf(s).value; s == LeafTo(l, k) && GoodLeaf(l)
  {
    hide GetExact, GetVector, GetConstant, BE, Vec, VecsTo, SourceTo, Extensions, ReadExtensions, ReadCapabilities, ReadSource,
         GoodCapabilities, GoodSource;
    var t0 := GetExact(32, s).value.1;
    var t1 := GetExact(32, t0).value.1;
    var t2 := GetConstant(2, 1, UnsupportedProfile, t1).value;
    var t3 := GetExact(45, t2).value.1;
    var t4 := ReadCapabilities(5, t3).value.1;
    var t5 := ReadSource(t4).value.1;
    var (body, t6) := GetVector(16 * 1024, t5).value;
    ExactIsRead(32, s);
    ExactIsRead(32, t0);
    ConstantIsRead(2, 1, UnsupportedProfile, t1);
    ExactIsRead(45, t2);
    CapabilitiesAreRead(5, t3);
    SourceIsRead(t4);
    VectorIsRead(16 * 1024, t5);
    ExtensionsAreRead(body, 0);
    ExactIsRead(64, t6);
  }

  lemma {:induction false} WordsAreRead(s: Bytes)
    requires ReadWords(s).Ok?
    ensures s == Words(ReadWords(s).value) && GoodWords(ReadWords(s).value)
  {
    hide BE, FromBE, GoodWords;
    if s == [] {
      NoWords();
    } else {
      BEInvertsFromBE(s[..4]);
      WordsAreRead(s[4..]);
      var (w, rest) := (FromBE(s[..4]), ReadWords(s[4..]).value);
      OneMoreWord(w, rest);
      assert s == s[..4] + s[4..];
    }
  }

  lemma NoWords()
    ensures GoodWords([])
  {
  }

  lemma OneMoreWord(w: u32, rest: seq<u32>)
    requires w < MAX_LEAVES && GoodWords(rest)
    ensures GoodWords([w] + rest) && Words([w] + rest) == BE(4, w) + Words(rest)
  {
    hide BE;
    assert ([w] + rest)[1..] == rest;
  }

  lemma NodeIsRead(s: Bytes, leaves: nat)
    requires ReadNode(s, leaves).Ok? && leaves <= MAX_LEAVES
    ensures var (n, k) := ReadNode(s, leaves).value;
            s == NodeTo(n, k) && GoodNode(n) && (n.LeafNode? ==> leaves < MAX_LEAVES)
  {
    hide GetNumber, GetExact, GetVector, BE, Vec, LeafTo, ReadLeaf, GoodLeaf, Words, ReadWords;
    var (tag, t1) := GetNumber(1, s).value;
    NumberIsRead(1, s);
    if tag == 1 {
      var (kind, t2) := GetNumber(1, t1).value;
      NumberIsRead(1, t1);
      if kind == 1 {
        LeafIsRead(t2);
      } else {
        var t3 := GetExact(32, t2).value.1;
        var t4 := GetVector(32, t3).value.1;
        ExactIsRead(32, t2);
        VectorIsRead(32, t3);
        VectorIsRead(MAX_LEAVES * 4, t4);
        WordsAreRead(GetVector(MAX_LEAVES * 4, t4).value.0);
      }
    }
  }

  lemma {:induction false} NodesAreRead(s: Bytes, count: nat, leaves: nat)
    requires ReadNodes(s, count, leaves).Ok? && count <= MAX_TREE_NODES && leaves <= MAX_LEAVES
    ensures var ns := ReadNodes(s, count, leaves).value;
            && s == Nodes(ns) && |ns| + count <= MAX_TREE_NODES && LeafCount(ns) + leaves <= MAX_LEAVES
            && forall n :: n in ns ==> GoodNode(n)
    decreases |s|
  {
    hide NodeTo, ReadNode, GoodNode;
    if s != [] {
      var (n, k) := ReadNode(s, leaves).value;
      NodeIsRead(s, leaves);
      NodesAreRead(k, count + 1, if n.LeafNode? then leaves + 1 else leaves);
      var ns := ReadNodes(s, count, leaves).value;
      assert ns[1..] == ReadNodes(k, count + 1, if n.LeafNode? then leaves + 1 else leaves).value;
    }
  }

  lemma TreeIsRead(s: Bytes)
    requires ReadTree(s).Ok?
    ensures s == InfoBody(Tree(ReadTree(s).value)) && GoodTree(ReadTree(s).value)
  {
    hide GetVector, Vec, Nodes, ReadNodes, GoodNode;
    VectorIsRead(MAX_MLS_BYTES, s);
    NodesAreRead(GetVector(MAX_MLS_BYTES, s).value.0, 0, 0);
  }

  lemma ExternalKeyIsRead(s: Bytes)
    requires ReadExternalKey(s).Ok?
    ensures s == InfoBody(ExternalKey(ReadExternalKey(s).value)) && |ReadExternalKey(s).value| == 32
  {
    hide GetExact, Vec;
    ExactIsRead(32, s);
  }

  /** How many extensions of each kind are still wanted. */
  predicate StillWanted(es: seq<InfoExtension>, tree: bool, key: bool) {
    |es| == (if tree then 1 else 0) + (if key then 1 else 0)
    && (tree && key ==> es[0].Tree? != es[1].Tree?)
    && (tree && !key ==> es[0].Tree?)
    && (!tree && key ==> es[0].ExternalKey?)
  }

  lemma {:induction false} InfoExtensionsAreRead(s: Bytes, seenTree: bool, seenKey: bool)
    requires ReadInfoExtensions(s, seenTree, seenKey).Ok?
    ensures var es := ReadInfoExtensions(s, seenTree, seenKey).value;
            s == InfoExtensions(es) && StillWanted(es, !seenTree, !seenKey) && forall e :: e in es ==> GoodInfoExtension(e)
    decreases |s|
  {
    hide GetNumber, GetVector, BE, Vec, InfoBody, ReadTree, ReadExternalKey, GoodTree;
    if s != [] {
      var (kind, t) := GetNumber(2, s).value;
      var (body, k) := GetVector(MAX_MLS_BYTES, t).value;
      NumberIsRead(2, s);
      VectorIsRead(MAX_MLS_BYTES, t);
      var es := ReadInfoExtensions(s, seenTree, seenKey).value;
      if kind == 2 && !seenTree {
        TreeIsRead(body);
      } else {
        ExternalKeyIsRead(body);
      }
      InfoExtensionsAreRead(k, seenTree || es[0].Tree?, seenKey || es[0].ExternalKey?);
      assert es[1..] == ReadInfoExtensions(k, seenTree || es[0].Tree?, seenKey || es[0].ExternalKey?).value;
    }
  }

  lemma GroupInfoIsRead(s: Bytes)
    requires ReadGroupInfo(s).Ok?
    ensures var (g, k) := ReadGroupInfo(s).value; s == GroupInfoTo(g, k) && GoodGroupInfo(g)
  {
    hide GetBytes, GetExact, GetVector, GetConstant, BE, Vec, InfoExtensions, ReadInfoExtensions, GoodInfoExtension;
    var u1 := GetConstant(2, 1, UnsupportedProfile, s).value;
    var u2 := GetConstant(2, 4, UnsupportedProfile, u1).value;
    var u3 := GetConstant(2, 1, UnsupportedProfile, u2).value;
    var t0 := GetConstant(2, 1, UnsupportedProfile, u3).value;
    var t1 := GetExact(16, t0).value.1;
    var t2 := GetBytes(8, t1).value.1;
    var t3 := GetExact(32, t2).value.1;
    var t4 := GetVector(32, t3).value.1;
    var t5 := GetVector(16 * 1024, t4).value.1;
    var (body, t6) := GetVector(MAX_MLS_BYTES, t5).value;
    var t7 := GetExact(32, t6).value.1;
    var t8 := GetBytes(4, t7).value.1;
    ConstantIsRead(2, 1, UnsupportedProfile, s);
    ConstantIsRead(2, 4, UnsupportedProfile, u1);
    ConstantIsRead(2, 1, UnsupportedProfile, u2);
    ConstantIsRead(2, 1, UnsupportedProfile, u3);
    ExactIsRead(16, t0);
    TakeIsRead(8, t1);
    ExactIsRead(32, t2);
    VectorIsRead(32, t3);
    VectorIsRead(16 * 1024, t4);
    VectorIsRead(MAX_MLS_BYTES, t5);
    InfoExtensionsAreRead(body, false, false);
    ExactIsRead(32, t6);
    TakeIsRead(4, t7);
    ExactIsRead(64, t8);
  }

  predicate ProposalsWanted(ps: seq<Proposal>, init: bool, remove: bool) {
    |ps| == (if init then 1 else 0) + (if remove then 1 else 0)
    && (init && remove ==> ps[0].ExternalInit? != ps[1].ExternalInit?)
    && (init && !remove ==> ps[0].ExternalInit?)
    && (!init && remove ==> ps[0].Remove?)
  }

  lemma {:induction false} ProposalsAreRead(s: Bytes, init: bool, remove: bool)
    requires ReadProposals(s, init, remove).Ok?
    ensures var ps := ReadProposals(s, init, remove).value;
            s == Proposals(ps) && ProposalsWanted(ps, !init, !remove) && forall p :: p in ps ==> GoodProposal(p)
    decreases |s|
  {
    hide GetConstant, GetNumber, GetExact, GetBytes, BE, Vec;
    if s != [] {
      var t := GetConstant(1, 1, DeltaMismatch, s).value;
      var (kind, t1) := GetNumber(2, t).value;
      ConstantIsRead(1, 1, DeltaMismatch, s);
      NumberIsRead(2, t);
      var ps := ReadProposals(s, init, remove).value;
      var k := if kind == 6 && !init then GetExact(32, t1).value.1 else GetBytes(4, t1).value.1;
      if kind == 6 && !init {
        ExactIsRead(32, t1);
      } else {
        TakeIsRead(4, t1);
      }
      ProposalsAreRead(k, init || ps[0].ExternalInit?, remove || ps[0].Remove?);
      assert ps[1..] == ReadProposals(k, init || ps[0].ExternalInit?, remove || ps[0].Remove?).value;
    }
  }

  lemma {:induction false} RecipientsAreRead(s: Bytes, count: nat)
    requires ReadRecipients(s, count).Ok? && count <= MAX_LEAVES
    ensures var rs := ReadRecipients(s, count).value;
            s == Recipients(rs) && |rs| + count <= MAX_LEAVES && forall r :: r in rs ==> |r.0| == 32 && |r.1| == 48
    decreases |s|
  {
    hide GetExact, Vec;
    if s != [] {
      var t := GetExact(32, s).value.1;
      var k := GetExact(48, t).value.1;
      ExactIsRead(32, s);
      ExactIsRead(48, t);
      RecipientsAreRead(k, count + 1);
      var rs := ReadRecipients(s, count).value;
      assert rs[1..] == ReadRecipients(k, count + 1).value;
    }
  }

  lemma {:induction false} PathIsPrinted(s: Bytes, depth: nat)
    requires ReadPath(s, depth).Ok? && depth <= MAX_DEPTH
    ensures var ns := ReadPath(s, depth).value;
            && s == Path(ns) && |ns| + depth <= MAX_DEPTH
            && forall n :: n in ns ==> |n.key| == 32 && GoodRecipients(n.recipients)
    decreases |s|
  {
    hide GetExact, GetVector, Vec, Recipients, ReadRecipients;
    if s != [] {
      var t := GetExact(32, s).value.1;
      var (body, k) := GetVector(MAX_MLS_BYTES, t).value;
      ExactIsRead(32, s);
      VectorIsRead(MAX_MLS_BYTES, t);
      RecipientsAreRead(body, 0);
      PathIsPrinted(k, depth + 1);
      var ns := ReadPath(s, depth).value;
      assert ns[1..] == ReadPath(k, depth + 1).value;
    }
  }

  lemma CommitIsRead(s: Bytes)
    requires ReadCommit(s).Ok?
    ensures var (c, k) := ReadCommit(s).value; s == CommitTo(c, k) && GoodCommit(c)
  {
    hide GetBytes, GetExact, GetVector, GetConstant, BE, Vec, Proposals, ReadProposals, LeafTo, ReadLeaf, GoodLeaf, Path, ReadPath,
         GoodProposal, GoodRecipients;
    var u1 := GetConstant(2, 1, UnsupportedProfile, s).value;
    var u2 := GetConstant(2, 1, UnsupportedProfile, u1).value;
    var t0 := GetExact(16, u2).value.1;
    var t1 := GetBytes(8, t0).value.1;
    var t2 := GetConstant(1, 4, SignerMismatch, t1).value;
    var t3 := GetVector(MAX_AAD_BYTES, t2).value.1;
    var t4 := GetConstant(1, 3, ProtocolRejected, t3).value;
    var (body, t5) := GetVector(128, t4).value;
    var t6 := GetConstant(1, 1, ProtocolRejected, t5).value;
    var t7 := ReadLeaf(t6).value.1;
    var (update, t8) := GetVector(MAX_MLS_BYTES, t7).value;
    var t9 := GetExact(64, t8).value.1;
    ConstantIsRead(2, 1, UnsupportedProfile, s);
    ConstantIsRead(2, 1, UnsupportedProfile, u1);
    ExactIsRead(16, u2);
    TakeIsRead(8, t0);
    ConstantIsRead(1, 4, SignerMismatch, t1);
    VectorIsRead(MAX_AAD_BYTES, t2);
    ConstantIsRead(1, 3, ProtocolRejected, t3);
    VectorIsRead(128, t4);
    ProposalsAreRead(body, false, false);
    ConstantIsRead(1, 1, ProtocolRejected, t5);
    LeafIsRead(t6);
    VectorIsRead(MAX_MLS_BYTES, t7);
    PathIsPrinted(update, 0);
    ExactIsRead(64, t8);
    ExactIsRead(32, t9);
  }

  // ---------------------------------------------------------------- main results

  function ScanGroupInfo(bytes: Bytes): Result<GroupInfo, ExternalError> {
    Whole(bytes, ReadGroupInfo(bytes))
  }

  function ScanCommit(bytes: Bytes): Result<ExternalCommit, ExternalError> {
    Whole(bytes, ReadCommit(bytes))
  }

  lemma GroupInfoIsNotEmpty(g: GroupInfo)
    ensures GroupInfoTo(g, []) != []
  {
    hide BE, Vec, InfoExtensions;
  }

  lemma CommitIsNotEmpty(c: ExternalCommit)
    ensures CommitTo(c, []) != []
  {
    hide BE, Vec, Proposals, LeafTo, Path;
  }

  /** A byte string is accepted as a GroupInfo exactly when it is the printed form of one within the profile. */
  lemma GroupInfoAcceptedExactly(bytes: Bytes, g: GroupInfo)
    ensures ScanGroupInfo(bytes) == Ok(g) <==> GoodGroupInfo(g) && bytes == GroupInfoTo(g, []) && |bytes| <= MAX_MLS_BYTES
  {
    hide ReadGroupInfo, GroupInfoTo, GoodGroupInfo;
    if ReadGroupInfo(bytes).Ok? {
      GroupInfoIsRead(bytes);
    }
    if GoodGroupInfo(g) && bytes == GroupInfoTo(g, []) {
      GroupInfoReads(g, []);
      GroupInfoIsNotEmpty(g);
    }
  }

  /** The same for an external Commit. */
  lemma CommitAcceptedExactly(bytes: Bytes, c: ExternalCommit)
    ensures ScanCommit(bytes) == Ok(c) <==> GoodCommit(c) && bytes == CommitTo(c, []) && |bytes| <= MAX_MLS_BYTES
  {
    hide ReadCommit, CommitTo, GoodCommit;
    if ReadCommit(bytes).Ok? {
      CommitIsRead(bytes);
    }
    if GoodCommit(c) && bytes == CommitTo(c, []) {
      CommitReads(c, []);
      CommitIsNotEmpty(c);
    }
  }

  lemma {:induction false} VecsAppend(vs: seq<Bytes>, k: Bytes, t: Bytes)
    ensures VecsTo(vs, k) + t == VecsTo(vs, k + t)
  {
    hide Vec;
    if vs != [] {
      VecsAppend(vs[1..], k, t);
      Regroup(Vec(vs[0]), VecsTo(vs[1..], k), t);
    }
  }

  lemma SourceAppends(s: LeafSource, k: Bytes, t: Bytes)
    ensures SourceTo(s, k) + t == SourceTo(s, k + t)
  {
    hide BE, Vec;
    match s
    case KeyPackage(lifetime) =>
      Regroup(BE(1, 1), lifetime + k, t);
      Regroup(lifetime, k, t);
    case Update =>
      Regroup(BE(1, 2), k, t);
    case Commit(parentHash) =>
      Regroup(BE(1, 3), Vec(parentHash) + k, t);
      Regroup(Vec(parentHash), k, t);
  }

  lemma LeafAppends(l: LeafShape, k: Bytes, t: Bytes)
    ensures LeafTo(l, k) + t == LeafTo(l, k + t)
  {
    hide BE, Vec, VecsTo, SourceTo, Extensions;
    var t5 := Vec(l.signature) + k;
    var t4 := Vec(Extensions(l.extensions)) + t5;
    var t3 := VecsTo(l.capabilities, SourceTo(l.source, t4));
    var t2 := Vec(l.identity) + t3;
    var t1 := BE(2, 1) + t2;
    var t0 := Vec(l.signatureKey) + t1;
    Regroup(Vec(l.signature), k, t);
    Regroup(Vec(Extensions(l.extensions)), t5, t);
    SourceAppends(l.source, t4, t);
    VecsAppend(l.capabilities, SourceTo(l.source, t4), t);
    Regroup(Vec(l.identity), t3, t);
    Regroup(BE(2, 1), t2, t);
    Regroup(Vec(l.signatureKey), t1, t);
    Regroup(Vec(l.encryptionKey), t0, t);
  }

  lemma GroupInfoAppends(g: GroupInfo, k: Bytes, t: Bytes)
    ensures GroupInfoTo(g, k) + t == GroupInfoTo(g, k + t)
  {
    hide BE, Vec, InfoExtensions;
    var t9 := Vec(g.signature) + k;
    var t8 := g.signer + t9;
    var t7 := Vec(g.confirmation) + t8;
    var t6 := Vec(InfoExtensions(g.extensions)) + t7;
    var t5 := Vec([]) + t6;
    var t4 := Vec(g.transcript) + t5;
    var t3 := Vec(g.treeHash) + t4;
    var t2 := g.epoch + t3;
    var t1 := Vec(g.groupId) + t2;
    var u3 := BE(2, 1) + t1;
    var u2 := BE(2, 1) + u3;
    var u1 := BE(2, 4) + u2;
    Regroup(Vec(g.signature), k, t);
    Regroup(g.signer, t9, t);
    Regroup(Vec(g.confirmation), t8, t);
    Regroup(Vec(InfoExtensions(g.extensions)), t7, t);
    Regroup(Vec([]), t6, t);
    Regroup(Vec(g.transcript), t5, t);
    Regroup(Vec(g.treeHash), t4, t);
    Regroup(g.epoch, t3, t);
    Regroup(Vec(g.groupId), t2, t);
    Regroup(BE(2, 1), t1, t);
    Regroup(BE(2, 1), u3, t);
    Regroup(BE(2, 4), u2, t);
    Regroup(BE(2, 1), u1, t);
  }

  lemma CommitAppends(c: ExternalCommit, k: Bytes, t: Bytes)
    ensures CommitTo(c, k) + t == CommitTo(c, k + t)
  {
    hide BE, Vec, Proposals, LeafTo, Path;
    var t9 := Vec(c.confirmation) + k;
    var t8 := Vec(c.signature) + t9;
    var t7 := Vec(Path(c.path)) + t8;
    var t6 := LeafTo(c.leaf, t7);
    var t5 := BE(1, 1) + t6;
    var t4 := Vec(Proposals(c.proposals)) + t5;
    var t3 := BE(1, 3) + t4;
    var t2 := Vec(c.aad) + t3;
    var t1 := BE(1, 4) + t2;
    var t0 := c.epoch + t1;
    var u2 := Vec(c.groupId) + t0;
    var u1 := BE(2, 1) + u2;
    Regroup(Vec(c.confirmation), k, t);
    Regroup(Vec(c.signature), t9, t);
    Regroup(Vec(Path(c.path)), t8, t);
    LeafAppends(c.leaf, t7, t);
    Regroup(BE(1, 1), t6, t);
    Regroup(Vec(Proposals(c.proposals)), t5, t);
    Regroup(BE(1, 3), t4, t);
    Regroup(Vec(c.aad), t3, t);
    Regroup(BE(1, 4), t2, t);
    Regroup(c.epoch, t1, t);
    Regroup(Vec(c.groupId), t0, t);
    Regroup(BE(2, 1), u2, t);
    Regroup(BE(2, 1), u1, t);
  }

  /** No accepted GroupInfo is a proper prefix of another: what follows one is never mistaken for part of it. */
  lemma GroupInfoIsPrefixFree(s: Bytes, t: Bytes)
    requires ScanGroupInfo(s).Ok? && t != []
    ensures ScanGroupInfo(s + t).Err?
  {
    hide ReadGroupInfo, GroupInfoTo, GoodGroupInfo;
    var g := ScanGroupInfo(s).value;
    GroupInfoAcceptedExactly(s, g);
    GroupInfoAppends(g, [], t);
    assert [] + t == t;
    GroupInfoReads(g, t);
  }

  /** Likewise for external Commits. */
  lemma CommitIsPrefixFree(s: Bytes, t: Bytes)
    requires ScanCommit(s).Ok? && t != []
    ensures ScanCommit(s + t).Err?
  {
    hide ReadCommit, CommitTo, GoodCommit;
    var c := ScanCommit(s).value;
    CommitAcceptedExactly(s, c);
    CommitAppends(c, [], t);
    assert [] + t == t;
    CommitReads(c, t);
  }
}
