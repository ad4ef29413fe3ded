/** The profile's GroupInfo and external Commit as a grammar: shapes, their printed form, and the reader of each. */
module TlsShape {
  import opened Foundation
  import opened ExternalErrors
  import opened TlsCursor

  const MAX_MLS_BYTES := MIB
  const MAX_AAD_BYTES := 16 * 1024
  const MAX_LEAVES := 256
  const MAX_TREE_NODES := 511
  const MAX_EXTENSIONS := 32
  const MAX_DEPTH := 8

  // ---------------------------------------------------------------- shapes

  datatype Extension = Extension(kind: u16, data: Bytes)

  datatype LeafSource = KeyPackage(lifetime: Bytes) | Update | Commit(parentHash: Bytes)

  datatype LeafShape = LeafShape(
    encryptionKey: Bytes, signatureKey: Bytes, identity: Bytes, capabilities: seq<Bytes>, source: LeafSource,
    extensions: seq<Extension>, signature: Bytes)

  datatype Node = Blank | LeafNode(leaf: LeafShape) | Parent(key: Bytes, parentHash: Bytes, unmerged: seq<u32>)

  datatype InfoExtension = Tree(nodes: seq<Node>) | ExternalKey(key: Bytes)

  datatype GroupInfo = GroupInfo(
    groupId: Bytes, epoch: Bytes, treeHash: Bytes, transcript: Bytes, extensions: seq<InfoExtension>,
    confirmation: Bytes, signer: Bytes, signature: Bytes)

  datatype Proposal = ExternalInit(kem: Bytes) | Remove(target: Bytes)

  datatype PathNode = PathNode(key: Bytes, recipients: seq<(Bytes, Bytes)>)

  datatype ExternalCommit = ExternalCommit(
    groupId: Bytes, epoch: Bytes, aad: Bytes, proposals: seq<Proposal>, leaf: LeafShape, path: seq<PathNode>,
    signature: Bytes, confirmation: Bytes)

  // ---------------------------------------------------------------- printed form, in front of what follows

  function ExtensionTo(e: Extension, k: Bytes): Bytes {
    BE(2, e.kind) + (Vec(e.data) + k)
  }

  function Extensions(es: seq<Extension>): Bytes {
    if es == [] then [] else ExtensionTo(es[0], Extensions(es[1..]))
  }

  function VecsTo(vs: seq<Bytes>, k: Bytes): Bytes {
    if vs == [] then k else Vec(vs[0]) + VecsTo(vs[1..], k)
  }

  function SourceTo(s: LeafSource, k: Bytes): Bytes {
    match s
    case KeyPackage(lifetime) => BE(1, 1) + (lifetime + k)
    case Update => BE(1, 2) + k
    case Commit(parentHash) => BE(1, 3) + (Vec(parentHash) + k)
  }

  function LeafTo(l: LeafShape, k: Bytes): Bytes {
    var t := Vec(Extensions(l.extensions)) + (Vec(l.signature) + k);
    var t := VecsTo(l.capabilities, SourceTo(l.source, t));
    Vec(l.encryptionKey) + (Vec(l.signatureKey) + (BE(2, 1) + (Vec(l.identity) + t)))
  }

  function Words(ws: seq<u32>): Bytes {
    if ws == [] then [] else BE(4, ws[0]) + Words(ws[1..])
  }

  function NodeTo(n: Node, k: Bytes): Bytes {
    match n
    case Blank => BE(1, 0) + k
    case LeafNode(l) => BE(1, 1) + (BE(1, 1) + LeafTo(l, k))
    case Parent(key, parentHash, unmerged) =>
      BE(1, 1) + (BE(1, 2) + (Vec(key) + (Vec(parentHash) + (Vec(Words(unmerged)) + k))))
  }

  function Nodes(ns: seq<Node>): Bytes {
    if ns == [] then [] else NodeTo(ns[0], Nodes(ns[1..]))
  }

  function InfoBody(e: InfoExtension): Bytes {
    match e
    case Tree(nodes) => Vec(Nodes(nodes)) + []
    case ExternalKey(key) => Vec(key) + []
  }

  function InfoKind(e: InfoExtension): u16 {
    if e.Tree? then 2 else 4
  }

  function InfoExtensions(es: seq<InfoExtension>): Bytes {
    if es == [] then [] else BE(2, InfoKind(es[0])) + (Vec(InfoBody(es[0])) + InfoExtensions(es[1..]))
  }

  function GroupInfoTo(g: GroupInfo, k: Bytes): Bytes {
    var t := Vec(g.confirmation) + (g.signer + (Vec(g.signature) + k));
    var t := Vec([]) + (Vec(InfoExtensions(g.extensions)) + t);
    var t := Vec(g.groupId) + (g.epoch + (Vec(g.treeHash) + (Vec(g.transcript) + t)));
    BE(2, 1) + (BE(2, 4) + (BE(2, 1) + (BE(2, 1) + t)))
  }

  function ProposalTo(p: Proposal, k: Bytes): Bytes {
    match p
    case ExternalInit(kem) => BE(1, 1) + (BE(2, 6) + (Vec(kem) + k))
    case Remove(target) => BE(1, 1) + (BE(2, 3) + (target + k))
  }

  function Proposals(ps: seq<Proposal>): Bytes {
    if ps == [] then [] else ProposalTo(ps[0], Proposals(ps[1..]))
  }

  function Recipients(rs: seq<(Bytes, Bytes)>): Bytes {
    if rs == [] then [] else Vec(rs[0].0) + (Vec(rs[0].1) + Recipients(rs[1..]))
  }

  function Path(ns: seq<PathNode>): Bytes {
    if ns == [] then [] else Vec(ns[0].key) + (Vec(Recipients(ns[0].recipients)) + Path(ns[1..]))
  }

  function CommitTo(c: ExternalCommit, k: Bytes): Bytes {
    var t := Vec(Path(c.path)) + (Vec(c.signature) + (Vec(c.confirmation) + k));
    var t := BE(1, 3) + (Vec(Proposals(c.proposals)) + (BE(1, 1) + LeafTo(c.leaf, t)));
    var t := Vec(c.groupId) + (c.epoch + (BE(1, 4) + (Vec(c.aad) + t)));
    BE(2, 1) + (BE(2, 1) + t)
  }

  // ---------------------------------------------------------------- the profile

  predicate GoodExtensions(es: seq<Extension>) {
    |es| <= 32 && (forall e :: e in es ==> |e.data| <= 4096) && |Extensions(es)| <= 16384
  }

  predicate GoodCapabilities(vs: seq<Bytes>) {
    forall v :: v in vs ==> |v| <= 128 && |v| % 2 == 0
  }

  predicate GoodSource(s: LeafSource) {
    match s
    case KeyPackage(lifetime) => |lifetime| == 16
    case Update => true
    case Commit(parentHash) => |parentHash| <= 32
  }

  predicate GoodLeaf(l: LeafShape) {
    && |l.encryptionKey| == 32 && |l.signatureKey| == 32 && |l.identity| == 45
    && |l.capabilities| == 5 && GoodCapabilities(l.capabilities)
    && GoodSource(l.source) && GoodExtensions(l.extensions) && |l.signature| == 64
  }

  predicate GoodWords(ws: seq<u32>) {
    forall w :: w in ws ==> w < 256
  }

  predicate GoodNode(n: Node) {
    match n
    case Blank => true
    case LeafNode(l) => GoodLeaf(l)
    case Parent(key, parentHash, unmerged) =>
      |key| == 32 && |parentHash| <= 32 && |Words(unmerged)| <= 1024 && GoodWords(unmerged)
  }

  function LeafCount(ns: seq<Node>): nat {
    if ns == [] then 0 else (if ns[0].LeafNode? then 1 else 0) + LeafCount(ns[1..])
  }

  predicate GoodTree(ns: seq<Node>) {
    && |ns| <= 511 && 1 <= LeafCount(ns) <= 256
    && (forall n :: n in ns ==> GoodNode(n)) && |Nodes(ns)| <= 1048576
  }

  predicate GoodInfoExtension(e: InfoExtension) {
    (match e case Tree(ns) => GoodTree(ns) case ExternalKey(key) => |key| == 32) && |InfoBody(e)| <= 1048576
  }

  predicate GoodGroupInfo(g: GroupInfo) {
    && |g.groupId| == 16 && |g.epoch| == 8 && |g.treeHash| == 32
    && (|g.transcript| == 32 || (g.transcript == [] && g.epoch == [0, 0, 0, 0, 0, 0, 0, 0]))
    && |g.extensions| == 2 && g.extensions[0].Tree? != g.extensions[1].Tree?
    && (forall e :: e in g.extensions ==> GoodInfoExtension(e)) && |InfoExtensions(g.extensions)| <= 1048576
    && |g.confirmation| == 32 && |g.signer| == 4 && |g.signature| == 64
  }

  predicate GoodProposal(p: Proposal) {
    match p
    case ExternalInit(kem) => |kem| == 32
    case Remove(target) => |target| == 4
  }

  predicate GoodRecipients(rs: seq<(Bytes, Bytes)>) {
    |rs| <= 256 && (forall r :: r in rs ==> |r.0| == 32 && |r.1| == 48) && |Recipients(rs)| <= 1048576
  }

  predicate GoodPath(ns: seq<PathNode>) {
    |ns| <= 8 && forall n :: n in ns ==> |n.key| == 32 && GoodRecipients(n.recipients)
  }

  predicate GoodCommit(c: ExternalCommit) {
    && |c.groupId| == 16 && |c.epoch| == 8 && 1 <= |c.aad| <= 16384
    && |c.proposals| == 2 && c.proposals[0].ExternalInit? != c.proposals[1].ExternalInit?
    && (forall p :: p in c.proposals ==> GoodProposal(p)) && |Proposals(c.proposals)| <= 128
    && GoodLeaf(c.leaf) && GoodPath(c.path) && |Path(c.path)| <= 1048576
    && |c.signature| == 64 && |c.confirmation| == 32
  }

  // ---------------------------------------------------------------- readers, in the order and with the errors of the code

  function ReadExtensions(s: Bytes, count: nat): Result<seq<Extension>, ExternalError>
    decreases |s|
  {
    if s == [] then Ok([]) else
    if count == MAX_EXTENSIONS then Err(LimitExceeded) else
    var (kind, k) :- GetNumber(2, s);
    var (data, k) :- GetVector(4096, k);
    var rest :- ReadExtensions(k, count + 1);
    assert kind < 0x1_0000 by { NumberIsRead(2, s); PowValues(); }
    Ok([Extension(kind, data)] + rest)
  }

  function ReadCapabilities(n: nat, s: Bytes): (r: Read<seq<Bytes>>)
    ensures r.Ok? ==> |r.value.1| <= |s|
  {
    if n == 0 then Ok(([], s)) else
    var (v, k) :- GetVector(128, s);
    if |v| % 2 != 0 then Err(DecodeRejected) else
    var (rest, k) :- ReadCapabilities(n - 1, k);
    Ok(([v] + rest, k))
  }

  function ReadSource(s: Bytes): (r: Read<LeafSource>)
    ensures r.Ok? ==> |r.value.1| <= |s|
  {
    var (tag, k) :- GetNumber(1, s);
    if tag == 1 then
      var (lifetime, k) :- GetBytes(16, k);
      Ok((KeyPackage(lifetime), k))
    else if tag == 2 then Ok((Update, k))
    else if tag == 3 then
      var (parentHash, k) :- GetVector(32, k);
      Ok((Commit(parentHash), k))
    else Err(DecodeRejected)
  }

  function ReadLeaf(s: Bytes): (r: Read<LeafShape>)
    ensures r.Ok? ==> |r.value.1| < |s|
  {
    var (encryptionKey, k) :- GetExact(32, s);
    var (signatureKey, k) :- GetExact(32, k);
    var k :- GetConstant(2, 1, UnsupportedProfile, k);
    var (identity, k) :- GetExact(45, k);
    var (capabilities, k) :- ReadCapabilities(5, k);
    var (source, k) :- ReadSource(k);
    var (body, k) :- GetVector(16 * 1024, k);
    var extensions :- ReadExtensions(body, 0);
    var (signature, k) :- GetExact(64, k);
    Ok((LeafShape(encryptionKey, signatureKey, identity, capabilities, source, extensions, signature), k))
  }

  function ReadWords(s: Bytes): Result<seq<u32>, ExternalError> {
    if |s| < 4 then if s == [] then Ok([]) else Err(DecodeRejected) else
    var w := FromBE(s[..4]);
    if w >= MAX_LEAVES then Err(LimitExceeded) else
    var rest :- ReadWords(s[4..]);
    Ok([w] + rest)
  }

  function ReadUnmerged(s: Bytes): Result<seq<u32>, ExternalError> {
    if |s| % 4 != 0 then Err(DecodeRejected) else ReadWords(s)
  }

  function ReadNode(s: Bytes, leaves: nat): (r: Read<Node>)
    ensures r.Ok? ==> |r.value.1| < |s|
  {
    var (tag, k) :- GetNumber(1, s);
    if tag == 0 then Ok((Blank, k)) else
    if tag != 1 then Err(DecodeRejected) else
    var (kind, k) :- GetNumber(1, k);
    if kind == 1 then
      if leaves == MAX_LEAVES then Err(LimitExceeded) else
      var (l, k) :- ReadLeaf(k);
      Ok((LeafNode(l), k))
    else if kind == 2 then
      var (key, k) :- GetExact(32, k);
      var (parentHash, k) :- GetVector(32, k);
      var (body, k) :- GetVector(MAX_LEAVES * 4, k);
      var unmerged :- ReadUnmerged(body);
      Ok((Parent(key, parentHash, unmerged), k))
    else Err(DecodeRejected)
  }

  function ReadNodes(s: Bytes, count: nat, leaves: nat): Result<seq<Node>, ExternalError>
    decreases |s|
  {
    if s == [] then Ok([]) else
    if count == MAX_TREE_NODES then Err(LimitExceeded) else
    var (n, k) :- ReadNode(s, leaves);
    var rest :- ReadNodes(k, count + 1, if n.LeafNode? then leaves + 1 else leaves);
    Ok([n] + rest)
  }

  function ReadTree(s: Bytes): Result<seq<Node>, ExternalError> {
    var (body, k) :- GetVector(MAX_MLS_BYTES, s);
    if k != [] then Err(DecodeRejected) else
    var nodes :- ReadNodes(body, 0, 0);
    if nodes == [] || LeafCount(nodes) == 0 then Err(TreeRejected) else Ok(nodes)
  }

  function ReadExternalKey(s: Bytes): Result<Bytes, ExternalError> {
    var (key, k) :- GetExact(32, s);
    if k != [] then Err(DecodeRejected) else Ok(key)
  }

  /** Each of the two extensions once, and no other. */
  function ReadInfoExtensions(s: Bytes, seenTree: bool, seenKey: bool): Result<seq<InfoExtension>, ExternalError>
    decreases |s|
  {
    if s == [] then if seenTree && seenKey then Ok([]) else Err(MissingRequiredExtension) else
    var (kind, k) :- GetNumber(2, s);
    var (body, k) :- GetVector(MAX_MLS_BYTES, k);
    if kind == 2 && !seenTree then
      var nodes :- ReadTree(body);
      var rest :- ReadInfoExtensions(k, true, seenKey);
      Ok([Tree(nodes)] + rest)
    else if kind == 4 && !seenKey then
      var key :- ReadExternalKey(body);
      var rest :- ReadInfoExtensions(k, seenTree, true);
      Ok([ExternalKey(key)] + rest)
    else Err(UnsupportedProfile)
  }

  /** From the group context's extensions on. */
  function ReadInfoContent(s: Bytes): Read<(seq<InfoExtension>, Bytes, Bytes, Bytes)> {
    var (context, k) :- GetVector(16 * 1024, s);
    if context != [] then Err(UnsupportedProfile) else
    var (body, k) :- GetVector(MAX_MLS_BYTES, k);
    var extensions :- ReadInfoExtensions(body, false, false);
    var (confirmation, k) :- GetExact(32, k);
    var (signer, k) :- GetBytes(4, k);
    var (signature, k) :- GetExact(64, k);
    Ok(((extensions, confirmation, signer, signature), k))
  }

  function ReadGroupInfo(s: Bytes): Read<GroupInfo> {
    var k :- GetConstant(2, 1, UnsupportedProfile, s);
    var k :- GetConstant(2, 4, UnsupportedProfile, k);
    var k :- GetConstant(2, 1, UnsupportedProfile, k);
    var k :- GetConstant(2, 1, UnsupportedProfile, k);
    var (groupId, k) :- GetExact(16, k);
    var (epoch, k) :- GetBytes(8, k);
    var (treeHash, k) :- GetExact(32, k);
    var (transcript, k) :- GetVector(32, k);
    if |transcript| != 32 && !(epoch == [0, 0, 0, 0, 0, 0, 0, 0] && transcript == []) then Err(DecodeRejected) else
    var ((extensions, confirmation, signer, signature), k) :- ReadInfoContent(k);
    Ok((GroupInfo(groupId, epoch, treeHash, transcript, extensions, confirmation, signer, signature), k))
  }

  /** One inline ExternalInit and one inline Remove, in either order. */
  function ReadProposals(s: Bytes, init: bool, remove: bool): Result<seq<Proposal>, ExternalError>
    decreases |s|
  {
    if s == [] then if init && remove then Ok([]) else Err(DeltaMismatch) else
    var k :- GetConstant(1, 1, DeltaMismatch, s);
    var (kind, k) :- GetNumber(2, k);
    if kind == 6 && !init then
      var (kem, k) :- GetExact(32, k);
      var rest :- ReadProposals(k, true, remove);
      Ok([ExternalInit(kem)] + rest)
    else if kind == 3 && !remove then
      var (target, k) :- GetBytes(4, k);
      var rest :- ReadProposals(k, init, true);
      Ok([Remove(target)] + rest)
    else Err(DeltaMismatch)
  }

  function ReadRecipients(s: Bytes, count: nat): Result<seq<(Bytes, Bytes)>, ExternalError>
    decreases |s|
  {
    if s == [] then Ok([]) else
    if count == MAX_LEAVES then Err(LimitExceeded) else
    var (kem, k) :- GetExact(32, s);
    var (ciphertext, k) :- GetExact(48, k);
    var rest :- ReadRecipients(k, count + 1);
    Ok([(kem, ciphertext)] + rest)
  }

  function ReadPath(s: Bytes, depth: nat): Result<seq<PathNode>, ExternalError>
    decreases |s|
  {
    if s == [] then Ok([]) else
    if depth == MAX_DEPTH then Err(LimitExceeded) else
    var (key, k) :- GetExact(32, s);
    var (body, k) :- GetVector(MAX_MLS_BYTES, k);
    var recipients :- ReadRecipients(body, 0);
    var rest :- ReadPath(k, depth + 1);
    Ok([PathNode(key, recipients)] + rest)
  }

  /** From the content type on: the proposals, the update path's leaf and nodes, and both closing vectors. */
  function ReadCommitContent(s: Bytes): Read<(seq<Proposal>, LeafShape, seq<PathNode>, Bytes, Bytes)> {
    var k :- GetConstant(1, 3, ProtocolRejected, s);
    var (body, k) :- GetVector(128, k);
    var proposals :- ReadProposals(body, false, false);
    var k :- GetConstant(1, 1, ProtocolRejected, k);
    var (leaf, k) :- ReadLeaf(k);
    var (update, k) :- GetVector(MAX_MLS_BYTES, k);
    var path :- ReadPath(update, 0);
    var (signature, k) :- GetExact(64, k);
    var (confirmation, k) :- GetExact(32, k);
    Ok(((proposals, leaf, path, signature, confirmation), k))
  }

  function ReadCommit(s: Bytes): Read<ExternalCommit> {
    var k :- GetConstant(2, 1, UnsupportedProfile, s);
    var k :- GetConstant(2, 1, UnsupportedProfile, k);
    var (groupId, k) :- GetExact(16, k);
    var (epoch, k) :- GetBytes(8, k);
    var k :- GetConstant(1, 4, SignerMismatch, k);
    var (aad, k) :- GetVector(MAX_AAD_BYTES, k);
    if aad == [] then Err(LimitExceeded) else
    var ((proposals, leaf, path, signature, confirmation), k) :- ReadCommitContent(k);
    Ok((ExternalCommit(groupId, epoch, aad, proposals, leaf, path, signature, confirmation), k))
  }

  /** What both scanners do around their reader: a size bound before, nothing left after. */
  function Whole<T>(bytes: Bytes, read: Read<T>): Result<T, ExternalError> {
    if bytes == [] || |bytes| > MAX_MLS_BYTES then Err(LimitExceeded) else
    var (m, k) :- read;
    if k != [] then Err(DecodeRejected) else Ok(m)
  }
}
