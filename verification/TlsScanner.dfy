/** The scanner as written: loops over a moving cursor that keep counters and flags but no value. */
module TlsScanner {
  import opened Foundation
  import opened ExternalErrors
  import opened TlsCursor
  import opened TlsShape
  import opened TlsGrammar

  /** The outcome of a reader, without its value. */
  function Forget<T>(r: Result<T, ExternalError>): Result<(), ExternalError> {
    match r
    case Ok(_) => Ok(())
    case Err(e) => Err(e)
  }

  method ScanExtensions(c: Cursor) returns (r: Result<(), ExternalError>)
    modifies c
    ensures match GetVector(16 * 1024, old(c.bytes))
            case Ok((body, k)) => r == Forget(ReadExtensions(body, 0)) && (r.Ok? ==> c.bytes == k)
            case Err(e) => r == Err(e)
  {
    hide GetVector, GetNumber;
    var body :- c.Vector(16 * 1024);
    var e := new Cursor(body);
    var count := 0;
    while e.bytes != []
      invariant count <= MAX_EXTENSIONS
      invariant Forget(ReadExtensions(body, 0)) == Forget(ReadExtensions(e.bytes, count))
      invariant c.bytes == GetVector(16 * 1024, old(c.bytes)).value.1
      modifies e
      decreases |e.bytes|
    {
      count := count + 1;
      if count > MAX_EXTENSIONS {
        return Err(LimitExceeded);
      }
      var _ :- e.U16();
      var _ :- e.Vector(4096);
    }
    return Ok(());
  }

  /** What is left after a reader, or why it failed. */
  function Left<T>(r: Read<T>): Result<Bytes, ExternalError> {
    match r
    case Ok((_, k)) => Ok(k)
    case Err(e) => Err(e)
  }

  method ScanCapabilities(c: Cursor) returns (r: Result<(), ExternalError>)
    modifies c
    ensures Scans(ReadCapabilities(5, old(c.bytes)), r, c.bytes)
  {
    hide GetVector;
    for i := 0 to 5
      invariant Left(ReadCapabilities(5, old(c.bytes))) == Left(ReadCapabilities(5 - i, c.bytes))
    {
      var v :- c.Vector(128);
      if |v| % 2 != 0 {
        return Err(DecodeRejected);
      }
    }
    return Ok(());
  }

  method ScanSource(c: Cursor) returns (r: Result<(), ExternalError>)
    modifies c
    ensures Scans(ReadSource(old(c.bytes)), r, c.bytes)
  {
    hide GetVector, GetNumber, GetBytes;
    var tag :- c.Byte();
    match tag {
      case 1 =>
        var _ :- c.Take(16);
      case 2 =>
      case 3 =>
        var _ :- c.Vector(32);
      case _ =>
        return Err(DecodeRejected);
    }
    return Ok(());
  }

  method ScanLeaf(c: Cursor) returns (r: Result<(), ExternalError>)
    modifies c
    ensures Scans(ReadLeaf(old(c.bytes)), r, c.bytes)
  {
    hide GetVector, GetExact, GetNumber, ReadCapabilities, ReadSource, ReadExtensions;
    var _ :- c.Exact(32);
    var _ :- c.Exact(32);
    var version :- c.U16();
    if version != 1 {
      return Err(UnsupportedProfile);
    }
    var _ :- c.Exact(45);
    var _ :- ScanCapabilities(c);
    var _ :- ScanSource(c);
    var _ :- ScanExtensions(c);
    r := c.Exact(64);
  }

  method ScanUnmerged(unmerged: Bytes) returns (r: Result<(), ExternalError>)
    ensures r == Forget(ReadUnmerged(unmerged))
  {
    hide FromBE;
    if |unmerged| % 4 != 0 {
      return Err(DecodeRejected);
    }
    for i := 0 to |unmerged| / 4
      invariant Forget(ReadWords(unmerged)) == Forget(ReadWords(unmerged[4 * i..]))
    {
      var rest := unmerged[4 * i..];
      assert rest[4..] == unmerged[4 * (i + 1)..];
      if FromBE(rest[..4]) >= MAX_LEAVES {
        return Err(LimitExceeded);
      }
    }
    return Ok(());
  }

  /** One node; the answer says whether it is a leaf, which is refused once enough have been seen. */
  method ScanNode(nodes: Cursor, leaves: nat) returns (r: Result<bool, ExternalError>)
    requires leaves <= MAX_LEAVES
    modifies nodes
    ensures match ReadNode(old(nodes.bytes), leaves)
            case Ok((n, k)) => r == Ok(n.LeafNode?) && nodes.bytes == k
            case Err(e) => r == Err(e)
    ensures r == Ok(true) ==> leaves < MAX_LEAVES
  {
    hide GetVector, GetExact, GetNumber, ReadLeaf, ReadUnmerged;
    var tag :- nodes.Byte();
    match tag
    case 0 =>
      return Ok(false);
    case 1 =>
      var kind :- nodes.Byte();
      match kind {
        case 1 =>
          if leaves + 1 > MAX_LEAVES {
            return Err(LimitExceeded);
          }
          var _ :- ScanLeaf(nodes);
          return Ok(true);
        case 2 =>
          var _ :- nodes.Exact(32);
          var _ :- nodes.Vector(32);
          var unmerged :- nodes.Vector(MAX_LEAVES * 4);
          var _ :- ScanUnmerged(unmerged);
          return Ok(false);
        case _ =>
          return Err(DecodeRejected);
      }
    case _ =>
      return Err(DecodeRejected);
  }

  method ScanTree(bytes: Bytes) returns (r: Result<(), ExternalError>)
    ensures r == Forget(ReadTree(bytes))
  {
    hide GetVector, ReadNode;
    var outer := new Cursor(bytes);
    var body :- outer.Vector(MAX_MLS_BYTES);
    var _ :- outer.Finish();
    var nodes := new Cursor(body);
    var count := 0;
    var leaves := 0;
    while nodes.bytes != []
      invariant count <= MAX_TREE_NODES && leaves <= MAX_LEAVES
      invariant var whole, rest := ReadNodes(body, 0, 0), ReadNodes(nodes.bytes, count, leaves);
                && Forget(whole) == Forget(rest)
                && (whole.Ok? ==> LeafCount(whole.value) == leaves + LeafCount(rest.value) && |whole.value| == count + |rest.value|)
      modifies nodes
      decreases |nodes.bytes|
    {
      count := count + 1;
      if count > MAX_TREE_NODES {
        return Err(LimitExceeded);
      }
      var leaf :- ScanNode(nodes, leaves);
      if leaf {
        leaves := leaves + 1;
      }
    }
    if count == 0 || leaves == 0 {
      return Err(TreeRejected);
    }
    return Ok(());
  }

  /** The whole of an untrusted GroupInfo, checked without building it. */
  method ScanGroupInfoBytes(bytes: Bytes) returns (r: Result<(), ExternalError>)
    ensures r == Forget(ScanGroupInfo(bytes))
  {
    hide GetVector, GetExact, GetNumber, GetBytes, ReadInfoContent;
    if bytes == [] || |bytes| > MAX_MLS_BYTES {
      return Err(LimitExceeded);
    }
    var c := new Cursor(bytes);
    var version :- c.U16();
    if version != 1 {
      return Err(UnsupportedProfile);
    }
    var format :- c.U16();
    if format != 4 {
      return Err(UnsupportedProfile);
    }
    var inner :- c.U16();
    if inner != 1 {
      return Err(UnsupportedProfile);
    }
    var suite :- c.U16();
    if suite != 1 {
      return Err(UnsupportedProfile);
    }
    var _ :- c.Exact(16);
    var epoch :- c.Take(8);
    var _ :- c.Exact(32);
    var transcript :- c.Vector(32);
    if |transcript| != 32 && !(epoch == [0, 0, 0, 0, 0, 0, 0, 0] && transcript == []) {
      return Err(DecodeRejected);
    }
    var _ :- ScanInfoContent(c);
    r := c.Finish();
  }

  method ScanInfoContent(c: Cursor) returns (r: Result<(), ExternalError>)
    modifies c
    ensures Scans(ReadInfoContent(old(c.bytes)), r, c.bytes)
  {
    hide GetVector, GetExact, GetBytes, ReadInfoExtensions;
    var context :- c.Vector(16 * 1024);
    if context != [] {
      return Err(UnsupportedProfile);
    }
    var body :- c.Vector(MAX_MLS_BYTES);
    var _ :- ScanInfoExtensions(body);
    var _ :- c.Exact(32);
    var _ :- c.Take(4);
    r := c.Exact(64);
  }

  method ScanInfoExtensions(body: Bytes) returns (r: Result<(), ExternalError>)
    ensures r == Forget(ReadInfoExtensions(body, false, false))
  {
    hide GetVector, GetExact, GetNumber, ReadTree;
    var e := new Cursor(body);
    var seenTree, seenKey := false, false;
    while e.bytes != []
      invariant Forget(ReadInfoExtensions(body, false, false)) == Forget(ReadInfoExtensions(e.bytes, seenTree, seenKey))
      modifies e
      decreases |e.bytes|
    {
      var kind :- e.U16();
      var item :- e.Vector(MAX_MLS_BYTES);
      if kind == 2 && !seenTree {
        var _ :- ScanTree(item);
        seenTree := true;
      } else if kind == 4 && !seenKey {
        var p := new Cursor(item);
        var _ :- p.Exact(32);
        var _ :- p.Finish();
        seenKey := true;
      } else {
        return Err(UnsupportedProfile);
      }
    }
    if !seenTree || !seenKey {
      return Err(MissingRequiredExtension);
    }
    return Ok(());
  }

  method ScanProposals(body: Bytes) returns (r: Result<(), ExternalError>)
    ensures r == Forget(ReadProposals(body, false, false))
  {
    hide GetExact, GetNumber, GetBytes;
    var props := new Cursor(body);
    var init, remove := 0, 0;
    while props.bytes != []
      invariant 0 <= init <= 1 && 0 <= remove <= 1
      invariant Forget(ReadProposals(body, false, false)) == Forget(ReadProposals(props.bytes, init == 1, remove == 1))
      modifies props
      decreases |props.bytes|
    {
      var tag :- props.Byte();
      if tag != 1 {
        return Err(DeltaMismatch);
      }
      var kind :- props.U16();
      if kind == 6 && init == 0 {
        var _ :- props.Exact(32);
        init := init + 1;
      } else if kind == 3 && remove == 0 {
        var _ :- props.Take(4);
        remove := remove + 1;
      } else {
        return Err(DeltaMismatch);
      }
    }
    if init != 1 || remove != 1 {
      return Err(DeltaMismatch);
    }
    return Ok(());
  }

  method ScanRecipients(body: Bytes) returns (r: Result<(), ExternalError>)
    ensures r == Forget(ReadRecipients(body, 0))
  {
    hide GetExact;
    var recipients := new Cursor(body);
    var count := 0;
    while recipients.bytes != []
      invariant count <= MAX_LEAVES
      invariant Forget(ReadRecipients(body, 0)) == Forget(ReadRecipients(recipients.bytes, count))
      modifies recipients
      decreases |recipients.bytes|
    {
      count := count + 1;
      if count > MAX_LEAVES {
        return Err(LimitExceeded);
      }
      var _ :- recipients.Exact(32);
      var _ :- recipients.Exact(48);
    }
    return Ok(());
  }

  method ScanUpdatePath(bytes: Bytes) returns (r: Result<(), ExternalError>)
    ensures r == Forget(ReadPath(bytes, 0))
  {
    hide GetExact, GetVector, ReadRecipients;
    var path := new Cursor(bytes);
    var depth := 0;
    while path.bytes != []
      invariant depth <= MAX_DEPTH
      invariant Forget(ReadPath(bytes, 0)) == Forget(ReadPath(path.bytes, depth))
      modifies path
      decreases |path.bytes|
    {
      depth := depth + 1;
      if depth > MAX_DEPTH {
        return Err(LimitExceeded);
      }
      var _ :- path.Exact(32);
      var recipients :- path.Vector(MAX_MLS_BYTES);
      var _ :- ScanRecipients(recipients);
    }
    return Ok(());
  }

  /** The whole of an untrusted external Commit, checked without building it. */
  method ScanCommitBytes(bytes: Bytes) returns (r: Result<(), ExternalError>)
    ensures r == Forget(ScanCommit(bytes))
  {
    hide GetVector, GetExact, GetNumber, GetBytes, ReadCommitContent;
    if bytes == [] || |bytes| > MAX_MLS_BYTES {
      return Err(LimitExceeded);
    }
    var c := new Cursor(bytes);
    var version :- c.U16();
    if version != 1 {
      return Err(UnsupportedProfile);
    }
    var format :- c.U16();
    if format != 1 {
      return Err(UnsupportedProfile);
    }
    var _ :- c.Exact(16);
    var _ :- c.Take(8);
    var sender :- c.Byte();
    if sender != 4 {
      return Err(SignerMismatch);
    }
    var aad :- c.Vector(MAX_AAD_BYTES);
    if aad == [] {
      return Err(LimitExceeded);
    }
    var _ :- ScanCommitContent(c);
    r := c.Finish();
  }

  method ScanCommitContent(c: Cursor) returns (r: Result<(), ExternalError>)
    modifies c
    ensures Scans(ReadCommitContent(old(c.bytes)), r, c.bytes)
  {
    hide GetVector, GetExact, GetNumber, ReadLeaf, ReadProposals, ReadPath;
    var content :- c.Byte();
    if content != 3 {
      return Err(ProtocolRejected);
    }
    var proposals :- c.Vector(128);
    var _ :- ScanProposals(proposals);
    var present :- c.Byte();
    if present != 1 {
      return Err(ProtocolRejected);
    }
    var _ :- ScanLeaf(c);
    var path :- c.Vector(MAX_MLS_BYTES);
    var _ :- ScanUpdatePath(path);
    var _ :- c.Exact(64);
    r := c.Exact(32);
  }
}
