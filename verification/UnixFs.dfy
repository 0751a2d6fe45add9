/** dag-pb blocks as the UnixFS code sees them after protobuf parsing. */
module UnixFs {
  import opened Common

  /** The optional metadata of a file, directory or symlink. */
  datatype Metadata = Metadata(mode: Option<nat>, mtime: Option<(int, nat)>)

  const NO_METADATA := Metadata(None, None)

  datatype NodeType = Raw | Directory | File | MetadataNode | Symlink | HamtShard

  /** A dag-pb link. `cid` is `None` when the link's hash bytes are not a cid;
      a missing name and an empty one are treated alike everywhere. */
  datatype PbLink = PbLink(cid: Option<Cid>, name: string)

  /** A dag-pb node whose data parsed as a UnixFS message; missing data and empty data are alike. */
  datatype Node = Node(
    typ: NodeType,
    data: Bytes,
    filesize: Option<nat>,
    blocksizes: seq<nat>,
    hashType: Option<nat>,
    fanout: Option<nat>,
    meta: Metadata,
    links: seq<PbLink>)

  /** The result of parsing a block: not dag-pb at all, dag-pb without a readable UnixFS message,
      or both layers. */
  datatype PbBlock =
    | NotDagPb
    | NotUnixFs(links: seq<PbLink>)
    | Parsed(node: Node)

  const SHARD_FANOUT: nat := 256

  const SHARD_HASH: nat := 34

  predicate DirectorySupported(n: Node) {
    n.filesize.None? && n.blocksizes == [] && n.hashType.None? && n.fanout.None? && n.data == []
  }

  predicate ShardSupported(n: Node) {
    && n.fanout == Some(SHARD_FANOUT) && n.hashType == Some(SHARD_HASH)
    && n.filesize.None? && n.blocksizes == []
  }
}
