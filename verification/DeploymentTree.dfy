/** The trees that live beside a deployment target. */
module DeploymentTree {
  import opened HashChain

  datatype Path = Path(text: string)

  const IDENTITY_PATH: Path := Path("config/OFFLINE_DEPLOYMENT_IDENTITY.json")
  const SEAL_PATH: Path := Path("config/OFFLINE_DEPLOYMENT_SEAL.json")

  /** The identity marker; `wellFormed` stands for the syntax checks on its fields. */
  datatype Identity = Identity(
    installationId: Token,
    installedAt: int,
    targetName: Token,
    wellFormed: bool,
    details: string)

  datatype Attestation = Attestation(tree: Token, entryCount: nat, totalBytes: nat)

  datatype SealPayload = SealPayload(
    formatKnown: bool,
    installationId: Token,
    targetName: Token,
    identity: Token,
    sealedAt: int,
    keyId: Token,
    keyFingerprint: Token,
    attestation: Attestation)

  /** Ideal HMAC-SHA-256: a tag is the key and the payload it authenticates. */
  datatype SealMac = SealMac(key: Token, payload: SealPayload) | NoSealMac(text: string)

  datatype Seal = Seal(payload: SealPayload, mac: SealMac)

  /** A file's bytes, split by what the JSON reader makes of them. */
  datatype Content =
    | RawContent(text: string)
    | IdentityContent(layout: nat, identity: Identity)
    | SealContent(layout: nat, seal: Seal)

  datatype Entry =
    | FileEntry(mode: nat, uid: nat, gid: nat, content: Content)
    | DirectoryEntry(mode: nat, uid: nat, gid: nat)
    | SymlinkEntry(mode: nat, uid: nat, gid: nat, link: string)
    | UnsupportedEntry

  datatype RootKind = RealDirectory | OtherKind

  /** A directory entry of the parent: the root's inode, kind and mode, and
      everything below it. */
  datatype Tree = Tree(inode: nat, kind: RootKind, mode: nat, entries: map<Path, Entry>)

  /** Equal except for the mode bits of the root. */
  predicate SameUpToMode(a: Tree, b: Tree) {
    a == b.(mode := a.mode)
  }
}
