/** Retained deployments beside the active target: sealing, verifying, listing and
    pruning them. */
module RetainedDeployments {
  import opened Prelude
  import opened HashChain
  import opened Ordering
  import opened DeploymentTree
  import opened TreeAttestation
  import opened HistoryKeyring
  import opened AuditLog
  import opened Activation

  const MAX_IDENTITY_BYTES: nat := 64 * 1024
  const MAX_SEAL_BYTES: nat := 64 * 1024
  const SEAL_MODE: nat := 384  // 0o600

  datatype World = World(
    hashing: Hashing,
    derivation: Derivation,
    codec: Codec,
    targetName: Token,
    uid: nat,
    gid: nat)

  /** load_deployment_identity for the expected target name. */
  function LoadIdentity(w: World, tree: Tree): Option<Identity> {
    if PrivateRoot(tree) && IDENTITY_PATH in tree.entries && tree.entries[IDENTITY_PATH].FileEntry?
       && w.hashing.size(tree.entries[IDENTITY_PATH].content) <= MAX_IDENTITY_BYTES
       && tree.entries[IDENTITY_PATH].content.IdentityContent?
       && tree.entries[IDENTITY_PATH].content.identity.wellFormed
       && tree.entries[IDENTITY_PATH].content.identity.targetName == w.targetName
    then Some(tree.entries[IDENTITY_PATH].content.identity)
    else None
  }

  function PayloadFor(w: World, key: Token, identity: Identity, attestation: Attestation, now: int): SealPayload {
    SealPayload(
      true, identity.installationId, identity.targetName, w.hashing.identity(identity), now,
      w.derivation.keyId(key), w.derivation.fingerprint(key), attestation)
  }

  function SealFor(w: World, key: Token, identity: Identity, attestation: Attestation, now: int): Seal {
    var payload := PayloadFor(w, key, identity, attestation, now);
    Seal(payload, SealMac(key, payload))
  }

  function SealEntry(w: World, seal: Seal): Entry {
    FileEntry(SEAL_MODE, w.uid, w.gid, SealContent(0, seal))
  }

  /** The tree with its seal file in place. */
  function Sealed(tree: Tree, entry: Entry): Tree {
    tree.(entries := tree.entries[SEAL_PATH := entry])
  }

  /** st_mode & 0o077 == 0 */
  predicate OwnerOnly(mode: nat) {
    mode % 64 == 0
  }

  predicate SealFileSafe(w: World, entry: Entry) {
    && entry.FileEntry?
    && w.hashing.size(entry.content) <= MAX_SEAL_BYTES
    && OwnerOnly(entry.mode)
    && entry.content.SealContent?
  }

  /** The seal authenticates this identity and this attestation with the current
      key. */
  predicate SealAuthentic(w: World, ring: Keyring, seal: Seal, identity: Identity, attestation: Attestation) {
    && seal.payload.formatKnown
    && var key := ResolveCurrent(w.derivation, ring, seal.payload.keyId, seal.payload.keyFingerprint);
    && key.Some?
    && seal.mac == SealMac(key.value.material, seal.payload)
    && seal.payload.installationId == identity.installationId
    && seal.payload.targetName == identity.targetName
    && seal.payload.identity == w.hashing.identity(identity)
    && seal.payload.attestation == attestation
  }

  /** verify_retained_deployment. */
  predicate Verifies(w: World, ring: Option<Keyring>, tree: Tree) {
    && LoadIdentity(w, tree).Some?
    && SEAL_PATH in tree.entries && SealFileSafe(w, tree.entries[SEAL_PATH])
    && ring.Some? && Readable(w.derivation, ring.value)
    && Attest(w.hashing, tree).Some?
    && SealAuthentic(
         w, ring.value, tree.entries[SEAL_PATH].content.seal,
         LoadIdentity(w, tree).value, Attest(w.hashing, tree).value)
  }

  /** The attestation does not see the seal file. */
  lemma SealedCovered(tree: Tree, entry: Entry)
    ensures Covered(Sealed(tree, entry)) == Covered(tree)
    ensures PrivateRoot(Sealed(tree, entry)) <==> PrivateRoot(tree)
  {
  }

  lemma PathsDiffer()
    ensures IDENTITY_PATH != SEAL_PATH
  {
    assert IDENTITY_PATH.text[26] == 'I' && SEAL_PATH.text[26] == 'S';
  }

  /** There is an identity and an attestation to seal. */
  predicate Attested(w: World, tree: Tree) {
    LoadIdentity(w, tree).Some? && Attest(w.hashing, tree).Some?
  }

  /** The seal that seal_retained_deployment makes for a tree. */
  function SealOf(w: World, key: Token, tree: Tree, now: int): Seal
    requires Attested(w, tree)
  {
    SealFor(w, key, LoadIdentity(w, tree).value, Attest(w.hashing, tree).value, now)
  }

  /** The verifier reads no seal above its size limit; the sealer has none. Real seals
      have a few kilobytes. */
  predicate SealFits(w: World, key: Token, tree: Tree, now: int)
    requires Attested(w, tree)
  {
    w.hashing.size(SealContent(0, SealOf(w, key, tree, now))) <= MAX_SEAL_BYTES
  }

  /** Sealing and then verifying an unchanged tree succeeds exactly when the seal is
      below the size limit of the verifier. */
  lemma SealThenVerify(w: World, ring: Keyring, tree: Tree, key: Token, now: int)
    requires Readable(w.derivation, ring) && Current(w.derivation, ring) == Some(HistoryKey(key, false))
    requires Attested(w, tree)
    ensures Verifies(w, Some(ring), Sealed(tree, SealEntry(w, SealOf(w, key, tree, now)))) <==>
              SealFits(w, key, tree, now)
  {
    CurrentResolves(w.derivation, ring);
    var entry := SealEntry(w, SealOf(w, key, tree, now));
    SealedCovered(tree, entry);
    PathsDiffer();
    assert Attest(w.hashing, Sealed(tree, entry)) == Attest(w.hashing, tree);
    assert LoadIdentity(w, Sealed(tree, entry)) == LoadIdentity(w, tree);
  }

  /** After sealing, a tree that carries the same seal file verifies exactly when
      its root is still private and every other entry is unchanged - path, type,
      mode, owner, link target, size, content - or the two trees exhibit a SHA-256
      collision. */
  lemma SealBindsTree(w: World, ring: Keyring, tree: Tree, changed: Tree)
    requires CanonicalJson(w.hashing)
    requires Verifies(w, Some(ring), tree)
    requires SEAL_PATH in changed.entries && changed.entries[SEAL_PATH] == tree.entries[SEAL_PATH]
    ensures PrivateRoot(changed) && Covered(changed) == Covered(tree) ==> Verifies(w, Some(ring), changed)
    ensures Verifies(w, Some(ring), changed) ==>
              PrivateRoot(changed) &&
                (Covered(changed) == Covered(tree) || AttestationCollision(w.hashing, tree, changed))
  {
    AttestationBindsTree(w.hashing, tree, changed);
    PathsDiffer();
    assert IDENTITY_PATH in tree.entries ==> IDENTITY_PATH in Covered(tree);
    if Covered(changed) == Covered(tree) {
      assert IDENTITY_PATH in Covered(changed);
      assert changed.entries[IDENTITY_PATH] == Covered(changed)[IDENTITY_PATH];
      assert tree.entries[IDENTITY_PATH] == Covered(tree)[IDENTITY_PATH];
    }
  }

  /** The verifier accepts no seal but those that the sealer makes for this very tree
      with the current key, at some time. */
  lemma OnlyOwnSealVerifies(w: World, ring: Keyring, tree: Tree)
    requires Readable(w.derivation, ring)
    ensures Verifies(w, Some(ring), tree) <==>
              && Attested(w, tree)
              && SEAL_PATH in tree.entries && SealFileSafe(w, tree.entries[SEAL_PATH])
              && exists now :: tree.entries[SEAL_PATH].content.seal
                               == SealOf(w, Current(w.derivation, ring).value.material, tree, now)
  {
    CurrentResolves(w.derivation, ring);
    var key := Current(w.derivation, ring).value.material;
    if Verifies(w, Some(ring), tree) {
      var seal := tree.entries[SEAL_PATH].content.seal;
      assert seal == SealOf(w, key, tree, seal.payload.sealedAt);
    }
  }

  /** A tree that was installed under another target's name never verifies here. */
  lemma ForeignTreeNeverVerifies(w: World, ring: Option<Keyring>, tree: Tree)
    requires IDENTITY_PATH in tree.entries && tree.entries[IDENTITY_PATH].FileEntry?
    requires tree.entries[IDENTITY_PATH].content.IdentityContent?
    requires tree.entries[IDENTITY_PATH].content.identity.targetName != w.targetName
    ensures !Verifies(w, ring, tree) && !Attested(w, tree)
  {
  }

  /** A seal of a rotated-out key no longer verifies. */
  lemma RetiredSealRejected(w: World, ring: Keyring, tree: Tree, material: Token)
    requires Readable(w.derivation, ring) && |ring.keys| < MAX_KEYS && FreshKey(w.derivation, ring, material)
    requires Verifies(w, Some(ring), tree)
    ensures !Verifies(w, Some(Rotated(w.derivation, ring, material)), tree)
  {
    var payload := tree.entries[SEAL_PATH].content.seal.payload;
    RotatedResolves(w.derivation, ring, material, payload.keyId, payload.keyFingerprint);
  }

  /** The audit checkpoint plays no part in verifying a tree. */
  lemma VerifiesIgnoresCheckpoint(w: World, ring: Keyring, sequence: nat, head: Token, tree: Tree)
    requires Readable(w.derivation, ring) && sequence > 0 && IsSha256(head)
    ensures Verifies(w, Some(WithCheckpoint(ring, sequence, head)), tree) <==> Verifies(w, Some(ring), tree)
  {
  }

  const CREATED_MODE: nat := 420  // 0o644

  function TemporarySeal(token: string): Path {
    Path(SEAL_PATH.text + ".tmp-" + token)
  }

  lemma TemporarySealDiffers(token: string)
    ensures TemporarySeal(token) != SEAL_PATH
  {
    assert |TemporarySeal(token).text| > |SEAL_PATH.text|;
  }

  /** The random name of the temporary seal is not taken in the tree. */
  predicate FreshToken(tree: Tree, token: string) {
    TemporarySeal(token) !in tree.entries
  }

  /** A tree with an abandoned temporary seal in it. */
  function WithStray(tree: Tree, token: string, entry: Entry): Tree {
    tree.(entries := tree.entries[TemporarySeal(token) := entry])
  }

  /** How a seal attempt can leave the tree it was made in. */
  ghost predicate SealLeft(
    w: World, before: Tree, after: Tree, ok: bool, stray: bool, key: Token, token: string, now: int)
  {
    if ok then
      && Sealable(w, before)
      && after == Sealed(before, SealEntry(w, SealOf(w, key, before, now)))
    else if stray then
      exists entry: Entry :: !entry.UnsupportedEntry? && after == WithStray(before, token, entry)
    else
      after == before
  }

  /** There is something to seal, and no directory in the way of the seal file. */
  predicate Sealable(w: World, tree: Tree) {
    Attested(w, tree) && SealReplaceable(tree)
  }

  predicate SealReplaceable(tree: Tree) {
    !(SEAL_PATH in tree.entries && tree.entries[SEAL_PATH].DirectoryEntry?)
  }

  /** The three writes of a seal, from this operation on, succeed. */
  predicate SealPlaced(tree: Tree, fails: nat -> bool, operation: nat) {
    !fails(operation) && !fails(operation + 1) && !fails(operation + 2) && SealReplaceable(tree)
  }

  /** The first of them succeeds and a later one does not. */
  predicate SealStranded(tree: Tree, fails: nat -> bool, operation: nat) {
    !fails(operation) && (fails(operation + 1) || fails(operation + 2) || !SealReplaceable(tree))
  }

  /** The operation after an attempt at the three writes. */
  function AfterSeal(fails: nat -> bool, operation: nat): nat {
    operation + if fails(operation) then 1 else if fails(operation + 1) then 2 else 3
  }

  /** A seal attempt gets as far as the three writes. */
  predicate SealAttempted(
    w: World, entries: map<Name, Tree>, name: Name, content: Option<Keyring>, fails: nat -> bool, operations: nat)
  {
    && name.Previous? && name in entries && Attested(w, entries[name])
    && KeyAvailable(w.derivation, content, fails, operations)
  }

  /** seal_retained_deployment: write a temporary seal, restrict it, rename it over
      the seal path. If the restriction or the rename fails, the temporary file
      stays behind inside the sealed tree. Whether it succeeds, and whether it
      leaves that file, is decided by what can be known before the call. */
  method SealRetained(
    w: World, dir: ParentDirectory, keyring: KeyringFile, name: Name, token: string, now: int, newKey: Token)
    returns (ok: bool, stray: bool, ghost key: Token)
    requires name in dir.entries ==> FreshToken(dir.entries[name], token)
    modifies dir, keyring
    ensures KeptOrCreated(w.derivation, old(keyring.content), keyring.content, newKey)
    ensures ok || stray ==> keyring.content.Some? && Readable(w.derivation, keyring.content.value)
                            && Current(w.derivation, keyring.content.value) == Some(HistoryKey(key, false))
    ensures name !in old(dir.entries) ==> !ok && !stray && dir.entries == old(dir.entries)
    ensures name in old(dir.entries) ==>
              && name in dir.entries
              && SealLeft(w, old(dir.entries)[name], dir.entries[name], ok, stray, key, token, now)
              && dir.entries == old(dir.entries)[name := dir.entries[name]]
    ensures ok ==> name.Previous? && !stray
    ensures dir.drawn == old(dir.drawn)
    ensures var attempted := SealAttempted(
              w, old(dir.entries), name, old(keyring.content), keyring.fails, old(keyring.operations));
            && (ok <==> attempted && SealPlaced(old(dir.entries)[name], dir.fails, old(dir.operations)))
            && (stray <==> attempted && SealStranded(old(dir.entries)[name], dir.fails, old(dir.operations)))
    ensures ok ==> dir.operations == old(dir.operations) + 3
    ensures dir.operations == if SealAttempted(
                                   w, old(dir.entries), name, old(keyring.content), keyring.fails,
                                   old(keyring.operations))
                              then AfterSeal(dir.fails, old(dir.operations)) else old(dir.operations)
    ensures old(keyring.content).Some? ==> keyring.operations == old(keyring.operations)
  {
    ok, stray, key := false, false, newKey;
    if !name.Previous? || name !in dir.entries {
      return;
    }
    var tree := dir.entries[name];
    var identity := LoadIdentity(w, tree);
    if identity.None? {
      return;
    }
    var current := keyring.EnsureKey(w.derivation, newKey);
    if current.None? {
      return;
    }
    key := current.value;
    var attestation := AttestTree(w.hashing, tree);
    if attestation.None? {
      return;
    }
    var seal := SealOf(w, current.value, tree, now);
    ok, stray := PlaceSeal(w, dir, name, token, seal);
  }

  /** Writing the temporary seal, first or again. */
  lemma StrayWritten(entries: map<Name, Tree>, name: Name, token: string, entry: Entry)
    requires name in entries
    ensures WithEntry(entries, name, TemporarySeal(token), Some(entry))
            == entries[name := WithStray(entries[name], token, entry)]
  {
  }

  lemma StrayRewritten(tree: Tree, token: string, entry: Entry, again: Entry)
    ensures WithStray(WithStray(tree, token, entry), token, again) == WithStray(tree, token, again)
  {
    assert tree.entries[TemporarySeal(token) := entry][TemporarySeal(token) := again]
           == tree.entries[TemporarySeal(token) := again];
  }

  /** Renaming the temporary seal over the seal path. */
  lemma StrayRenamed(entries: map<Name, Tree>, name: Name, token: string, tree: Tree, entry: Entry)
    requires name in entries && FreshToken(tree, token) && entries[name] == WithStray(tree, token, entry)
    ensures WithEntry(
              WithEntry(entries, name, SEAL_PATH, Some(entry)), name, TemporarySeal(token), None)
            == entries[name := Sealed(tree, entry)]
  {
    TemporarySealDiffers(token);
    assert (entries[name].entries[SEAL_PATH := entry]) - {TemporarySeal(token)} == tree.entries[SEAL_PATH := entry];
  }

  /** The three writes. */
  method PlaceSeal(w: World, dir: ParentDirectory, name: Name, token: string, seal: Seal)
    returns (ok: bool, stray: bool)
    requires name in dir.entries && FreshToken(dir.entries[name], token)
    modifies dir
    ensures name in dir.entries && dir.entries == old(dir.entries)[name := dir.entries[name]]
    ensures ok ==> SealReplaceable(old(dir.entries)[name]) && !stray
    ensures ok ==> dir.entries[name] == Sealed(old(dir.entries)[name], SealEntry(w, seal))
    ensures stray ==>
              exists entry: Entry :: !entry.UnsupportedEntry?
                                     && dir.entries[name] == WithStray(old(dir.entries)[name], token, entry)
    ensures !ok && !stray ==> dir.entries[name] == old(dir.entries)[name]
    ensures dir.drawn == old(dir.drawn)
    ensures ok <==> SealPlaced(old(dir.entries)[name], dir.fails, old(dir.operations))
    ensures stray <==> SealStranded(old(dir.entries)[name], dir.fails, old(dir.operations))
    ensures dir.operations == AfterSeal(dir.fails, old(dir.operations))
  {
    ok, stray := false, false;
    var tree := dir.entries[name];
    var temporary := TemporarySeal(token);
    TemporarySealDiffers(token);
    var loose := FileEntry(CREATED_MODE, w.uid, w.gid, SealContent(0, seal));
    StrayWritten(dir.entries, name, token, loose);
    var written := dir.WriteEntry(name, temporary, loose);
    if !written {
      return;
    }
    stray := true;
    StrayWritten(dir.entries, name, token, SealEntry(w, seal));
    StrayRewritten(tree, token, loose, SealEntry(w, seal));
    var restricted := dir.WriteEntry(name, temporary, SealEntry(w, seal));
    if !restricted {
      return;
    }
    StrayRenamed(dir.entries, name, token, tree, SealEntry(w, seal));
    var renamed := dir.RenameEntry(name, temporary, SEAL_PATH);
    if !renamed {
      return;
    }
    ok, stray := true, false;
  }

  /** An abandoned temporary seal makes an intact deployment unmanaged: nothing
      removes it, and the attestation sees it. */
  lemma StrayBreaksSeal(w: World, ring: Keyring, tree: Tree, token: string, entry: Entry)
    requires CanonicalJson(w.hashing) && Verifies(w, Some(ring), tree) && FreshToken(tree, token)
    ensures Verifies(w, Some(ring), WithStray(tree, token, entry)) ==>
              StreamsCollide(w.hashing, tree, WithStray(tree, token, entry))
  {
    TemporarySealDiffers(token);
    var changed := WithStray(tree, token, entry);
    SealBindsTree(w, ring, tree, changed);
    assert TemporarySeal(token) in Covered(changed) && TemporarySeal(token) !in Covered(tree);
    forall p | p in Covered(tree) ensures p in Covered(changed) && Covered(changed)[p] == Covered(tree)[p] {
    }
  }

  /** A managed deployment, as the inventory ranks it. */
  datatype Ranked = Ranked(installedAt: int, installationId: Token, token: nat)

  /** Newest first; equal stamps by descending installation id, then by name. */
  predicate Newer(a: Ranked, b: Ranked) {
    || a.installedAt > b.installedAt
    || (a.installedAt == b.installedAt
        && (|| StringLess(b.installationId.text, a.installationId.text)
            || (a.installationId == b.installationId && a.token < b.token)))
  }

  lemma NewerIsStrictTotal()
    ensures StrictTotal(Newer)
  {
    StringLessIsStrictTotal();
    forall a, b ensures Newer(a, b) || a == b || Newer(b, a) {
      var x, y := a.installationId.text, b.installationId.text;
      assert StringLess(x, y) || x == y || StringLess(y, x);
    }
    forall a, b, c | Newer(a, b) && Newer(b, c) ensures Newer(a, c) {
      var x, y, z := a.installationId.text, b.installationId.text, c.installationId.text;
      assert StringLess(z, y) && StringLess(y, x) ==> StringLess(z, x);
    }
  }

  lemma NewerMeans(a: Ranked, b: Ranked)
    requires Newer(a, b)
    ensures a.installedAt >= b.installedAt
    ensures a.installedAt == b.installedAt ==>
              && !StringLess(a.installationId.text, b.installationId.text)
              && (a.installationId == b.installationId ==> a.token < b.token)
  {
    var x, y := a.installationId.text, b.installationId.text;
    if StringLess(y, x) {
      StringLessAsymmetric(y, x);
    } else if a.installedAt == b.installedAt {
      StringLessTotal(x, x);
    }
  }

  function RankOf(w: World, name: Name, tree: Tree): Ranked
    requires name.Previous? && LoadIdentity(w, tree).Some?
  {
    var identity := LoadIdentity(w, tree).value;
    Ranked(identity.installedAt, identity.installationId, name.token)
  }

  /** The managed deployments: siblings with the previous- prefix that verify. */
  function Managed(w: World, ring: Option<Keyring>, entries: map<Name, Tree>): set<Ranked> {
    set name | name in entries && name.Previous? && Verifies(w, ring, entries[name]) :: RankOf(w, name, entries[name])
  }

  /** inventory_retained_deployments()["managed"] */
  function Inventory(w: World, ring: Option<Keyring>, entries: map<Name, Tree>): seq<Ranked> {
    NewerIsStrictTotal();
    Sorted(Newer, Managed(w, ring, entries))
  }

  lemma InventoryFacts(w: World, ring: Option<Keyring>, entries: map<Name, Tree>)
    ensures var ranking := Inventory(w, ring, entries);
            && Ascending(Newer, ranking)
            && (forall r :: r in ranking <==> r in Managed(w, ring, entries))
    ensures forall r :: r in Managed(w, ring, entries) ==>
              && Previous(r.token) in entries
              && Verifies(w, ring, entries[Previous(r.token)])
              && r == RankOf(w, Previous(r.token), entries[Previous(r.token)])
  {
    NewerIsStrictTotal();
    SortedFacts(Newer, Managed(w, ring, entries));
  }

  function Names(ranking: seq<Ranked>): set<Name> {
    set r | r in ranking :: Previous(r.token)
  }

  /** Different places in a ranking are different siblings. */
  ghost predicate DistinctTokens(ranking: seq<Ranked>) {
    forall i, j :: 0 <= i < j < |ranking| ==> ranking[i].token != ranking[j].token
  }

  lemma InventoryDistinct(w: World, ring: Option<Keyring>, entries: map<Name, Tree>)
    ensures DistinctTokens(Inventory(w, ring, entries))
  {
    InventoryFacts(w, ring, entries);
    NewerIsStrictTotal();
    var ranking := Inventory(w, ring, entries);
    forall i, j | 0 <= i < j < |ranking| ensures ranking[i].token != ranking[j].token {
      assert ranking[i] in ranking && ranking[j] in ranking;
      assert Newer(ranking[i], ranking[j]);
    }
  }

  /** In a ranking without repetition, the first part and the rest name different
      siblings. */
  lemma NamesSplit(ranking: seq<Ranked>, k: nat)
    requires DistinctTokens(ranking) && k <= |ranking|
    ensures Names(ranking[..k]) !! Names(ranking[k..])
    ensures Names(ranking) == Names(ranking[..k]) + Names(ranking[k..])
  {
    assert ranking == ranking[..k] + ranking[k..];
    forall r, q | r in ranking[..k] && q in ranking[k..] ensures r.token != q.token {
      var i :| 0 <= i < k && ranking[i] == r;
      var j :| 0 <= j < |ranking| - k && ranking[k..][j] == q;
      assert ranking[k + j] == q;
    }
  }

  /** What pruning plans to remove: the managed deployments after the first `keep`. */
  function Plan(w: World, ring: Option<Keyring>, entries: map<Name, Tree>, keep: nat): seq<Ranked> {
    var ranking := Inventory(w, ring, entries);
    if |ranking| <= keep then [] else ranking[keep..]
  }

  lemma PlanFacts(w: World, ring: Option<Keyring>, entries: map<Name, Tree>, keep: nat)
    ensures DistinctTokens(Plan(w, ring, entries, keep))
    ensures forall r :: r in Plan(w, ring, entries, keep) ==> Previous(r.token) in entries
  {
    InventoryFacts(w, ring, entries);
    InventoryDistinct(w, ring, entries);
    var ranking := Inventory(w, ring, entries);
    assert forall r :: r in Plan(w, ring, entries, keep) ==> r in ranking;
  }

  /** What pruning leaves. */
  function Kept(w: World, ring: Option<Keyring>, entries: map<Name, Tree>, keep: nat): map<Name, Tree> {
    entries - Names(Plan(w, ring, entries, keep))
  }

  /** Pruning keeps exactly the newest managed deployments, in the same order, and
      no other sibling is touched. */
  lemma PruneKeepsNewest(w: World, ring: Option<Keyring>, entries: map<Name, Tree>, keep: nat)
    ensures var ranking := Inventory(w, ring, entries);
            var after := Kept(w, ring, entries, keep);
            && Inventory(w, ring, after) == (if |ranking| <= keep then ranking else ranking[..keep])
            && (forall n :: n in entries && !(n.Previous? && Verifies(w, ring, entries[n])) ==>
                  n in after && after[n] == entries[n])
  {
    var ranking := Inventory(w, ring, entries);
    KeptInventory(w, ring, entries, ranking, keep);
    InventoryFacts(w, ring, entries);
    PlanFacts(w, ring, entries, keep);
    forall n | n in entries && !(n.Previous? && Verifies(w, ring, entries[n]))
      ensures n !in Names(Plan(w, ring, entries, keep))
    {
      assert forall r :: r in Plan(w, ring, entries, keep) ==> r in ranking;
    }
  }

  /** Where a managed deployment stands in the inventory, and that this decides
      whether it is kept. */
  lemma PlaceOf(w: World, ring: Option<Keyring>, entries: map<Name, Tree>, keep: nat, n: Name) returns (i: nat)
    requires n.Previous? && n in entries && Verifies(w, ring, entries[n])
    ensures i < |Inventory(w, ring, entries)| && Inventory(w, ring, entries)[i] == RankOf(w, n, entries[n])
    ensures n in Kept(w, ring, entries, keep) <==> i < keep
  {
    InventoryFacts(w, ring, entries);
    InventoryDistinct(w, ring, entries);
    var ranking, r := Inventory(w, ring, entries), RankOf(w, n, entries[n]);
    assert r in Managed(w, ring, entries);
    i :| 0 <= i < |ranking| && ranking[i] == r;
    if keep < |ranking| {
      NamesSplit(ranking, keep);
      if i < keep {
        assert ranking[..keep][i] == r;
        assert n in Names(ranking[..keep]);
      } else {
        assert ranking[keep..][i - keep] == r;
      }
    } else {
      NothingRemoved(entries);
    }
  }

  /** Among deployments that verify, one that pruning keeps was installed no earlier
      than one that it removes; if at the same time, its installation id is not the
      smaller one, and if that is the same too, its name sorts first. */
  lemma KeptIsNewer(w: World, ring: Option<Keyring>, entries: map<Name, Tree>, keep: nat, a: Name, b: Name)
    requires a.Previous? && b.Previous? && a in entries && b in entries
    requires Verifies(w, ring, entries[a]) && Verifies(w, ring, entries[b])
    requires a in Kept(w, ring, entries, keep) && b !in Kept(w, ring, entries, keep)
    ensures var x, y := LoadIdentity(w, entries[a]).value, LoadIdentity(w, entries[b]).value;
            && x.installedAt >= y.installedAt
            && (x.installedAt == y.installedAt ==>
                  && !StringLess(x.installationId.text, y.installationId.text)
                  && (x.installationId == y.installationId ==> a.token < b.token))
  {
    var i := PlaceOf(w, ring, entries, keep, a);
    var j := PlaceOf(w, ring, entries, keep, b);
    InventoryFacts(w, ring, entries);
    NewerMeans(RankOf(w, a, entries[a]), RankOf(w, b, entries[b]));
  }

  /** The inventory descends by installation time, and at one time by id. */
  lemma InventoryDescends(w: World, ring: Option<Keyring>, entries: map<Name, Tree>, i: nat, j: nat)
    requires i < j < |Inventory(w, ring, entries)|
    ensures var ranking := Inventory(w, ring, entries);
            var a, b := Previous(ranking[i].token), Previous(ranking[j].token);
            && a in entries && b in entries && LoadIdentity(w, entries[a]).Some? && LoadIdentity(w, entries[b]).Some?
            && var x, y := LoadIdentity(w, entries[a]).value, LoadIdentity(w, entries[b]).value;
               && x.installedAt >= y.installedAt
               && (x.installedAt == y.installedAt ==> !StringLess(x.installationId.text, y.installationId.text))
  {
    InventoryFacts(w, ring, entries);
    var ranking := Inventory(w, ring, entries);
    assert ranking[i] in ranking && ranking[j] in ranking;
    NewerMeans(ranking[i], ranking[j]);
  }

  /** The siblings that verify. */
  function ManagedSet(w: World, ring: Option<Keyring>, entries: map<Name, Tree>): set<Name> {
    set n | n in entries && n.Previous? && Verifies(w, ring, entries[n])
  }

  lemma {:induction false} NamesSize(ranking: seq<Ranked>)
    requires DistinctTokens(ranking)
    ensures |Names(ranking)| == |ranking|
  {
    if ranking != [] {
      NamesSize(ranking[1..]);
      NamesSplit(ranking, 1);
      assert Names(ranking[..1]) == {Previous(ranking[0].token)};
    }
  }

  /** Pruning leaves `keep` of them, or all if there are fewer. */
  lemma KeptCount(w: World, ring: Option<Keyring>, entries: map<Name, Tree>, keep: nat)
    ensures var n := |ManagedSet(w, ring, entries)|;
            |ManagedSet(w, ring, Kept(w, ring, entries, keep))| == if n <= keep then n else keep
  {
    ManagedSetSize(w, ring, entries);
    ManagedSetSize(w, ring, Kept(w, ring, entries, keep));
    PruneKeepsNewest(w, ring, entries, keep);
  }

  lemma ManagedSetSize(w: World, ring: Option<Keyring>, entries: map<Name, Tree>)
    ensures |ManagedSet(w, ring, entries)| == |Inventory(w, ring, entries)|
  {
    var ranking := Inventory(w, ring, entries);
    InventoryFacts(w, ring, entries);
    InventoryDistinct(w, ring, entries);
    NamesSize(ranking);
    forall n | n in ManagedSet(w, ring, entries) ensures n in Names(ranking) {
      assert RankOf(w, n, entries[n]) in Managed(w, ring, entries);
    }
    assert Names(ranking) == ManagedSet(w, ring, entries);
  }

  lemma NothingRemoved(entries: map<Name, Tree>)
    ensures entries - Names([]) == entries
  {
  }

  lemma KeptInventory(w: World, ring: Option<Keyring>, entries: map<Name, Tree>, ranking: seq<Ranked>, keep: nat)
    requires ranking == Inventory(w, ring, entries)
    ensures Inventory(w, ring, Kept(w, ring, entries, keep)) == if |ranking| <= keep then ranking else ranking[..keep]
  {
    NothingRemoved(entries);
    if keep < |ranking| {
      InventoryFacts(w, ring, entries);
      InventoryDistinct(w, ring, entries);
      NamesSplit(ranking, keep);
      KeptManaged(w, ring, entries, ranking, keep);
      var after := entries - Names(ranking[keep..]);
      InventoryFacts(w, ring, after);
      NewerIsStrictTotal();
      AscendingIsUnique(Newer, Inventory(w, ring, after), ranking[..keep]);
    }
  }

  /** Removing the tail of the ranking leaves its head managed. */
  lemma KeptManaged(w: World, ring: Option<Keyring>, entries: map<Name, Tree>, ranking: seq<Ranked>, keep: nat)
    requires forall r :: r in ranking <==> r in Managed(w, ring, entries)
    requires keep <= |ranking| && Names(ranking[..keep]) !! Names(ranking[keep..])
    ensures forall r :: r in Managed(w, ring, entries - Names(ranking[keep..])) <==> r in ranking[..keep]
  {
    var tail := Names(ranking[keep..]);
    var after := entries - tail;
    forall r ensures r in Managed(w, ring, after) <==> r in ranking[..keep] {
      var name := Previous(r.token);
      if r in ranking[..keep] {
        assert r in ranking && name in Names(ranking[..keep]);
        assert name in after;
      }
      if r in Managed(w, ring, after) {
        assert name in after && r in Managed(w, ring, entries);
        assert r in ranking[keep..] ==> name in tail;
        assert ranking == ranking[..keep] + ranking[keep..];
      }
    }
  }

  lemma NamesConcat(a: seq<Ranked>, b: seq<Ranked>)
    ensures Names(a + b) == Names(a) + Names(b)
  {
  }

  /** Pruning to k1 and then to k2 leaves what pruning once to the smaller leaves. */
  lemma PruneTwice(w: World, ring: Option<Keyring>, entries: map<Name, Tree>, k1: nat, k2: nat)
    ensures Kept(w, ring, Kept(w, ring, entries, k1), k2)
            == Kept(w, ring, entries, if k1 < k2 then k1 else k2)
  {
    var ranking := Inventory(w, ring, entries);
    KeptInventory(w, ring, entries, ranking, k1);
    NothingRemoved(entries);
    if k1 < |ranking| {
      NothingRemoved(entries - Names(ranking[k1..]));
      if k2 < k1 {
        RemovedTwice(entries, ranking, k1, k2);
      }
    }
  }

  lemma RemovedTwice(entries: map<Name, Tree>, ranking: seq<Ranked>, k1: nat, k2: nat)
    requires k2 <= k1 <= |ranking|
    ensures entries - Names(ranking[k1..]) - Names(ranking[..k1][k2..]) == entries - Names(ranking[k2..])
  {
    NamesConcat(ranking[..k1][k2..], ranking[k1..]);
    assert ranking[k2..] == ranking[..k1][k2..] + ranking[k1..];
  }

  /** The keyring moved only its audit checkpoint. */
  ghost predicate OnlyCheckpointMoved(before: Keyring, after: Option<Keyring>) {
    && after.Some?
    && (after.value == before ||
        (after.value == WithCheckpoint(before, after.value.sequence, after.value.head)
         && after.value.sequence > 0 && IsSha256(after.value.head)))
  }

  /** The log grew by one record of this event. */
  ghost predicate Logged(w: World, before: string, after: string, details: string) {
    exists record: AuditRecord :: record.payload.details == details && after == before + (w.codec.render(record) + "\n")
  }

  /** Append one event; the keyring moves no more than its checkpoint. */
  method RecordEvent(w: World, trail: AuditTrail, keyring: KeyringFile, newKey: Token, details: string)
    returns (ok: bool)
    requires LawfulCodec(w.codec)
    modifies trail, keyring
    ensures old(keyring.content).Some? ==> OnlyCheckpointMoved(old(keyring.content).value, keyring.content)
    ensures ok ==>
              && keyring.content.Some?
              && Logged(w, old(trail.Text()), trail.Text(), details)
              && LogPasses(w.codec, w.derivation, keyring.content, trail.Text())
    ensures var end := trail.StepsFrom(
              w.codec, w.derivation, keyring, old(keyring.content), newKey, old(trail.Text()), true, details,
              old(keyring.operations), old(trail.operations));
            && (ok <==> end.outcome.Appended?)
            && keyring.operations == end.keyringOperations && trail.operations == end.operations
    ensures old(trail.Text()) <= trail.Text()
  {
    var appended;
    ghost var records, ring, record;
    appended, records, ring, record := trail.Append(w.codec, w.derivation, keyring, newKey, true, details);
    ok := appended.Appended?;
  }

  /** The actions that pruning records. */
  datatype PruneEvents = PruneEvents(started: string, completed: string, failed: string)

  const PRUNE_EVENTS: PruneEvents := PruneEvents("prune_started", "prune_completed", "prune_failed")

  datatype PruneOutcome =
    | Pruned
    | NothingToPrune
    | DryRun
    | KeepRejected
    | NotStarted
    | PruneFailed(removed: nat)
    | CompletionUnrecorded

  /** Keyring and log text after an event was recorded. */
  datatype Started = Started(ring: Option<Keyring>, text: string)

  /** prune_retained_deployments. Success removes exactly the planned deployments; a
      failure removed a prefix of the plan, except that the deployment whose removal
      failed may be partly gone; unmanaged siblings are never touched. What is removed
      and recorded is decided by inventory, log and the operations that fail. */
  method Prune(
    w: World, dir: ParentDirectory, trail: AuditTrail, keyring: KeyringFile,
    keep: int, dryRun: bool, newKey: Token)
    returns (outcome: PruneOutcome, ghost plan: seq<Ranked>, ghost started: Started)
    requires LawfulCodec(w.codec)
    modifies dir, trail, keyring
    ensures outcome.KeepRejected? <==> keep < 1
    ensures keep >= 1 ==> plan == Plan(w, old(keyring.content), old(dir.entries), keep)
    ensures outcome.NothingToPrune? <==> keep >= 1 && plan == []
    ensures outcome.DryRun? <==> keep >= 1 && plan != [] && dryRun
    ensures outcome.KeepRejected? || outcome.NothingToPrune? || outcome.DryRun? ==>
              keyring.content == old(keyring.content) && trail.log == old(trail.log)
    ensures outcome.Pruned? || outcome.CompletionUnrecorded? ==>
              keep >= 1 && dir.entries == Kept(w, old(keyring.content), old(dir.entries), keep)
    ensures outcome.NothingToPrune? || outcome.DryRun? || outcome.KeepRejected? || outcome.NotStarted? ==>
              dir.entries == old(dir.entries)
    ensures outcome.PruneFailed? ==>
              && outcome.removed < |plan|
              && PartlyRemoved(old(dir.entries), plan, outcome.removed, dir.entries)
    // The first event, the removals up to the first that fails, and the last event.
    ensures keep >= 1 && plan != [] && !dryRun ==>
              PruneRecorded(
                w, trail, keyring, newKey, PRUNE_EVENTS, old(trail.Text()), started,
                trail.StepsFrom(
                  w.codec, w.derivation, keyring, old(keyring.content), newKey, old(trail.Text()), true,
                  PRUNE_EVENTS.started, old(keyring.operations), old(trail.operations)),
                SuccessesFrom(dir.fails, old(dir.operations), |plan|), |plan|, outcome, keyring.content, trail.Text())
  {
    plan, started := [], Started(keyring.content, trail.Text());
    if keep < 1 {
      return KeepRejected, plan, started;
    }
    var removable := Plan(w, keyring.content, dir.entries, keep);
    plan := removable;
    if removable == [] {
      return NothingToPrune, plan, started;
    }
    if dryRun {
      return DryRun, plan, started;
    }
    outcome, started := RemoveRecorded(w, dir, trail, keyring, removable, keep, PRUNE_EVENTS, newKey);
  }

  /** How a pruning that has something to remove ends, and what it records. */
  ghost predicate PruneRecorded(
    w: World, trail: AuditTrail, keyring: KeyringFile, newKey: Token, events: PruneEvents, text: string,
    started: Started, first: AppendEnd, removed: nat, planned: nat, outcome: PruneOutcome, ringAfter: Option<Keyring>,
    textAfter: string)
  {
    if !first.outcome.Appended? then outcome.NotStarted?
    else
      var event := if removed < planned then events.failed else events.completed;
      var last := trail.StepsFrom(
                    w.codec, w.derivation, keyring, started.ring, newKey, started.text, true, event,
                    first.keyringOperations, first.operations);
      && outcome == (if removed < planned then PruneFailed(removed)
                     else if last.outcome.Appended? then Pruned else CompletionUnrecorded)
      && Logged(w, text, started.text, events.started)
      && (last.outcome.Appended? ==>
            && LogPasses(w.codec, w.derivation, ringAfter, textAfter)
            && Logged(w, started.text, textAfter, event))
  }

  /** A plan made under the keyring before its checkpoint moved is removed up to the
      first removal that fails. */
  method RemoveManaged(
    w: World, dir: ParentDirectory, keyring: KeyringFile, plan: seq<Ranked>, ghost before: Option<Keyring>,
    ghost keep: nat)
    returns (removed: nat, ok: bool)
    requires plan == Plan(w, before, dir.entries, keep)
    requires before.Some? ==> OnlyCheckpointMoved(before.value, keyring.content)
    modifies dir
    ensures removed == SuccessesFrom(dir.fails, old(dir.operations), |plan|)
    ensures removed <= |plan| && (ok <==> removed == |plan|)
    ensures ok ==> dir.entries == old(dir.entries) - Names(plan)
    ensures !ok ==> PartlyRemoved(old(dir.entries), plan, removed, dir.entries)
  {
    PlanFacts(w, before, dir.entries, keep);
    PlanStillVerifies(w, before, keyring.content, dir.entries, keep);
    removed, ok := RemovePlanned(w, dir, keyring, plan);
  }

  /** Recording the start, removing what is planned, recording the end. */
  method RemoveRecorded(
    w: World, dir: ParentDirectory, trail: AuditTrail, keyring: KeyringFile, plan: seq<Ranked>, ghost keep: nat,
    events: PruneEvents, newKey: Token)
    returns (outcome: PruneOutcome, ghost started: Started)
    requires LawfulCodec(w.codec)
    requires plan == Plan(w, keyring.content, dir.entries, keep)
    modifies dir, trail, keyring
    ensures outcome in {NotStarted, Pruned, CompletionUnrecorded} || outcome.PruneFailed?
    ensures outcome.Pruned? || outcome.CompletionUnrecorded? ==> dir.entries == old(dir.entries) - Names(plan)
    ensures outcome.NotStarted? ==> dir.entries == old(dir.entries)
    ensures outcome.PruneFailed? ==>
              && outcome.removed < |plan|
              && PartlyRemoved(old(dir.entries), plan, outcome.removed, dir.entries)
    ensures PruneRecorded(
              w, trail, keyring, newKey, events, old(trail.Text()), started,
              trail.StepsFrom(
                w.codec, w.derivation, keyring, old(keyring.content), newKey, old(trail.Text()), true, events.started,
                old(keyring.operations), old(trail.operations)),
              SuccessesFrom(dir.fails, old(dir.operations), |plan|), |plan|, outcome, keyring.content, trail.Text())
  {
    ghost var ringBefore := keyring.content;
    var recorded := RecordEvent(w, trail, keyring, newKey, events.started);
    outcome, started := NotStarted, Started(keyring.content, trail.Text());
    if recorded {
      var removed, ok := RemoveManaged(w, dir, keyring, plan, ringBefore, keep);
      recorded := RecordEvent(w, trail, keyring, newKey, if ok then events.completed else events.failed);
      outcome := if !ok then PruneFailed(removed) else if recorded then Pruned else CompletionUnrecorded;
    }
  }

  ghost predicate AllVerify(w: World, ring: Option<Keyring>, entries: map<Name, Tree>, plan: seq<Ranked>) {
    forall r :: r in plan ==> StillVerifies(w, ring, entries, r)
  }

  lemma PlanStillVerifies(
    w: World, before: Option<Keyring>, after: Option<Keyring>, entries: map<Name, Tree>, keep: nat)
    requires before.Some? ==> OnlyCheckpointMoved(before.value, after)
    ensures AllVerify(w, after, entries, Plan(w, before, entries, keep))
  {
    InventoryFacts(w, before, entries);
    var ranking := Inventory(w, before, entries);
    forall r | r in Plan(w, before, entries, keep)
      ensures StillVerifies(w, after, entries, r)
    {
      assert r in ranking;
      if after != before {
        VerifiesIgnoresCheckpoint(w, before.value, after.value.sequence, after.value.head, entries[Previous(r.token)]);
      }
    }
  }

  lemma NamesMore(entries: map<Name, Tree>, plan: seq<Ranked>, k: nat)
    requires k < |plan|
    ensures entries - Names(plan[..k + 1]) == entries - Names(plan[..k]) - {Previous(plan[k].token)}
  {
    NamesConcat(plan[..k], [plan[k]]);
    assert plan[..k + 1] == plan[..k] + [plan[k]];
  }

  predicate StillVerifies(w: World, ring: Option<Keyring>, entries: map<Name, Tree>, r: Ranked) {
    Previous(r.token) in entries && Verifies(w, ring, entries[Previous(r.token)])
  }

  lemma AllVerifyMore(w: World, ring: Option<Keyring>, entries: map<Name, Tree>, plan: seq<Ranked>, k: nat)
    requires k < |plan| && AllVerify(w, ring, entries, plan[..k]) && StillVerifies(w, ring, entries, plan[k])
    ensures AllVerify(w, ring, entries, plan[..k + 1])
  {
    assert plan[..k + 1] == plan[..k] + [plan[k]];
  }

  /** The first failing operation, or the limit. */
  function FirstFailing(fails: nat -> bool, operation: nat, limit: nat): (i: nat)
    requires operation <= limit
    ensures operation <= i <= limit && (i < limit ==> fails(i))
    decreases limit - operation
  {
    if operation == limit || fails(operation) then operation else FirstFailing(fails, operation + 1, limit)
  }

  /** How many of so many operations succeed before one fails. */
  function SuccessesFrom(fails: nat -> bool, operation: nat, n: nat): nat {
    FirstFailing(fails, operation, operation + n) - operation
  }

  lemma {:induction false} NoneFailsBefore(fails: nat -> bool, operation: nat, limit: nat, i: nat)
    requires operation <= limit && operation <= i < FirstFailing(fails, operation, limit)
    ensures !fails(i)
    decreases i - operation
  {
    if operation < i {
      NoneFailsBefore(fails, operation + 1, limit, i);
    }
  }

  /** The removal loop: verify each deployment once more, then remove it. */
  method RemovePlanned(w: World, dir: ParentDirectory, keyring: KeyringFile, plan: seq<Ranked>)
    returns (removed: nat, ok: bool)
    requires DistinctTokens(plan)
    requires forall r :: r in plan ==> Previous(r.token) in dir.entries
    modifies dir
    ensures ok ==> dir.entries == old(dir.entries) - Names(plan)
    ensures !ok ==> removed < |plan| && PartlyRemoved(old(dir.entries), plan, removed, dir.entries)
    // Each of them verified just before its removal, and if all do, the first removal
    // that fails is where it stops.
    ensures removed <= |plan| && (ok <==> removed == |plan|)
    ensures ok ==> AllVerify(w, keyring.content, old(dir.entries), plan)
    ensures ok || AllVerify(w, keyring.content, old(dir.entries), plan) ==>
              removed == SuccessesFrom(dir.fails, old(dir.operations), |plan|)
  {
    ghost var entries, start := dir.entries, dir.operations;
    removed, ok := 0, true;
    NothingRemoved(entries);
    while ok && removed < |plan|
      invariant ok ==>
                  Removing(w, keyring.content, dir.fails, start, entries, plan, removed, dir.operations, dir.entries)
      invariant !ok ==> RemovalStopped(w, keyring.content, dir.fails, start, entries, plan, removed, dir.entries)
      decreases |plan| - removed, ok
    {
      ok := RemoveNext(w, dir, keyring, plan, removed, entries);
      if ok {
        RemovingMore(w, keyring.content, dir.fails, start, entries, plan, removed, dir.entries);
        removed := removed + 1;
      } else {
        StopsHere(w, keyring.content, dir.fails, start, entries, plan, removed, dir.entries);
      }
    }
    assert plan[..|plan|] == plan;
  }

  /** The first k removals succeeded. */
  ghost predicate Removing(
    w: World, ring: Option<Keyring>, fails: nat -> bool, start: nat, before: map<Name, Tree>, plan: seq<Ranked>,
    k: nat, operation: nat, after: map<Name, Tree>)
  {
    && k <= |plan| && operation == start + k
    && after == before - Names(plan[..k])
    && AllVerify(w, ring, before, plan[..k])
    && FirstFailing(fails, start, start + |plan|) == FirstFailing(fails, operation, start + |plan|)
  }

  lemma RemovingMore(
    w: World, ring: Option<Keyring>, fails: nat -> bool, start: nat, before: map<Name, Tree>, plan: seq<Ranked>,
    k: nat, after: map<Name, Tree>)
    requires k < |plan| && StillVerifies(w, ring, before, plan[k]) && !fails(start + k)
    requires Removing(w, ring, fails, start, before, plan, k, start + k, before - Names(plan[..k]))
    requires after == before - Names(plan[..k + 1])
    ensures Removing(w, ring, fails, start, before, plan, k + 1, start + k + 1, after)
  {
    AllVerifyMore(w, ring, before, plan, k);
  }

  /** The removal loop stopped in the middle of the plan. */
  ghost predicate RemovalStopped(
    w: World, ring: Option<Keyring>, fails: nat -> bool, start: nat, before: map<Name, Tree>, plan: seq<Ranked>,
    removed: nat, after: map<Name, Tree>)
  {
    && removed < |plan|
    && (AllVerify(w, ring, before, plan) ==> start + removed == FirstFailing(fails, start, start + |plan|))
    && PartlyRemoved(before, plan, removed, after)
  }

  /** The first k are gone, and only of the next one anything else may be gone. */
  ghost predicate PartlyRemoved(before: map<Name, Tree>, plan: seq<Ranked>, k: nat, after: map<Name, Tree>)
    requires k < |plan|
  {
    var name := Previous(plan[k].token);
    && after - {name} == before - Names(plan[..k]) - {name}
    && name in after && name in before && after[name].inode == before[name].inode
  }

  lemma StopsHere(
    w: World, ring: Option<Keyring>, fails: nat -> bool, start: nat, before: map<Name, Tree>, plan: seq<Ranked>,
    k: nat, after: map<Name, Tree>)
    requires k < |plan| && PartlyRemoved(before, plan, k, after)
    requires !StillVerifies(w, ring, before, plan[k]) || fails(start + k)
    requires Removing(w, ring, fails, start, before, plan, k, start + k, before - Names(plan[..k]))
    ensures RemovalStopped(w, ring, fails, start, before, plan, k, after)
  {
    assert plan[k] in plan;
  }

  method RemoveNext(
    w: World, dir: ParentDirectory, keyring: KeyringFile, plan: seq<Ranked>, k: nat, ghost before: map<Name, Tree>)
    returns (ok: bool)
    requires DistinctTokens(plan) && k < |plan| && Previous(plan[k].token) in before
    requires dir.entries == before - Names(plan[..k])
    modifies dir
    ensures ok <==> StillVerifies(w, keyring.content, before, plan[k]) && !dir.fails(old(dir.operations))
    ensures ok ==> dir.entries == before - Names(plan[..k + 1]) && dir.operations == old(dir.operations) + 1
    ensures !ok ==> PartlyRemoved(before, plan, k, dir.entries)
  {
    var name := Previous(plan[k].token);
    NextPlanned(before, plan, k);
    ok := Verifies(w, keyring.content, dir.entries[name]);
    if ok {
      ok := dir.RemoveTree(name);
    }
  }

  /** The next planned deployment is still there, and what its removal leaves. */
  lemma NextPlanned(entries: map<Name, Tree>, plan: seq<Ranked>, k: nat)
    requires DistinctTokens(plan) && k < |plan| && Previous(plan[k].token) in entries
    ensures var name, rest := Previous(plan[k].token), entries - Names(plan[..k]);
            name in rest && rest[name] == entries[name] && rest - {name} == entries - Names(plan[..k + 1])
  {
    NamesSplit(plan, k);
    assert plan[k] in plan[k..];
    NamesMore(entries, plan, k);
  }
}
