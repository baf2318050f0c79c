/** The digest over a retained deployment tree, which leaves out exactly the seal
    file. */
module TreeAttestation {
  import opened Prelude
  import opened HashChain
  import opened Ordering
  import opened TextLines
  import opened DeploymentTree

  datatype Record =
    | SymlinkRecord(path: Path, mode: nat, uid: nat, gid: nat, link: string)
    | DirectoryRecord(path: Path, mode: nat, uid: nat, gid: nat)
    | FileRecord(path: Path, mode: nat, uid: nat, gid: nat, size: nat, digest: Token)

  /** Canonical JSON text, SHA-256 and file sizes. */
  datatype Hashing = Hashing(
    render: Record -> string,
    stream: string -> Token,
    digest: Content -> Token,
    size: Content -> nat,
    identity: Identity -> Token)

  /** JSON escapes newlines in strings, and different records print differently. */
  ghost predicate CanonicalJson(h: Hashing) {
    && (forall r :: OneLine(h.render(r)))
    && (forall r, s :: h.render(r) == h.render(s) ==> r == s)
  }

  predicate PathLess(a: Path, b: Path) {
    StringLess(a.text, b.text)
  }

  lemma PathLessIsStrictTotal()
    ensures StrictTotal(PathLess)
  {
    StringLessIsStrictTotal();
    forall a, b ensures PathLess(a, b) || a == b || PathLess(b, a) {
      assert StringLess(a.text, b.text) || a.text == b.text || StringLess(b.text, a.text);
    }
  }

  function SortedPaths(paths: set<Path>): seq<Path> {
    PathLessIsStrictTotal();
    Sorted(PathLess, paths)
  }

  lemma SortedPathsFacts(paths: set<Path>)
    ensures |SortedPaths(paths)| == |paths|
    ensures forall p :: p in SortedPaths(paths) <==> p in paths
  {
    PathLessIsStrictTotal();
    SortedFacts(PathLess, paths);
  }

  function RecordOf(h: Hashing, path: Path, entry: Entry): Record
    requires !entry.UnsupportedEntry?
  {
    match entry
    case SymlinkEntry(mode, uid, gid, link) => SymlinkRecord(path, mode, uid, gid, link)
    case DirectoryEntry(mode, uid, gid) => DirectoryRecord(path, mode, uid, gid)
    case FileEntry(mode, uid, gid, content) =>
      FileRecord(path, mode, uid, gid, h.size(content), h.digest(content))
  }

  predicate Attestable(entries: map<Path, Entry>, order: seq<Path>) {
    forall i :: 0 <= i < |order| ==> order[i] in entries && !entries[order[i]].UnsupportedEntry?
  }

  function Lines(h: Hashing, entries: map<Path, Entry>, order: seq<Path>): (lines: seq<string>)
    requires Attestable(entries, order)
    ensures |lines| == |order|
  {
    if order == [] then []
    else [h.render(RecordOf(h, order[0], entries[order[0]]))] + Lines(h, entries, order[1..])
  }

  function FileBytes(h: Hashing, entry: Entry): nat {
    if entry.FileEntry? then h.size(entry.content) else 0
  }

  function TotalBytes(h: Hashing, entries: map<Path, Entry>, order: seq<Path>): nat
    requires Attestable(entries, order)
  {
    if order == [] then 0 else FileBytes(h, entries[order[0]]) + TotalBytes(h, entries, order[1..])
  }

  /** st_mode & 0o022 == 0 */
  predicate NotGroupOrWorldWritable(mode: nat) {
    (mode / 16) % 2 == 0 && (mode / 2) % 2 == 0
  }

  predicate PrivateRoot(tree: Tree) {
    tree.kind == RealDirectory && NotGroupOrWorldWritable(tree.mode)
  }

  /** Everything the attestation covers. */
  function Covered(tree: Tree): map<Path, Entry> {
    tree.entries - {SEAL_PATH}
  }

  function Order(tree: Tree): seq<Path> {
    SortedPaths(Covered(tree).Keys)
  }

  /** The bytes that are fed to the tree's hash. */
  function Stream(h: Hashing, tree: Tree): string
    requires Attestable(Covered(tree), Order(tree))
  {
    Terminated(Lines(h, Covered(tree), Order(tree)))
  }

  function Attest(h: Hashing, tree: Tree): Option<Attestation> {
    if PrivateRoot(tree) && Attestable(Covered(tree), Order(tree)) then
      Some(Attestation(
        h.stream(Stream(h, tree)),
        |Order(tree)|,
        TotalBytes(h, Covered(tree), Order(tree))))
    else None
  }

  lemma {:induction false} TerminatedAppend(lines: seq<string>, line: string)
    ensures Terminated(lines + [line]) == Terminated(lines) + line + "\n"
    decreases |lines|
  {
    if lines == [] {
      assert [line][1..] == [];
      assert lines + [line] == [line];
    } else {
      TerminatedAppend(lines[1..], line);
      assert (lines + [line])[1..] == lines[1..] + [line];
    }
  }

  lemma {:induction false} LinesAppend(h: Hashing, entries: map<Path, Entry>, order: seq<Path>, path: Path)
    requires Attestable(entries, order + [path])
    ensures Attestable(entries, order) && path in entries && !entries[path].UnsupportedEntry?
    ensures Lines(h, entries, order + [path])
            == Lines(h, entries, order) + [h.render(RecordOf(h, path, entries[path]))]
    ensures TotalBytes(h, entries, order + [path]) == TotalBytes(h, entries, order) + FileBytes(h, entries[path])
    decreases |order|
  {
    var longer := order + [path];
    assert longer[|order|] == path;
    assert forall i :: 0 <= i < |order| ==> longer[i] == order[i];
    if order != [] {
      assert longer[1..] == order[1..] + [path];
      LinesAppend(h, entries, order[1..], path);
    } else {
      assert longer[1..] == [];
    }
  }

  /** One more entry of the sorted tree is fed to the hash. */
  lemma FeedOneMore(h: Hashing, entries: map<Path, Entry>, order: seq<Path>, i: nat)
    requires i < |order| && order[i] in entries && !entries[order[i]].UnsupportedEntry?
    requires Attestable(entries, order[..i])
    ensures Attestable(entries, order[..i + 1])
    ensures Terminated(Lines(h, entries, order[..i + 1]))
            == Terminated(Lines(h, entries, order[..i])) + h.render(RecordOf(h, order[i], entries[order[i]])) + "\n"
    ensures TotalBytes(h, entries, order[..i + 1])
            == TotalBytes(h, entries, order[..i]) + FileBytes(h, entries[order[i]])
  {
    assert order[..i + 1] == order[..i] + [order[i]];
    LinesAppend(h, entries, order[..i], order[i]);
    TerminatedAppend(Lines(h, entries, order[..i]), h.render(RecordOf(h, order[i], entries[order[i]])));
  }

  lemma UnsupportedNotAttestable(entries: map<Path, Entry>, order: seq<Path>, i: nat)
    requires i < |order| && order[i] in entries && entries[order[i]].UnsupportedEntry?
    ensures !Attestable(entries, order)
  {
  }

  /** _tree_attestation: the loop over the sorted tree that feeds one hash. */
  method AttestTree(h: Hashing, tree: Tree) returns (attestation: Option<Attestation>)
    ensures attestation == Attest(h, tree)
  {
    if !PrivateRoot(tree) {
      return None;
    }
    var covered, order := Covered(tree), Order(tree);
    SortedPathsFacts(covered.Keys);
    assert forall i :: 0 <= i < |order| ==> order[i] in order;
    var fed, entries, totalBytes := "", 0, 0;
    while entries < |order|
      invariant 0 <= entries <= |order|
      invariant Attestable(covered, order[..entries])
      invariant fed == Terminated(Lines(h, covered, order[..entries]))
      invariant totalBytes == TotalBytes(h, covered, order[..entries])
    {
      var path := order[entries];
      var entry := covered[path];
      if entry.UnsupportedEntry? {
        UnsupportedNotAttestable(covered, order, entries);
        return None;
      }
      FeedOneMore(h, covered, order, entries);
      fed := fed + h.render(RecordOf(h, path, entry)) + "\n";
      totalBytes := totalBytes + FileBytes(h, entry);
      entries := entries + 1;
    }
    assert order[..entries] == order;
    return Some(Attestation(h.stream(fed), entries, totalBytes));
  }

  /** Two different streams with one digest. */
  ghost predicate StreamsCollide(h: Hashing, t: Tree, u: Tree) {
    && Attestable(Covered(t), Order(t)) && Attestable(Covered(u), Order(u))
    && Collide(h.stream, Stream(h, t), Stream(h, u))
  }

  ghost predicate ContentsCollide(h: Hashing, a: Entry, b: Entry) {
    a.FileEntry? && b.FileEntry? && Collide(h.digest, a.content, b.content)
  }

  /** The two trees exhibit a SHA-256 collision: their streams do, or two files at
      one path do. */
  ghost predicate AttestationCollision(h: Hashing, t: Tree, u: Tree) {
    || StreamsCollide(h, t, u)
    || exists p :: p in Covered(t) && p in Covered(u) && ContentsCollide(h, Covered(t)[p], Covered(u)[p])
  }

  lemma {:induction false} LinesOneLine(h: Hashing, entries: map<Path, Entry>, order: seq<Path>)
    requires CanonicalJson(h) && Attestable(entries, order)
    ensures forall i :: 0 <= i < |order| ==> OneLine(Lines(h, entries, order)[i])
  {
    if order != [] {
      LinesOneLine(h, entries, order[1..]);
    }
  }

  /** Equal streams list the same paths with the same entries. */
  lemma {:induction false} SameLinesSameEntries(
    h: Hashing, a: map<Path, Entry>, b: map<Path, Entry>, ka: seq<Path>, kb: seq<Path>)
    requires CanonicalJson(h) && Attestable(a, ka) && Attestable(b, kb)
    requires Lines(h, a, ka) == Lines(h, b, kb)
    ensures ka == kb
    ensures forall i :: 0 <= i < |ka| ==> a[ka[i]] == b[ka[i]] || ContentsCollide(h, a[ka[i]], b[ka[i]])
    decreases |ka|
  {
    if ka != [] {
      var la, lb := Lines(h, a, ka), Lines(h, b, kb);
      assert la[0] == lb[0] && la[1..] == Lines(h, a, ka[1..]) && lb[1..] == Lines(h, b, kb[1..]);
      assert RecordOf(h, ka[0], a[ka[0]]) == RecordOf(h, kb[0], b[kb[0]]);
      assert a[ka[0]] == b[kb[0]] || ContentsCollide(h, a[ka[0]], b[kb[0]]);
      SameLinesSameEntries(h, a, b, ka[1..], kb[1..]);
      assert ka == [ka[0]] + ka[1..] && kb == [kb[0]] + kb[1..];
    }
  }

  lemma CoveredDetermined(a: map<Path, Entry>, b: map<Path, Entry>, order: seq<Path>)
    requires forall p :: p in order <==> p in a
    requires forall p :: p in order <==> p in b
    requires forall i :: 0 <= i < |order| ==> order[i] in a && order[i] in b && a[order[i]] == b[order[i]]
    ensures a == b
  {
    forall p | p in a ensures p in b && a[p] == b[p] {
      assert p in order;
      var i :| 0 <= i < |order| && order[i] == p;
    }
  }

  /** The attestation binds a tree: another tree has the same attestation exactly
      when it has the same entries - path, type, mode, owner, link target, size and
      content - apart from the seal file, or the two trees exhibit a SHA-256
      collision. */
  lemma AttestationBindsTree(h: Hashing, t: Tree, u: Tree)
    requires CanonicalJson(h) && Attest(h, t).Some?
    ensures PrivateRoot(u) && Covered(u) == Covered(t) ==> Attest(h, u) == Attest(h, t)
    ensures Attest(h, u) == Attest(h, t) ==>
              PrivateRoot(u) && (Covered(u) == Covered(t) || AttestationCollision(h, t, u))
  {
    if Attest(h, u) == Attest(h, t) && !AttestationCollision(h, t, u) {
      assert Stream(h, t) == Stream(h, u);
      SameStreamSameEntries(h, t, u);
    }
  }

  lemma SameStreamSameEntries(h: Hashing, t: Tree, u: Tree)
    requires CanonicalJson(h) && !AttestationCollision(h, t, u)
    requires Attestable(Covered(t), Order(t)) && Attestable(Covered(u), Order(u)) && Stream(h, t) == Stream(h, u)
    ensures Covered(t) == Covered(u)
  {
    var a, b, ka, kb := Covered(t), Covered(u), Order(t), Order(u);
    var la, lb := Lines(h, a, ka), Lines(h, b, kb);
    LinesOneLine(h, a, ka);
    LinesOneLine(h, b, kb);
    TerminatedIsInjective(la, lb);
    SameLinesSameEntries(h, a, b, ka, kb);
    SortedPathsFacts(a.Keys);
    SortedPathsFacts(b.Keys);
    assert forall i :: 0 <= i < |ka| ==> ka[i] in ka;
    CoveredDetermined(a, b, ka);
  }
}
