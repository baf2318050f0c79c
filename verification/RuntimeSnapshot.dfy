/** Restoring a runtime snapshot into an empty environment: bounded chunk loops,
    exclusive creation, and nothing kept that was not verified. */
module RuntimeSnapshot {
  import opened Prelude
  import opened HashChain

  const MAX_SNAPSHOT_BYTES: nat := 4 * 1024 * 1024 * 1024
  const MAX_MEMBER_BYTES: nat := 1024 * 1024 * 1024

  /** One entry of the snapshot's manifest. The place is the parts of its path, None
      if the path is unsafe; a mode that does not parse is None. */
  datatype Item = Item(place: Option<seq<string>>, size: int, digest: Token, mode: Option<nat>) {
    function Path(): seq<string> {
      if place.Some? then place.value else []
    }
  }

  datatype Manifest = Manifest(items: seq<Item>, totalBytes: int)

  /** What one read of an archive member returns before its end. */
  type Chunk = s: string | s != "" witness "x"

  /** The reads of the i-th listed member; None if it cannot be opened. The archive
      may differ between inspection and restoring. */
  type Archive = nat -> Option<seq<Chunk>>

  datatype Installed = Installed(content: string, mode: nat)

  type Tree = map<seq<string>, Installed>

  function Content(chunks: seq<Chunk>): string {
    if chunks == [] then "" else Content(chunks[..|chunks| - 1]) + chunks[|chunks| - 1]
  }

  lemma {:induction false} ContentGrows(chunks: seq<Chunk>, k: nat)
    requires k <= |chunks|
    ensures |Content(chunks[..k])| <= |Content(chunks)|
  {
    if k < |chunks| {
      ContentGrows(chunks[..|chunks| - 1], k);
      assert chunks[..|chunks| - 1][..k] == chunks[..k];
    } else {
      assert chunks[..k] == chunks;
    }
  }

  /** The sum of the first k declared sizes. */
  function Total(items: seq<Item>, k: nat): int
    requires k <= |items|
  {
    if k == 0 then 0 else Total(items, k - 1) + items[k - 1].size
  }

  /** The path is there already, as a file or as a directory. */
  predicate Taken(tree: Tree, path: seq<string>) {
    path == [] || exists q :: q in tree && path <= q
  }

  /** A parent of the path is a file. */
  predicate BelowFile(tree: Tree, path: seq<string>) {
    exists q :: q in tree && q < path
  }

  /** The member holds what the manifest says. */
  predicate Matches(hash: string -> Token, item: Item, chunks: Option<seq<Chunk>>) {
    && 0 <= item.size <= MAX_MEMBER_BYTES
    && chunks.Some?
    && |Content(chunks.value)| == item.size
    && hash(Content(chunks.value)) == item.digest
  }

  predicate Acceptable(hash: string -> Token, tree: Tree, item: Item, chunks: Option<seq<Chunk>>, before: int) {
    && item.place.Some?
    && !Taken(tree, item.Path()) && !BelowFile(tree, item.Path())
    && Matches(hash, item, chunks)
    && before + item.size <= MAX_SNAPSHOT_BYTES
    && item.mode.Some?
  }

  /** The environment after one more item. */
  function RestoredOne(
    hash: string -> Token, tree: Tree, item: Item, chunks: Option<seq<Chunk>>, before: int): Option<Tree>
  {
    if Acceptable(hash, tree, item, chunks, before)
    then Some(tree[item.Path() := Installed(Content(chunks.value), item.mode.value)])
    else None
  }

  /** The environment after the first k items, if all of them are acceptable. */
  function RestoredFirst(hash: string -> Token, tree: Tree, items: seq<Item>, archive: Archive, k: nat): Option<Tree>
    requires k <= |items|
  {
    if k == 0 then Some(tree)
    else
      var before := RestoredFirst(hash, tree, items, archive, k - 1);
      if before.None? then None
      else RestoredOne(hash, before.value, items[k - 1], archive(k - 1), Total(items, k - 1))
  }

  /** The tree holds the first k items, and perhaps a remnant of the next one. */
  ghost predicate RestoredState(
    hash: string -> Token, start: Tree, items: seq<Item>, archive: Archive, k: nat, tree: Tree, left: bool)
  {
    && k <= |items| && RestoredFirst(hash, start, items, archive, k).Some?
    && var restored := RestoredFirst(hash, start, items, archive, k).value;
       if left then k < |items| && tree - {items[k].Path()} == restored else tree == restored
  }

  lemma RestoredStep(
    hash: string -> Token, start: Tree, items: seq<Item>, archive: Archive, k: nat, before: Tree, after: Tree,
    ok: bool, left: bool)
    requires RestoredState(hash, start, items, archive, k, before, false) && k < |items|
    requires ok ==> RestoredOne(hash, before, items[k], archive(k), Total(items, k)) == Some(after)
    requires !ok ==> if left then after - {items[k].Path()} == before else after == before
    ensures ok ==> RestoredState(hash, start, items, archive, k + 1, after, false)
    ensures !ok ==> RestoredState(hash, start, items, archive, k, after, left)
  {
  }

  lemma NextRestored(
    hash: string -> Token, start: Tree, tree: Tree, items: seq<Item>, archive: Archive, k: nat, next: nat, before: nat)
    requires k < |items| && next == k + 1 && before == Total(items, k)
    requires RestoredFirst(hash, start, items, archive, k) == Some(tree)
    requires RestoredFirst(hash, start, items, archive, next).Some?
    ensures RestoredFirst(hash, start, items, archive, next)
            == RestoredOne(hash, tree, items[k], archive(k), before)
    ensures Total(items, next) == before + items[k].size >= 0
  {
  }

  /** Each of the first k items is installed, verified, under a path that was free. */
  ghost predicate InstalledAt(
    hash: string -> Token, before: Tree, after: Tree, items: seq<Item>, archive: Archive, i: nat)
  {
    && i < |items|
    && Matches(hash, items[i], archive(i)) && items[i].mode.Some?
    && items[i].Path() !in before
    && items[i].Path() in after
    && after[items[i].Path()] == Installed(Content(archive(i).value), items[i].mode.value)
  }

  /** Nothing that was there is overwritten, and the bytes stay within the limit. */
  lemma {:induction false} RestoredKeeps(hash: string -> Token, tree: Tree, items: seq<Item>, archive: Archive, k: nat)
    requires k <= |items| && RestoredFirst(hash, tree, items, archive, k).Some?
    ensures forall q :: q in tree ==>
              && q in RestoredFirst(hash, tree, items, archive, k).value
              && RestoredFirst(hash, tree, items, archive, k).value[q] == tree[q]
    ensures 0 <= Total(items, k) <= MAX_SNAPSHOT_BYTES
  {
    if k > 0 {
      RestoredKeeps(hash, tree, items, archive, k - 1);
    }
  }

  /** Every listed path was free and is installed with its declared size and digest. */
  lemma {:induction false} RestoredAt(
    hash: string -> Token, tree: Tree, items: seq<Item>, archive: Archive, k: nat, i: nat)
    requires i < k <= |items| && RestoredFirst(hash, tree, items, archive, k).Some?
    ensures InstalledAt(hash, tree, RestoredFirst(hash, tree, items, archive, k).value, items, archive, i)
  {
    var before := RestoredFirst(hash, tree, items, archive, k - 1).value;
    if i < k - 1 {
      RestoredAt(hash, tree, items, archive, k - 1, i);
      assert items[k - 1].Path() !in before;
    } else {
      RestoredKeeps(hash, tree, items, archive, k - 1);
    }
  }

  /** Nothing but the listed paths appears. */
  lemma {:induction false} RestoredOnly(
    hash: string -> Token, tree: Tree, items: seq<Item>, archive: Archive, k: nat, q: seq<string>)
    requires k <= |items| && RestoredFirst(hash, tree, items, archive, k).Some?
    requires q in RestoredFirst(hash, tree, items, archive, k).value && q !in tree
    ensures exists i :: 0 <= i < k && q == items[i].Path()
  {
    if k > 0 && q != items[k - 1].Path() {
      RestoredOnly(hash, tree, items, archive, k - 1, q);
    }
  }

  /** What restoring means: every manifest path is written exactly once, with the
      declared size and digest; nothing that was there is overwritten; nothing else
      appears; and the bytes stay within the limit. */
  lemma RestoredMeans(hash: string -> Token, tree: Tree, items: seq<Item>, archive: Archive, k: nat)
    requires k <= |items| && RestoredFirst(hash, tree, items, archive, k).Some?
    ensures var after := RestoredFirst(hash, tree, items, archive, k).value;
            && (forall i: nat {:trigger InstalledAt(hash, tree, after, items, archive, i)} :: i < k ==>
                  InstalledAt(hash, tree, after, items, archive, i))
            && (forall q :: q in tree ==> q in after && after[q] == tree[q])
            && (forall q :: q in after && q !in tree ==> exists i :: 0 <= i < k && q == items[i].Path())
            && 0 <= Total(items, k) <= MAX_SNAPSHOT_BYTES
  {
    RestoredKeeps(hash, tree, items, archive, k);
    var after := RestoredFirst(hash, tree, items, archive, k).value;
    forall i: nat | i < k ensures InstalledAt(hash, tree, after, items, archive, i) {
      RestoredAt(hash, tree, items, archive, k, i);
    }
    forall q | q in after && q !in tree ensures exists i :: 0 <= i < k && q == items[i].Path() {
      RestoredOnly(hash, tree, items, archive, k, q);
    }
  }

  predicate InspectedAt(hash: string -> Token, items: seq<Item>, archive: Archive, i: nat) {
    i < |items| && items[i].place.Some? && Matches(hash, items[i], archive(i))
  }

  ghost predicate InspectedFirst(hash: string -> Token, items: seq<Item>, archive: Archive, n: nat) {
    forall i: nat {:trigger InspectedAt(hash, items, archive, i)} :: i < n ==> InspectedAt(hash, items, archive, i)
  }

  /** inspect_snapshot's loop over the listed files. */
  ghost predicate Inspected(hash: string -> Token, manifest: Manifest, archive: Archive) {
    && manifest.items != []
    && InspectedFirst(hash, manifest.items, archive, |manifest.items|)
    && Total(manifest.items, |manifest.items|) == manifest.totalBytes <= MAX_SNAPSHOT_BYTES
  }

  /** _stream_digest: count and hash chunk by chunk, up to a limit. */
  method StreamDigest(hash: string -> Token, chunks: seq<Chunk>, maximum: nat) returns (read: Option<(nat, Token)>)
    ensures read == if |Content(chunks)| <= maximum then Some((|Content(chunks)|, hash(Content(chunks)))) else None
  {
    var seen := "";
    for i := 0 to |chunks|
      invariant seen == Content(chunks[..i]) && |seen| <= maximum
    {
      assert chunks[..i + 1][..i] == chunks[..i];
      seen := seen + chunks[i];
      if |seen| > maximum {
        ContentGrows(chunks, i + 1);
        return None;
      }
    }
    assert chunks[..|chunks|] == chunks;
    return Some((|seen|, hash(seen)));
  }

  /** One listed file: a safe path, and a member of the declared size and digest. */
  method InspectMember(hash: string -> Token, item: Item, member: Option<seq<Chunk>>) returns (ok: bool)
    ensures ok <==> item.place.Some? && Matches(hash, item, member)
  {
    if item.place.None? || member.None? {
      return false;
    }
    var read := StreamDigest(hash, member.value, MAX_MEMBER_BYTES);
    return read.Some? && read.value.0 == item.size && read.value.1 == item.digest;
  }

  method InspectSnapshot(hash: string -> Token, manifest: Manifest, archive: Archive) returns (ok: bool)
    ensures ok <==> Inspected(hash, manifest, archive)
  {
    var total := 0;
    for i := 0 to |manifest.items|
      invariant total == Total(manifest.items, i) <= MAX_SNAPSHOT_BYTES
      invariant InspectedFirst(hash, manifest.items, archive, i)
    {
      var item := manifest.items[i];
      var matches := InspectMember(hash, item, archive(i));
      assert matches <==> InspectedAt(hash, manifest.items, archive, i);
      if !matches {
        return false;
      }
      total := total + item.size;
      if total > MAX_SNAPSHOT_BYTES {
        TotalsGrow(hash, manifest.items, archive, i + 1, |manifest.items|);
        return false;
      }
    }
    return manifest.items != [] && total == manifest.totalBytes;
  }

  lemma {:induction false} TotalsGrow(hash: string -> Token, items: seq<Item>, archive: Archive, k: nat, n: nat)
    requires k <= n <= |items|
    ensures InspectedFirst(hash, items, archive, n) ==> Total(items, k) <= Total(items, n)
  {
    if k < n && InspectedFirst(hash, items, archive, n) {
      assert InspectedAt(hash, items, archive, n - 1);
      TotalsGrow(hash, items, archive, k, n - 1);
    }
  }

  /** The listed paths can coexist with each other and with what is there. */
  ghost predicate NoConflict(tree: Tree, items: seq<Item>) {
    && (forall i :: 0 <= i < |items| ==> FreeOf(tree, items[i].Path()))
    && (forall i: nat, j: nat {:trigger Apart(items, i, j)} :: i < |items| && j < |items| && i != j ==>
          Apart(items, i, j))
  }

  predicate Apart(items: seq<Item>, i: nat, j: nat) {
    i < |items| && j < |items| && !(items[i].Path() <= items[j].Path())
  }

  ghost predicate FreeOf(tree: Tree, path: seq<string>) {
    path != [] && forall q :: q in tree ==> !(path <= q) && !(q <= path)
  }

  /** After the first k items the next path is still free. */
  lemma StillFree(hash: string -> Token, tree: Tree, items: seq<Item>, archive: Archive, k: nat)
    requires k < |items| && NoConflict(tree, items) && RestoredFirst(hash, tree, items, archive, k).Some?
    ensures var before, path := RestoredFirst(hash, tree, items, archive, k).value, items[k].Path();
            !Taken(before, path) && !BelowFile(before, path)
  {
    var before, path := RestoredFirst(hash, tree, items, archive, k).value, items[k].Path();
    assert FreeOf(tree, path);
    forall q | q in before ensures !(path <= q) && !(q < path) {
      if q !in tree {
        RestoredOnly(hash, tree, items, archive, k, q);
        var i :| 0 <= i < k && q == items[i].Path();
        assert Apart(items, i, k) && Apart(items, k, i);
      }
    }
  }

  lemma InspectedAcceptable(hash: string -> Token, before: Tree, manifest: Manifest, archive: Archive, i: nat)
    requires Inspected(hash, manifest, archive) && i < |manifest.items| && manifest.items[i].mode.Some?
    requires !Taken(before, manifest.items[i].Path()) && !BelowFile(before, manifest.items[i].Path())
    ensures Acceptable(hash, before, manifest.items[i], archive(i), Total(manifest.items, i))
  {
    assert InspectedAt(hash, manifest.items, archive, i);
    TotalsGrow(hash, manifest.items, archive, i + 1, |manifest.items|);
  }

  lemma InspectedNext(
    hash: string -> Token, tree: Tree, manifest: Manifest, archive: Archive, k: nat, next: nat)
    requires Inspected(hash, manifest, archive) && k < |manifest.items| && next == k + 1
    requires NoConflict(tree, manifest.items) && AllModes(manifest.items)
    requires RestoredFirst(hash, tree, manifest.items, archive, k).Some?
    ensures RestoredFirst(hash, tree, manifest.items, archive, next).Some?
  {
    StillFree(hash, tree, manifest.items, archive, k);
    InspectedAcceptable(hash, RestoredFirst(hash, tree, manifest.items, archive, k).value, manifest, archive, k);
  }

  lemma {:induction false} InspectedRestoresFirst(
    hash: string -> Token, tree: Tree, manifest: Manifest, archive: Archive, k: nat)
    requires Inspected(hash, manifest, archive) && k <= |manifest.items|
    requires NoConflict(tree, manifest.items) && AllModes(manifest.items)
    ensures RestoredFirst(hash, tree, manifest.items, archive, k).Some?
  {
    if k > 0 {
      InspectedRestoresFirst(hash, tree, manifest, archive, k - 1);
      InspectedNext(hash, tree, manifest, archive, k - 1, k);
    }
  }

  lemma {:induction false} NoneLater(
    hash: string -> Token, tree: Tree, items: seq<Item>, archive: Archive, k: nat, n: nat)
    requires k <= n <= |items|
    ensures RestoredFirst(hash, tree, items, archive, k).None? ==> RestoredFirst(hash, tree, items, archive, n).None?
  {
    if k < n {
      NoneLater(hash, tree, items, archive, k, n - 1);
    }
  }

  predicate AllModes(items: seq<Item>) {
    forall i :: 0 <= i < |items| ==> items[i].mode.Some?
  }

  /** Where everything was restored, each item had been acceptable in its turn. */
  lemma RestoredWasAcceptable(hash: string -> Token, tree: Tree, items: seq<Item>, archive: Archive, i: nat)
    requires i < |items| && RestoredFirst(hash, tree, items, archive, |items|).Some?
    ensures RestoredFirst(hash, tree, items, archive, i).Some?
    ensures Acceptable(
              hash, RestoredFirst(hash, tree, items, archive, i).value, items[i], archive(i), Total(items, i))
  {
    NoneLater(hash, tree, items, archive, i, |items|);
    NoneLater(hash, tree, items, archive, i + 1, |items|);
  }

  lemma RestoredWasFree(hash: string -> Token, tree: Tree, items: seq<Item>, archive: Archive, i: nat)
    requires i < |items| && RestoredFirst(hash, tree, items, archive, |items|).Some?
    ensures FreeOf(tree, items[i].Path()) && items[i].mode.Some?
  {
    RestoredWasAcceptable(hash, tree, items, archive, i);
    RestoredKeeps(hash, tree, items, archive, i);
  }

  lemma RestoredWasApart(hash: string -> Token, tree: Tree, items: seq<Item>, archive: Archive, i: nat, j: nat)
    requires i < j < |items| && RestoredFirst(hash, tree, items, archive, |items|).Some?
    ensures Apart(items, i, j) && Apart(items, j, i)
  {
    RestoredWasAcceptable(hash, tree, items, archive, j);
    RestoredAt(hash, tree, items, archive, j, i);
  }

  /** A snapshot that passed inspection and does not change restores completely if
      and only if its paths conflict neither with each other nor with what is there,
      and all modes parse - none of which inspection looks at. */
  lemma InspectedRestores(hash: string -> Token, tree: Tree, manifest: Manifest, archive: Archive)
    requires Inspected(hash, manifest, archive)
    ensures RestoredFirst(hash, tree, manifest.items, archive, |manifest.items|).Some? <==>
              NoConflict(tree, manifest.items) && AllModes(manifest.items)
  {
    var items := manifest.items;
    if RestoredFirst(hash, tree, items, archive, |items|).Some? {
      forall i: nat | i < |items| ensures FreeOf(tree, items[i].Path()) && items[i].mode.Some? {
        RestoredWasFree(hash, tree, items, archive, i);
      }
      forall i: nat, j: nat | i < |items| && j < |items| && i != j ensures Apart(items, i, j) {
        if i < j {
          RestoredWasApart(hash, tree, items, archive, i, j);
        } else {
          RestoredWasApart(hash, tree, items, archive, j, i);
        }
      }
    }
    if NoConflict(tree, items) && AllModes(items) {
      InspectedRestoresFirst(hash, tree, manifest, archive, |items|);
    }
  }

  /** A manifest that lists one path twice, with the same file, passes inspection,
      which compares only sets of names, and restores into no environment. */
  lemma RepeatedPathNeverRestores(
    hash: string -> Token, tree: Tree, path: seq<string>, mode: nat, chunks: seq<Chunk>)
    requires |Content(chunks)| <= MAX_MEMBER_BYTES
    ensures var item := Item(Some(path), |Content(chunks)|, hash(Content(chunks)), Some(mode));
            var archive: Archive := (i: nat) => Some(chunks);
            && Inspected(hash, Manifest([item, item], 2 * item.size), archive)
            && RestoredFirst(hash, tree, [item, item], archive, 2).None?
  {
    var item := Item(Some(path), |Content(chunks)|, hash(Content(chunks)), Some(mode));
    var archive: Archive := (i: nat) => Some(chunks);
    var items := [item, item];
    assert Total(items, 1) == Total(items, 0) + items[0].size && Total(items, 2) == Total(items, 1) + items[1].size;
    assert Inspected(hash, Manifest(items, 2 * item.size), archive);
    InspectedRestores(hash, tree, Manifest(items, 2 * item.size), archive);
    assert !Apart(items, 0, 1);
  }

  /** Whether some operations succeed, and the operation after them. */
  datatype StepsEnd = StepsEnd(ok: bool, operation: nat)

  /** The same of one file, and whether it is left behind. */
  datatype MemberEnd = MemberEnd(ok: bool, left: bool, operation: nat)

  /** Where the outer loop stops. */
  datatype ItemsEnd = ItemsEnd(ok: bool, restored: nat, left: bool)

  /** The environment's package directory. Any step may fail. */
  class SitePackages {
    var tree: Tree
    var operations: nat
    ghost var written: nat
    const fails: nat -> bool

    constructor (tree: Tree, fails: nat -> bool)
      ensures this.tree == tree && operations == 0 && written == 0 && this.fails == fails
    {
      this.tree := tree;
      this.fails := fails;
      operations, written := 0, 0;
    }

    /** The inner loop from the k-th chunk on: a limit or a failing write stops it. */
    function ChunkSteps(chunks: seq<Chunk>, k: nat, copied: nat, size: int, before: nat, operation: nat): StepsEnd
      requires k <= |chunks|
      decreases |chunks| - k
    {
      if k == |chunks| then StepsEnd(true, operation)
      else
        var more := copied + |chunks[k]|;
        if more > size || more > MAX_MEMBER_BYTES || before + more > MAX_SNAPSHOT_BYTES then
          StepsEnd(false, operation)
        else if fails(operation) then StepsEnd(false, operation + 1)
        else ChunkSteps(chunks, k + 1, more, size, before, operation + 1)
    }

    /** One file from its exclusive creation on. Whatever stops it after that, the
        file is unlinked, and left behind only if the unlink fails. */
    function CreationSteps(
      hash: string -> Token, tree: Tree, item: Item, chunks: seq<Chunk>, before: nat, operation: nat): MemberEnd
    {
      if fails(operation) || BelowFile(tree, item.Path()) then MemberEnd(false, false, operation + 1)
      else
        var filled := ChunkSteps(chunks, 0, 0, item.size, before, operation + 1);
        var good := filled.ok && Matches(hash, item, Some(chunks)) && item.mode.Some?;
        var next := if good then filled.operation + 1 else filled.operation;
        if good && !fails(filled.operation) then MemberEnd(true, false, next)
        else MemberEnd(false, fails(next), next + 1)
    }

    function MemberSteps(
      hash: string -> Token, tree: Tree, item: Item, member: Option<seq<Chunk>>, before: nat, operation: nat)
      : MemberEnd
    {
      if item.place.Some? && !Taken(tree, item.Path()) && 0 <= item.size <= MAX_MEMBER_BYTES && member.Some?
      then CreationSteps(hash, tree, item, member.value, before, operation)
      else MemberEnd(false, false, operation)
    }

    /** The outer loop from the k-th item on. */
    function ItemsSteps(
      hash: string -> Token, tree: Tree, items: seq<Item>, archive: Archive, k: nat, before: nat, operation: nat)
      : ItemsEnd
      requires k <= |items|
      decreases |items| - k
    {
      if k == |items| then ItemsEnd(true, k, false)
      else
        var member := MemberSteps(hash, tree, items[k], archive(k), before, operation);
        var restored := RestoredOne(hash, tree, items[k], archive(k), before);
        if !member.ok || restored.None? then ItemsEnd(false, k, member.left)
        else ItemsSteps(hash, restored.value, items, archive, k + 1, before + items[k].size, member.operation)
    }

    lemma {:induction false} ReliableChunks(chunks: seq<Chunk>, k: nat, size: int, before: nat, operation: nat)
      requires Reliable(fails) && k <= |chunks| && size <= MAX_MEMBER_BYTES
      requires |Content(chunks)| <= size && before + |Content(chunks)| <= MAX_SNAPSHOT_BYTES
      ensures ChunkSteps(chunks, k, |Content(chunks[..k])|, size, before, operation).ok
      decreases |chunks| - k
    {
      if k < |chunks| {
        assert chunks[..k + 1][..k] == chunks[..k];
        ContentGrows(chunks, k + 1);
        ReliableChunks(chunks, k + 1, size, before, operation + 1);
      }
    }

    /** When nothing fails, the archive and the paths alone decide, and no file is left. */
    lemma ReliableMember(
      hash: string -> Token, tree: Tree, item: Item, member: Option<seq<Chunk>>, before: nat, operation: nat)
      requires Reliable(fails)
      ensures var end := MemberSteps(hash, tree, item, member, before, operation);
              !end.left && (RestoredOne(hash, tree, item, member, before).Some? ==> end.ok)
    {
      if Acceptable(hash, tree, item, member, before) {
        assert member.value[..0] == [];
        ReliableChunks(member.value, 0, item.size, before, operation + 1);
      }
    }

    lemma {:induction false} NothingLeft(
      hash: string -> Token, tree: Tree, items: seq<Item>, archive: Archive, k: nat, before: nat, operation: nat)
      requires Reliable(fails) && k <= |items|
      ensures !ItemsSteps(hash, tree, items, archive, k, before, operation).left
      decreases |items| - k
    {
      if k < |items| {
        ReliableMember(hash, tree, items[k], archive(k), before, operation);
        var member := MemberSteps(hash, tree, items[k], archive(k), before, operation);
        var restored := RestoredOne(hash, tree, items[k], archive(k), before);
        if member.ok && restored.Some? {
          NothingLeft(hash, restored.value, items, archive, k + 1, before + items[k].size, member.operation);
        }
      }
    }

    lemma ItemsStep(
      hash: string -> Token, tree: Tree, items: seq<Item>, archive: Archive, k: nat, next: nat, before: nat,
      total: nat, operation: nat)
      requires k < |items| && next == k + 1
      requires MemberSteps(hash, tree, items[k], archive(k), before, operation).ok
      requires RestoredOne(hash, tree, items[k], archive(k), before).Some? && total == before + items[k].size
      ensures ItemsSteps(hash, tree, items, archive, k, before, operation)
              == ItemsSteps(
                   hash, RestoredOne(hash, tree, items[k], archive(k), before).value, items, archive, next, total,
                   MemberSteps(hash, tree, items[k], archive(k), before, operation).operation)
    {
    }

    lemma {:induction false} ReliableItems(
      hash: string -> Token, start: Tree, tree: Tree, items: seq<Item>, archive: Archive, k: nat, before: nat,
      operation: nat)
      requires Reliable(fails) && k <= |items| && before == Total(items, k)
      requires RestoredFirst(hash, start, items, archive, k) == Some(tree)
      requires RestoredFirst(hash, start, items, archive, |items|).Some?
      ensures ItemsSteps(hash, tree, items, archive, k, before, operation).ok
      decreases |items| - k
    {
      if k < |items| {
        var next, total := k + 1, before + items[k].size;
        NoneLater(hash, start, items, archive, next, |items|);
        NextRestored(hash, start, tree, items, archive, k, next, before);
        ReliableMember(hash, tree, items[k], archive(k), before, operation);
        var restored := RestoredOne(hash, tree, items[k], archive(k), before).value;
        var member := MemberSteps(hash, tree, items[k], archive(k), before, operation);
        ReliableItems(hash, start, restored, items, archive, next, total, member.operation);
        ItemsStep(hash, tree, items, archive, k, next, before, total, operation);
      }
    }

    /** Create the parents and open the file exclusively. */
    method Create(path: seq<string>) returns (ok: bool)
      modifies this
      ensures written == old(written) && operations == old(operations) + 1
      ensures ok <==> !fails(old(operations)) && !Taken(old(tree), path) && !BelowFile(old(tree), path)
      ensures tree == if ok then old(tree)[path := Installed("", 0)] else old(tree)
    {
      ok := !fails(operations) && !Taken(tree, path) && !BelowFile(tree, path);
      if ok {
        tree := tree[path := Installed("", 0)];
      }
      operations := operations + 1;
    }

    /** Write one chunk. The limits are a precondition: no write ever exceeds them. */
    method WriteChunk(path: seq<string>, chunk: Chunk) returns (ok: bool)
      requires path in tree
      requires |tree[path].content| + |chunk| <= MAX_MEMBER_BYTES
      requires written + |chunk| <= MAX_SNAPSHOT_BYTES
      modifies this
      ensures operations == old(operations) + 1 && written == old(written) + |chunk|
      ensures ok <==> !fails(old(operations))
      ensures tree == if ok then old(tree)[path := Installed(old(tree)[path].content + chunk, old(tree)[path].mode)]
                      else old(tree)
    {
      ok := !fails(operations);
      if ok {
        tree := tree[path := Installed(tree[path].content + chunk, tree[path].mode)];
      }
      written := written + |chunk|;
      operations := operations + 1;
    }

    method SetMode(path: seq<string>, mode: nat) returns (ok: bool)
      requires path in tree
      modifies this
      ensures operations == old(operations) + 1 && written == old(written)
      ensures ok <==> !fails(old(operations))
      ensures tree == if ok then old(tree)[path := Installed(old(tree)[path].content, mode)] else old(tree)
    {
      ok := !fails(operations);
      if ok {
        tree := tree[path := Installed(tree[path].content, mode)];
      }
      operations := operations + 1;
    }

    method Unlink(path: seq<string>) returns (ok: bool)
      modifies this
      ensures operations == old(operations) + 1 && written == old(written)
      ensures ok <==> !fails(old(operations))
      ensures tree == if ok then old(tree) - {path} else old(tree)
    {
      ok := !fails(operations);
      if ok {
        tree := tree - {path};
      }
      operations := operations + 1;
    }

    /** The inner loop: read, check both limits, write. */
    method WriteMember(path: seq<string>, size: nat, chunks: seq<Chunk>, before: nat)
      returns (ok: bool, copied: nat, content: string)
      requires path in tree && tree[path].content == "" && size <= MAX_MEMBER_BYTES && written == before
      requires before <= MAX_SNAPSHOT_BYTES
      modifies this
      ensures path in tree && tree - {path} == old(tree) - {path} && written >= before
      ensures ok ==>
                && content == Content(chunks) && copied == |content| && written == before + copied
                && tree[path] == Installed(content, old(tree)[path].mode)
                && copied <= size && before + copied <= MAX_SNAPSHOT_BYTES
      ensures StepsEnd(ok, operations) == ChunkSteps(chunks, 0, 0, size, before, old(operations))
    {
      ok, copied, content := true, 0, "";
      var i := 0;
      while ok && i < |chunks|
        invariant i <= |chunks| && path in tree && tree - {path} == old(tree) - {path}
        invariant written >= before
        invariant ok ==>
                    && content == Content(chunks[..i]) && copied == |content| && written == before + copied
                    && tree[path] == Installed(content, old(tree)[path].mode)
                    && copied <= size && before + copied <= MAX_SNAPSHOT_BYTES
        invariant ChunkSteps(chunks, 0, 0, size, before, old(operations))
                  == if ok then ChunkSteps(chunks, i, copied, size, before, operations)
                     else StepsEnd(false, operations)
        decreases |chunks| - i, ok
      {
        var chunk := chunks[i];
        assert chunks[..i + 1][..i] == chunks[..i];
        ContentGrows(chunks, i + 1);
        copied := copied + |chunk|;
        ok := copied <= size && copied <= MAX_MEMBER_BYTES && before + copied <= MAX_SNAPSHOT_BYTES;
        if ok {
          content := content + chunk;
          ok := WriteChunk(path, chunk);
          i := i + 1;
        }
      }
      assert i == |chunks| ==> chunks[..i] == chunks;
    }

    /** One file: create it exclusively, fill it, compare size and digest, set its
        mode - or unlink it again. `left` tells whether the unlink failed. */
    method RestoreMember(hash: string -> Token, item: Item, member: Option<seq<Chunk>>, before: nat)
      returns (ok: bool, left: bool, size: nat)
      requires before <= MAX_SNAPSHOT_BYTES && written == before
      modifies this
      ensures ok ==>
                && RestoredOne(hash, old(tree), item, member, before) == Some(tree)
                && !left && size == item.size && written == before + size <= MAX_SNAPSHOT_BYTES
      ensures !ok ==> if left then tree - {item.Path()} == old(tree) else tree == old(tree)
      ensures MemberEnd(ok, left, operations)
              == MemberSteps(hash, old(tree), item, member, before, old(operations))
    {
      ok, left, size := false, false, 0;
      if item.place.Some? && !Taken(tree, item.Path()) && 0 <= item.size <= MAX_MEMBER_BYTES && member.Some? {
        ok, left, size := CreateMember(hash, item, member.value, before);
        if ok {
          assert Acceptable(hash, old(tree), item, member, before);
        }
      }
    }

    /** From the exclusive creation on. */
    method CreateMember(hash: string -> Token, item: Item, chunks: seq<Chunk>, before: nat)
      returns (ok: bool, left: bool, size: nat)
      requires before <= MAX_SNAPSHOT_BYTES && written == before
      requires !Taken(tree, item.Path()) && 0 <= item.size <= MAX_MEMBER_BYTES
      modifies this
      ensures ok ==>
                && !BelowFile(old(tree), item.Path()) && Matches(hash, item, Some(chunks)) && item.mode.Some?
                && tree == old(tree)[item.Path() := Installed(Content(chunks), item.mode.value)]
                && !left && size == item.size && written == before + size <= MAX_SNAPSHOT_BYTES
      ensures !ok ==> if left then tree - {item.Path()} == old(tree) else tree == old(tree)
      ensures MemberEnd(ok, left, operations)
              == CreationSteps(hash, old(tree), item, chunks, before, old(operations))
    {
      left, size := false, 0;
      ghost var start := tree;
      ok := Create(item.Path());
      if ok {
        var path := item.Path();
        assert path !in start && tree - {path} == start;
        var content;
        ok, size, content := WriteMember(path, item.size, chunks, before);
        ok := ok && size == item.size && hash(content) == item.digest && item.mode.Some?;
        if ok {
          ok := SetMode(path, item.mode.value);
        }
        assert tree - {path} == start;
        if ok {
          assert tree == start[path := tree[path]];
        } else {
          var gone := Unlink(path);
          left := !gone;
        }
      }
    }

    /** restore_snapshot. Success installs exactly the manifest. Failure leaves a
        verified prefix of it, and nothing of the file it failed at unless removing
        that file failed. */
    method RestoreSnapshot(hash: string -> Token, manifest: Manifest, inspected: Archive, archive: Archive)
      returns (ok: bool, restored: nat, left: bool)
      requires written == 0
      modifies this
      ensures RestoredState(hash, old(tree), manifest.items, archive, restored, tree, left)
      ensures ok ==>
                && Inspected(hash, manifest, inspected) && restored == |manifest.items| && !left
                && Total(manifest.items, restored) == manifest.totalBytes
      // The inspection, and then the steps of the outer loop, decide.
      ensures ItemsEnd(ok, restored, left)
              == if Inspected(hash, manifest, inspected)
                 then ItemsSteps(hash, old(tree), manifest.items, archive, 0, 0, old(operations))
                 else ItemsEnd(false, 0, false)
    {
      restored, left := 0, false;
      ok := InspectSnapshot(hash, manifest, inspected);
      if ok {
        var restoredBytes;
        ok, restored, left, restoredBytes := RestoreItems(hash, manifest.items, archive);
        ok := ok && restoredBytes == manifest.totalBytes;
      }
    }

    /** One turn of the outer loop. */
    method RestoreNext(
      hash: string -> Token, items: seq<Item>, archive: Archive, ghost start: Tree, k: nat, before: nat)
      returns (ok: bool, left: bool, after: nat)
      requires k < |items| && before == Total(items, k) <= MAX_SNAPSHOT_BYTES && written == before
      requires RestoredState(hash, start, items, archive, k, tree, false)
      modifies this
      ensures ok ==>
                && !left && RestoredState(hash, start, items, archive, k + 1, tree, false)
                && after == Total(items, k + 1) <= MAX_SNAPSHOT_BYTES && written == after
      ensures !ok ==> RestoredState(hash, start, items, archive, k, tree, left)
      ensures ItemsSteps(hash, old(tree), items, archive, k, before, old(operations))
              == if ok then ItemsSteps(hash, tree, items, archive, k + 1, after, operations)
                 else ItemsEnd(false, k, left)
    {
      ghost var earlier := tree;
      var size;
      ok, left, size := RestoreMember(hash, items[k], archive(k), before);
      RestoredStep(hash, start, items, archive, k, earlier, tree, ok, left);
      after := if ok then before + size else before;
      if ok {
        ItemsStep(hash, earlier, items, archive, k, k + 1, before, after, old(operations));
      }
    }

    /** The outer loop. */
    method RestoreItems(hash: string -> Token, items: seq<Item>, archive: Archive)
      returns (ok: bool, restored: nat, left: bool, restoredBytes: nat)
      requires written == 0
      modifies this
      ensures restored <= |items| && (ok <==> restored == |items|) && (ok ==> !left)
      ensures RestoredState(hash, old(tree), items, archive, restored, tree, left)
      ensures ok ==> restoredBytes == Total(items, |items|)
      ensures ItemsEnd(ok, restored, left) == ItemsSteps(hash, old(tree), items, archive, 0, 0, old(operations))
    {
      ghost var start := tree;
      ok, restored, left, restoredBytes := true, 0, false, 0;
      while ok && restored < |items|
        invariant restored <= |items| && (!ok ==> restored < |items|)
        invariant RestoredState(hash, start, items, archive, restored, tree, left)
        invariant ok ==> !left && restoredBytes == Total(items, restored) <= MAX_SNAPSHOT_BYTES
        invariant ok ==> written == restoredBytes
        invariant ItemsSteps(hash, start, items, archive, 0, 0, old(operations))
                  == if ok then ItemsSteps(hash, tree, items, archive, restored, restoredBytes, operations)
                     else ItemsEnd(false, restored, left)
        decreases |items| - restored, ok
      {
        ok, left, restoredBytes := RestoreNext(hash, items, archive, start, restored, restoredBytes);
        if ok {
          restored := restored + 1;
        }
      }
    }
  }
}
