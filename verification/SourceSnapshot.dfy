/** Attesting a public source tree against its manifest, and copying it into a
    private snapshot while the source may change under the copier. */
module SourceSnapshot {
  import opened Prelude
  import opened HashChain
  import opened Ordering
  import opened TextLines
  import opened PayloadManifest

  /** Reading a regular, unlinked, in-tree file by its relative path at some moment;
      None if there is no such file then. */
  type Source = (nat, string) -> Option<string>

  /** SHA-256, UTF-8 decoding of a manifest, reading a version text, and the paths of
      these two files, SHA256SUMS.txt and VERSION. */
  datatype Probe = Probe(
    hash: string -> Token, decode: string -> Option<string>, version: string -> Option<string>,
    manifestPath: string, versionPath: string)

  datatype Identity = Identity(version: string, manifest: Token, entryCount: nat, tree: Token)

  function NonBlank(lines: seq<string>): seq<string> {
    if lines == [] then []
    else NonBlank(lines[..|lines| - 1]) + (if lines[|lines| - 1] == "" then [] else [lines[|lines| - 1]])
  }

  /** read_public_manifest: blank lines are skipped, an empty manifest is an error. */
  function PublicManifest(text: string): Option<map<string, Token>> {
    var entries := Listing(ReadLine, NonBlank(SplitLines(TextSplitting, text)));
    if entries.Some? && entries.value != map[] then entries else None
  }

  /** What one more line does. */
  lemma NextLine(read: string -> Option<Item>, lines: seq<string>, line: string, found: map<string, Token>)
    requires Listing(read, NonBlank(lines)) == Some(found)
    ensures Listing(read, NonBlank(lines + [line])) ==
            if line == "" then Some(found)
            else if read(line).Some? && read(line).value.path !in found
            then Some(found[read(line).value.path := read(line).value.digest])
            else None
  {
    var kept := NonBlank(lines);
    assert (lines + [line])[..|lines|] == lines;
    assert (kept + [line])[..|kept|] == kept && kept + [] == kept;
  }

  method ReadPublicManifest(text: string) returns (entries: Option<map<string, Token>>)
    ensures entries == PublicManifest(text)
  {
    var lines := SplitLines(TextSplitting, text);
    var found: map<string, Token> := map[];
    for number := 0 to |lines|
      invariant Listing(ReadLine, NonBlank(lines[..number])) == Some(found)
    {
      var line := lines[number];
      assert lines[..number + 1] == lines[..number] + [line];
      NextLine(ReadLine, lines[..number], line, found);
      if line != "" {
        var item := ReadLine(line);
        if item.None? || item.value.path in found {
          NeverRecovers(lines, number + 1);
          return None;
        }
        found := found[item.value.path := item.value.digest];
      }
    }
    assert lines[..|lines|] == lines;
    return if found == map[] then None else Some(found);
  }

  /** One bad line makes the whole manifest unreadable. */
  lemma {:induction false} NeverRecovers(lines: seq<string>, k: nat)
    requires k <= |lines| && Listing(ReadLine, NonBlank(lines[..k])).None?
    ensures Listing(ReadLine, NonBlank(lines)).None?
  {
    if k == |lines| {
      assert lines[..k] == lines;
    } else {
      var shorter := lines[..|lines| - 1];
      assert shorter[..k] == lines[..k];
      NeverRecovers(shorter, k);
      var kept, last := NonBlank(shorter), lines[|lines| - 1];
      if last != "" {
        assert (kept + [last])[..|kept|] == kept;
      } else {
        assert kept + [] == kept;
      }
    }
  }

  lemma {:induction false} NonBlankUnbroken(lines: seq<string>)
    requires forall i :: 0 <= i < |lines| ==> NoBreak(TextSplitting, lines[i])
    ensures forall i :: 0 <= i < |NonBlank(lines)| ==> NoBreak(TextSplitting, NonBlank(lines)[i])
  {
    if lines != [] {
      NonBlankUnbroken(lines[..|lines| - 1]);
    }
  }

  /** Every path a manifest lists can be printed into one again. */
  lemma PublicManifestPrintable(text: string)
    requires PublicManifest(text).Some?
    ensures AllPrintable(PublicManifest(text).value)
  {
    var lines := SplitLines(TextSplitting, text);
    SplitHasNoBreak(TextSplitting, text);
    NonBlankUnbroken(lines);
    ListedPathsSafe(NonBlank(lines));
  }

  function Itself(digest: Token): Token {
    digest
  }

  /** The canonical text of the attested tree: its sorted digest lines. */
  function TreeText(entries: map<string, Token>): string {
    ManifestText(Itself, entries)
  }

  /** The digests of an attested manifest. */
  ghost predicate WellFormed(entries: map<string, Token>) {
    entries != map[] && AllPrintable(entries) && ProducesDigests(Itself, entries)
  }

  /** The canonical text determines paths and digests. */
  lemma TreeTextIsInjective(a: map<string, Token>, b: map<string, Token>)
    requires WellFormed(a) && WellFormed(b) && TreeText(a) == TreeText(b)
    ensures a == b
  {
    ManifestRoundTrip(Itself, a);
    ManifestRoundTrip(Itself, b);
    assert Digests(Itself, a) == a && Digests(Itself, b) == b;
  }

  /** The listed file r was read with this content, which has its digest. */
  ghost predicate Seen(
    p: Probe, source: Source, entries: map<string, Token>, contents: map<string, string>, r: string)
  {
    && r in entries && r in contents
    && p.hash(contents[r]) == entries[r]
    && ReadSometime(source, r, contents[r])
  }

  ghost predicate AllSeen(p: Probe, source: Source, entries: map<string, Token>, contents: map<string, string>) {
    && contents.Keys == entries.Keys
    && forall r {:trigger Seen(p, source, entries, contents, r)} :: r in entries ==>
      Seen(p, source, entries, contents, r)
  }

  ghost predicate ReadSometime(source: Source, path: string, text: string) {
    exists t: nat :: source(t, path) == Some(text)
  }

  ghost predicate ManifestSeen(p: Probe, source: Source, text: string, entries: map<string, Token>) {
    ReadSometime(source, p.manifestPath, text) && ListsEntries(p, text, entries)
  }

  ghost predicate DigestSeen(p: Probe, source: Source, text: string, digest: Token) {
    ReadSometime(source, p.manifestPath, text) && p.hash(text) == digest
  }

  /** What a passing attestation established: at some moments a manifest listed these
      entries, and each listed file held content with the listed digest. */
  ghost predicate Attested(
    p: Probe, source: Source, identity: Identity, entries: map<string, Token>, contents: map<string, string>)
  {
    && WellFormed(entries)
    && AllSeen(p, source, entries, contents)
    && (exists text: string :: ManifestSeen(p, source, text, entries))
    && (exists text: string :: DigestSeen(p, source, text, identity.manifest))
    && identity.entryCount == |entries|
    && identity.tree == p.hash(TreeText(entries))
  }

  predicate ListsEntries(p: Probe, text: string, entries: map<string, Token>) {
    p.decode(text).Some? && PublicManifest(p.decode(text).value) == Some(entries)
  }

  lemma SeenIsAttested(
    p: Probe, source: Source, text: string, again: string, identity: Identity, entries: map<string, Token>,
    contents: map<string, string>)
    requires ProducesSha256(p.hash) && AllSeen(p, source, entries, contents)
    requires ManifestSeen(p, source, text, entries) && DigestSeen(p, source, again, identity.manifest)
    requires identity.entryCount == |entries| && identity.tree == p.hash(TreeText(entries))
    ensures Attested(p, source, identity, entries, contents)
  {
    PublicManifestPrintable(p.decode(text).value);
    forall r | r in entries ensures IsSha256(Itself(entries[r])) {
      assert Seen(p, source, entries, contents, r);
    }
  }

  /** attest_public_source. Every read happens at its own moment; None stands for a
      report that did not pass. */
  method AttestSource(p: Probe, source: Source, start: nat)
    returns (
      identity: Option<Identity>, clock: nat, ghost entries: map<string, Token>,
      ghost contents: map<string, string>)
    requires ProducesSha256(p.hash)
    ensures clock > start
    ensures identity.Some? ==> Attested(p, source, identity.value, entries, contents)
    ensures Unchanging(source) ==> (identity.Some? <==> Passes(p, source))
    ensures Unchanging(source) && identity.Some? ==>
              identity.value == IdentityOf(p, source) && entries == ListedIn(p, source)
  {
    clock, entries, contents := start + 1, map[], map[];
    var manifest := source(start, p.manifestPath);
    var decoded := if manifest.Some? then p.decode(manifest.value) else None;
    if decoded.None? {
      return None, clock, entries, contents;
    }
    var listed := ReadPublicManifest(decoded.value);
    if listed.None? {
      return None, clock, entries, contents;
    }
    entries := listed.value;
    var matched;
    matched, clock, contents := HashEntries(p, source, clock, listed.value);
    var version := source(clock, p.versionPath);
    var again := source(clock + 1, p.manifestPath);
    clock := clock + 2;
    if !matched || version.None? || p.version(version.value).None? || again.None? {
      return None, clock, entries, contents;
    }
    assert ManifestSeen(p, source, manifest.value, entries);
    assert DigestSeen(p, source, again.value, p.hash(again.value));
    var found := Identity(
      p.version(version.value).value, p.hash(again.value), |listed.value|, p.hash(TreeText(listed.value)));
    SeenIsAttested(p, source, manifest.value, again.value, found, entries, contents);
    identity := Some(found);
  }

  /** The hashing loop: all issues are collected, none stops it. */
  method HashEntries(p: Probe, source: Source, start: nat, entries: map<string, Token>)
    returns (matched: bool, clock: nat, ghost contents: map<string, string>)
    ensures clock >= start
    ensures matched ==> AllSeen(p, source, entries, contents)
    ensures Unchanging(source) ==> (matched <==> AllHold(p, source, entries, entries.Keys))
  {
    matched, clock, contents := true, start, map[];
    var rest := entries.Keys;
    while rest != {}
      invariant clock >= start && rest <= entries.Keys
      invariant matched ==> SeenExcept(p, source, entries, contents, rest)
      invariant Unchanging(source) ==> (matched <==> AllHold(p, source, entries, entries.Keys - rest))
      decreases |rest|
    {
      var r :| r in rest;
      ghost var earlier := rest;
      rest := rest - {r};
      var content := source(clock, r);
      assert Unchanging(source) ==> source(clock, r) == source(0, r);
      assert entries.Keys - rest == (entries.Keys - earlier) + {r};
      assert ReadSometime(source, r, if content.Some? then content.value else "") || content.None?;
      clock := clock + 1;
      if content.Some? && p.hash(content.value) == entries[r] {
        if matched {
          SeenMore(p, source, entries, contents, earlier, r, content.value);
        }
        contents := contents[r := content.value];
      } else {
        matched := false;
      }
    }
  }

  ghost predicate SeenExcept(
    p: Probe, source: Source, entries: map<string, Token>, contents: map<string, string>, rest: set<string>)
  {
    && contents.Keys == entries.Keys - rest
    && forall r {:trigger Seen(p, source, entries, contents, r)} :: r in contents ==>
      Seen(p, source, entries, contents, r)
  }

  lemma SeenMore(
    p: Probe, source: Source, entries: map<string, Token>, contents: map<string, string>, rest: set<string>,
    r: string, content: string)
    requires SeenExcept(p, source, entries, contents, rest) && r in rest && rest <= entries.Keys
    requires ReadSometime(source, r, content) && p.hash(content) == entries[r]
    ensures SeenExcept(p, source, entries, contents[r := content], rest - {r})
  {
    var more := contents[r := content];
    forall q | q in more ensures Seen(p, source, entries, more, q) {
      assert q != r ==> Seen(p, source, entries, contents, q);
    }
  }

  ghost predicate Unchanging(source: Source) {
    forall t: nat, path {:trigger source(t, path)} :: source(t, path) == source(0, path)
  }

  predicate HoldsDigest(p: Probe, source: Source, r: string, digest: Token) {
    source(0, r).Some? && p.hash(source(0, r).value) == digest
  }

  ghost predicate AllHold(p: Probe, source: Source, entries: map<string, Token>, paths: set<string>)
    requires paths <= entries.Keys
  {
    forall r :: r in paths ==> HoldsDigest(p, source, r, entries[r])
  }

  /** An unchanging tree passes exactly when its manifest reads, every listed file
      has its digest, and the version reads. */
  ghost predicate Passes(p: Probe, source: Source) {
    && source(0, p.manifestPath).Some? && p.decode(source(0, p.manifestPath).value).Some?
    && var listed := PublicManifest(p.decode(source(0, p.manifestPath).value).value);
    && listed.Some?
    && AllHold(p, source, listed.value, listed.value.Keys)
    && source(0, p.versionPath).Some? && p.version(source(0, p.versionPath).value).Some?
  }

  ghost function ListedIn(p: Probe, source: Source): map<string, Token>
    requires Passes(p, source)
  {
    PublicManifest(p.decode(source(0, p.manifestPath).value).value).value
  }

  ghost function IdentityOf(p: Probe, source: Source): Identity
    requires Passes(p, source)
  {
    var entries := ListedIn(p, source);
    Identity(
      p.version(source(0, p.versionPath).value).value, p.hash(source(0, p.manifestPath).value), |entries|,
      p.hash(TreeText(entries)))
  }

  /** Each path of the one has the same content in the other, or the two contents
      that were seen under it are a SHA-256 collision. */
  ghost predicate SameOrCollide(p: Probe, a: map<string, string>, b: map<string, string>) {
    && a.Keys == b.Keys
    && forall r :: r in a ==> a[r] == b[r] || Collide(p.hash, a[r], b[r])
  }

  /** Two attestations with one identity have tree texts that collide, or list the
      same files with the same digests and saw the same bytes in each of them,
      except where the two contents seen collide. */
  lemma IdentityFixesEntries(
    p: Probe, source: Source, snapshot: Source, identity: Identity,
    a: map<string, Token>, b: map<string, Token>, contentsA: map<string, string>, contentsB: map<string, string>)
    requires Attested(p, source, identity, a, contentsA) && Attested(p, snapshot, identity, b, contentsB)
    ensures Collide(p.hash, TreeText(a), TreeText(b)) || (a == b && SameOrCollide(p, contentsA, contentsB))
  {
    if TreeText(a) != TreeText(b) {
      assert Collide(p.hash, TreeText(a), TreeText(b));
    } else {
      TreeTextIsInjective(a, b);
      SameDigestsSameContents(p, source, snapshot, a, contentsA, contentsB);
    }
  }

  lemma SameDigestsSameContents(
    p: Probe, source: Source, snapshot: Source, entries: map<string, Token>,
    contentsA: map<string, string>, contentsB: map<string, string>)
    requires AllSeen(p, source, entries, contentsA) && AllSeen(p, snapshot, entries, contentsB)
    ensures SameOrCollide(p, contentsA, contentsB)
  {
    forall r | r in entries && contentsA[r] != contentsB[r] ensures Collide(p.hash, contentsA[r], contentsB[r]) {
      assert Seen(p, source, entries, contentsA, r) && Seen(p, snapshot, entries, contentsB, r);
    }
  }

  /** A directory that does not change, read by relative paths. */
  function Held(files: map<seq<string>, string>): Source {
    (t: nat, r: string) => if Parts(r) in files then Some(files[Parts(r)]) else None
  }

  /** Every listed path holds this content. */
  ghost predicate SnapshotHolds(files: map<seq<string>, string>, contents: map<string, string>) {
    forall r :: r in contents ==> Parts(r) in files && files[Parts(r)] == contents[r]
  }

  /** The snapshot holds what was attested: the tree texts of the two attestations
      collide, or every attested path holds the attested bytes, except where the file
      in the snapshot and the attested bytes collide. */
  ghost predicate HoldsAttested(
    p: Probe, files: map<seq<string>, string>, entries: map<string, Token>, contents: map<string, string>)
    requires Passes(p, Held(files))
  {
    || Collide(p.hash, TreeText(entries), TreeText(ListedIn(p, Held(files))))
    || forall r :: r in contents ==>
         && Parts(r) in files
         && (files[Parts(r)] == contents[r] || Collide(p.hash, files[Parts(r)], contents[r]))
  }

  lemma HeldContents(
    p: Probe, files: map<seq<string>, string>, entries: map<string, Token>, contents: map<string, string>)
    requires AllSeen(p, Held(files), entries, contents)
    ensures SnapshotHolds(files, contents)
  {
    forall r | r in contents ensures Parts(r) in files && files[Parts(r)] == contents[r] {
      assert Seen(p, Held(files), entries, contents, r);
      var t: nat :| Held(files)(t, r) == Some(contents[r]);
    }
  }

  /** A snapshot whose attestation gives the source's identity holds what was attested. */
  lemma SameIdentityHolds(
    p: Probe, source: Source, files: map<seq<string>, string>, identity: Identity,
    entries: map<string, Token>, contents: map<string, string>, copied: map<string, string>)
    requires Attested(p, source, identity, entries, contents) && Passes(p, Held(files))
    requires Attested(p, Held(files), identity, ListedIn(p, Held(files)), copied)
    ensures HoldsAttested(p, files, entries, contents)
  {
    var listed := ListedIn(p, Held(files));
    IdentityFixesEntries(p, source, Held(files), identity, entries, listed, contents, copied);
    HeldContents(p, files, listed, copied);
    if !Collide(p.hash, TreeText(entries), TreeText(listed)) {
      forall r | r in contents
        ensures Parts(r) in files && (files[Parts(r)] == contents[r] || Collide(p.hash, files[Parts(r)], contents[r]))
      {
        assert r in copied && files[Parts(r)] == copied[r];
      }
    }
  }

  /** A file below another file, or above one, cannot be created. */
  predicate Obstructed(files: map<seq<string>, string>, path: seq<string>) {
    path == [] || exists q :: q in files && (q < path || path < q)
  }

  /** No listed path is below another, or is the directory itself. */
  ghost predicate PrefixFree(paths: set<string>) {
    && (forall a :: a in paths ==> Parts(a) != [])
    && (forall a, b :: a in paths && b in paths && a != b ==> !(Parts(a) <= Parts(b)))
  }

  /** The directory holds the source's present files at exactly these paths. */
  ghost predicate Mirrors(files: map<seq<string>, string>, source: Source, paths: set<string>) {
    && (forall r :: r in paths ==> MirrorsAt(files, source, r))
    && (forall q :: q in files ==> exists r :: r in paths && Parts(r) == q)
  }

  ghost predicate MirrorsAt(files: map<seq<string>, string>, source: Source, r: string) {
    Parts(r) in files && source(0, r) == Some(files[Parts(r)])
  }

  lemma MirrorsMore(
    files: map<seq<string>, string>, source: Source, all: set<string>, paths: set<string>, r: string, content: string)
    requires PrefixFree(all) && paths <= all && r in all && r !in paths
    requires Mirrors(files, source, paths) && source(0, r) == Some(content)
    ensures !Obstructed(files, Parts(r))
    ensures Mirrors(files[Parts(r) := content], source, paths + {r})
  {
    forall q | q in files ensures !(q < Parts(r)) && !(Parts(r) < q) && q != Parts(r) {
      var a :| a in paths && Parts(a) == q;
    }
    var more := files[Parts(r) := content];
    forall a | a in paths + {r} ensures MirrorsAt(more, source, a) {
      assert a != r ==> MirrorsAt(files, source, a);
    }
    forall q | q in more ensures exists a :: a in paths + {r} && Parts(a) == q {
      if q == Parts(r) {
        assert r in paths + {r};
      } else {
        var a :| a in paths && Parts(a) == q;
        assert a in paths + {r};
      }
    }
  }

  /** A mirror of a passing source passes too, with the same identity, as soon as the
      version file is among the copied ones. */
  lemma MirrorPasses(p: Probe, files: map<seq<string>, string>, source: Source)
    requires Passes(p, source) && p.versionPath in ListedIn(p, source)
    requires Mirrors(files, source, ListedIn(p, source).Keys + {p.manifestPath})
    ensures Unchanging(Held(files)) && Passes(p, Held(files))
    ensures IdentityOf(p, Held(files)) == IdentityOf(p, source)
  {
    var entries := ListedIn(p, source);
    assert MirrorsAt(files, source, p.manifestPath) && MirrorsAt(files, source, p.versionPath);
    forall r | r in entries ensures HoldsDigest(p, Held(files), r, entries[r]) {
      assert MirrorsAt(files, source, r) && HoldsDigest(p, source, r, entries[r]);
    }
  }

  ghost function Firsts(order: seq<string>, k: nat): set<string>
    requires k <= |order|
  {
    set i | 0 <= i < k :: order[i]
  }

  /** Every path in the order can be read and has room. */
  ghost predicate CanMirror(source: Source, order: seq<string>) {
    && Unchanging(source)
    && (forall i :: 0 <= i < |order| ==> source(0, order[i]).Some?)
    && (forall i, j :: 0 <= i < j < |order| ==> order[i] != order[j])
    && PrefixFree(Firsts(order, |order|))
  }

  lemma FirstsMore(order: seq<string>, i: nat)
    requires i < |order| && forall j, k :: 0 <= j < k < |order| ==> order[j] != order[k]
    ensures order[i] in Firsts(order, |order|) && Firsts(order, i) <= Firsts(order, |order|)
    ensures Firsts(order, i + 1) == Firsts(order, i) + {order[i]}
    ensures order[i] !in Firsts(order, i)
  {
  }

  lemma CanMirrorNext(source: Source, order: seq<string>, i: nat, files: map<seq<string>, string>)
    requires CanMirror(source, order) && i < |order| && Mirrors(files, source, Firsts(order, i))
    ensures !Obstructed(files, Parts(order[i]))
    ensures Mirrors(files[Parts(order[i]) := source(0, order[i]).value], source, Firsts(order, i + 1))
  {
    FirstsMore(order, i);
    MirrorsMore(
      files, source, Firsts(order, |order|), Firsts(order, i), order[i], source(0, order[i]).value);
  }

  /** Everything a faultless copy needs: the source stands still and passes, lists its
      version file and not its own manifest, and the listed paths can coexist. */
  ghost predicate Copyable(p: Probe, source: Source) {
    && Unchanging(source) && Passes(p, source)
    && p.versionPath in ListedIn(p, source) && p.manifestPath !in ListedIn(p, source)
    && PrefixFree(ListedIn(p, source).Keys + {p.manifestPath})
  }

  /** What is made of the manifest's bytes. */
  function ManifestRead(p: Probe, content: Option<string>): Option<map<string, Token>> {
    if content.Some? && p.decode(content.value).Some? then PublicManifest(p.decode(content.value).value) else None
  }

  lemma StandingManifest(p: Probe, source: Source, clock: nat)
    requires Copyable(p, source)
    ensures ManifestRead(p, source(clock, p.manifestPath)) == Some(ListedIn(p, source))
  {
    assert source(clock, p.manifestPath) == source(0, p.manifestPath);
  }

  /** A copyable source can be mirrored in sorted order, and its manifest after it. */
  lemma CopyableMirrors(p: Probe, source: Source, order: seq<string>)
    requires Copyable(p, source) && order == SortedStrings(ListedIn(p, source).Keys)
    ensures CanMirror(source, order) && Firsts(order, |order|) == ListedIn(p, source).Keys
  {
    var entries := ListedIn(p, source);
    FirstsOfSorted(entries.Keys, order);
    forall i | 0 <= i < |order| ensures source(0, order[i]).Some? {
      assert order[i] in Firsts(order, |order|) && HoldsDigest(p, source, order[i], entries[order[i]]);
    }
  }

  lemma FirstsOfSorted(paths: set<string>, order: seq<string>)
    requires order == SortedStrings(paths)
    ensures Firsts(order, |order|) == paths
    ensures forall i, j :: 0 <= i < j < |order| ==> order[i] != order[j]
  {
    SortedStringsFacts(paths);
    StringLessIsStrictTotal();
    forall i, j | 0 <= i < j < |order| ensures order[i] != order[j] {
      assert StringLess(order[i], order[j]);
    }
    forall r | r in paths ensures r in Firsts(order, |order|) {
      assert r in order;
      var i :| 0 <= i < |order| && order[i] == r;
    }
    forall r | r in Firsts(order, |order|) ensures r in paths {
      assert r in order;
    }
  }

  lemma MirrorComplete(p: Probe, source: Source, mirror: map<seq<string>, string>, order: seq<string>)
    requires Copyable(p, source) && order == SortedStrings(ListedIn(p, source).Keys)
    requires Mirrors(mirror, source, Firsts(order, |order|))
    ensures !Obstructed(mirror, Parts(p.manifestPath))
    ensures var files := mirror[Parts(p.manifestPath) := source(0, p.manifestPath).value];
            Unchanging(Held(files)) && Passes(p, Held(files)) && IdentityOf(p, Held(files)) == IdentityOf(p, source)
  {
    CopyableMirrors(p, source, order);
    var keys := ListedIn(p, source).Keys;
    MirrorsMore(mirror, source, keys + {p.manifestPath}, keys, p.manifestPath, source(0, p.manifestPath).value);
    MirrorPasses(p, mirror[Parts(p.manifestPath) := source(0, p.manifestPath).value], source);
  }

  /** What copying the first i files of an unchanging source makes. */
  function Copies(source: Source, order: seq<string>, i: nat): map<seq<string>, string>
    requires i <= |order|
  {
    if i == 0 then map[]
    else if source(0, order[i - 1]).None? then Copies(source, order, i - 1)
    else Copies(source, order, i - 1)[Parts(order[i - 1]) := source(0, order[i - 1]).value]
  }

  predicate PlaceFree(source: Source, order: seq<string>, i: nat) {
    i < |order| && source(0, order[i]).Some? && !Obstructed(Copies(source, order, i), Parts(order[i]))
  }

  ghost predicate AllPlacesFree(source: Source, order: seq<string>) {
    forall i: nat {:trigger PlaceFree(source, order, i)} :: i < |order| ==> PlaceFree(source, order, i)
  }

  lemma {:induction false} MirrorsFirst(source: Source, order: seq<string>, i: nat)
    requires CanMirror(source, order) && i <= |order|
    ensures Mirrors(Copies(source, order, i), source, Firsts(order, i))
  {
    if i > 0 {
      MirrorsFirst(source, order, i - 1);
      CopiesMirror(source, order, i - 1, i);
    }
  }

  lemma CopiesMirror(source: Source, order: seq<string>, k: nat, next: nat)
    requires CanMirror(source, order) && k < |order| && next == k + 1
    requires Mirrors(Copies(source, order, k), source, Firsts(order, k))
    ensures Mirrors(Copies(source, order, next), source, Firsts(order, next))
  {
    CanMirrorNext(source, order, k, Copies(source, order, k));
    assert source(0, order[k]).Some?;
  }

  lemma MirrorsAll(source: Source, order: seq<string>)
    requires CanMirror(source, order)
    ensures AllPlacesFree(source, order)
    ensures Mirrors(Copies(source, order, |order|), source, Firsts(order, |order|))
  {
    forall i: nat | i < |order| ensures PlaceFree(source, order, i) {
      MirrorsFirst(source, order, i);
      CanMirrorNext(source, order, i, Copies(source, order, i));
    }
    MirrorsFirst(source, order, |order|);
  }

  /** How far a copy got: its success, the clock, the files, and the next operation. */
  datatype Copied = Copied(ok: bool, clock: nat, files: map<seq<string>, string>, operation: nat)

  /** Whether the snapshot was taken, and otherwise whether nothing is left of it. */
  datatype TakeEnd = TakeEnd(same: bool, gone: bool)

  /** The snapshot attests with this identity. */
  ghost predicate Confirms(p: Probe, files: map<seq<string>, string>, before: Identity) {
    Passes(p, Held(files)) && IdentityOf(p, Held(files)) == before
  }

  /** What is there afterwards: the attested contents, or nothing unless the removal
      failed. */
  ghost predicate Taken(
    p: Probe, present: bool, files: map<seq<string>, string>, before: Identity, end: TakeEnd)
  {
    if end.same then present && Confirms(p, files, before) else end.gone ==> !present && files == map[]
  }

  /** What a snapshot that passes would be seen to hold. */
  lemma HeldAttests(p: Probe, files: map<seq<string>, string>) returns (copied: map<string, string>)
    requires ProducesSha256(p.hash) && Passes(p, Held(files))
    ensures Attested(p, Held(files), IdentityOf(p, Held(files)), ListedIn(p, Held(files)), copied)
  {
    var source, listed := Held(files), ListedIn(p, Held(files));
    var text := source(0, p.manifestPath).value;
    copied := map r | r in listed :: source(0, r).value;
    forall r | r in listed ensures Seen(p, source, listed, copied, r) {
      assert HoldsDigest(p, source, r, listed[r]);
      assert source(0, r) == Some(copied[r]);
    }
    assert ReadSometime(source, p.manifestPath, text);
    PublicManifestPrintable(p.decode(text).value);
    assert WellFormed(listed);
    assert AllSeen(p, source, listed, copied);
    assert ManifestSeen(p, source, text, listed) && DigestSeen(p, source, text, p.hash(text));
  }

  lemma ConfirmedHolds(
    p: Probe, source: Source, files: map<seq<string>, string>, before: Identity,
    entries: map<string, Token>, contents: map<string, string>)
    requires ProducesSha256(p.hash)
    requires Attested(p, source, before, entries, contents) && Confirms(p, files, before)
    ensures HoldsAttested(p, files, entries, contents)
  {
    var copied := HeldAttests(p, files);
    SameIdentityHolds(p, source, files, before, entries, contents, copied);
  }

  /** The snapshot directory. Any step may fail; a failed write leaves any torn
      content, a failed removal leaves any remnant. */
  class Snapshot {
    var present: bool
    var files: map<seq<string>, string>
    var operations: nat
    const fails: nat -> bool
    const torn: nat -> string
    const remnants: nat -> map<seq<string>, string>

    constructor (
      present: bool, fails: nat -> bool, torn: nat -> string, remnants: nat -> map<seq<string>, string>)
      ensures this.present == present && files == map[] && operations == 0
      ensures this.fails == fails && this.torn == torn && this.remnants == remnants
    {
      this.present := present;
      files, operations := map[], 0;
      this.fails := fails;
      this.torn := torn;
      this.remnants := remnants;
    }

    /** The files after one copy, which a failure may leave torn. */
    function AfterCopy(
      files: map<seq<string>, string>, path: seq<string>, content: Option<string>, operation: nat)
      : map<seq<string>, string>
    {
      if content.None? || Obstructed(files, path) then files
      else files[path := if fails(operation) then torn(operation) else content.value]
    }

    /** The copying loop from the i-th file on. */
    function CopySteps(
      source: Source, order: seq<string>, i: nat, clock: nat, files: map<seq<string>, string>, operation: nat): Copied
      requires i <= |order|
      decreases |order| - i
    {
      if i == |order| then Copied(true, clock, files, operation)
      else
        var path, content := Parts(order[i]), source(clock, order[i]);
        var next := AfterCopy(files, path, content, operation);
        if fails(operation) || content.None? || Obstructed(files, path)
        then Copied(false, clock + 1, next, operation + 1)
        else CopySteps(source, order, i + 1, clock + 1, next, operation + 1)
    }

    lemma CopyStep(
      source: Source, order: seq<string>, i: nat, clock: nat, files: map<seq<string>, string>, operation: nat)
      requires i < |order|
      ensures var path, content := Parts(order[i]), source(clock, order[i]);
              var next := AfterCopy(files, path, content, operation);
              CopySteps(source, order, i, clock, files, operation)
              == if fails(operation) || content.None? || Obstructed(files, path)
                 then Copied(false, clock + 1, next, operation + 1)
                 else CopySteps(source, order, i + 1, clock + 1, next, operation + 1)
    {
    }

    /** The listed files, then the manifest, copied into an empty directory. */
    function FillSteps(p: Probe, source: Source, start: nat, listed: map<string, Token>, operation: nat): Copied {
      var copied := CopySteps(source, SortedStrings(listed.Keys), 0, start, map[], operation);
      if !copied.ok then copied
      else
        var path, content := Parts(p.manifestPath), source(copied.clock, p.manifestPath);
        Copied(
          !fails(copied.operation) && content.Some? && !Obstructed(copied.files, path), copied.clock + 1,
          AfterCopy(copied.files, path, content, copied.operation), copied.operation + 1)
    }

    /** It is filled, and attests with this identity. */
    ghost predicate Fills(
      p: Probe, source: Source, start: nat, listed: map<string, Token>, before: Identity, operation: nat)
    {
      var filled := FillSteps(p, source, start, listed, operation);
      filled.ok && Confirms(p, filled.files, before)
    }

    /** From the creation of the directory on: whatever goes wrong after it, the
        directory is removed, and stays only if the removal fails. */
    ghost function TakeSteps(p: Probe, source: Source, clock: nat, before: Identity, operation: nat): TakeEnd {
      ListedSteps(p, source, ManifestRead(p, source(clock, p.manifestPath)), clock + 1, before, operation)
    }

    ghost function ListedSteps(
      p: Probe, source: Source, listed: Option<map<string, Token>>, start: nat, before: Identity, operation: nat)
      : TakeEnd
    {
      if listed.None? || fails(operation) then TakeEnd(false, true)
      else FilledEnd(p, source, start, listed.value, before, operation + 1)
    }

    ghost function FilledEnd(
      p: Probe, source: Source, start: nat, listed: map<string, Token>, before: Identity, operation: nat): TakeEnd
    {
      var same := Fills(p, source, start, listed, before, operation);
      TakeEnd(same, same || !fails(FillSteps(p, source, start, listed, operation).operation))
    }

    lemma {:induction false} FreePlacesAreCopied(
      source: Source, order: seq<string>, i: nat, next: nat, clock: nat, operation: nat)
      requires Reliable(fails) && Unchanging(source) && i <= |order| && next == i + 1
      requires AllPlacesFree(source, order)
      ensures var copied := CopySteps(source, order, i, clock, Copies(source, order, i), operation);
              copied.ok && copied.files == Copies(source, order, |order|)
      decreases |order| - i
    {
      if i < |order| {
        assert PlaceFree(source, order, i);
        FreePlaceIsCopied(source, order, i, next, clock, operation);
        FreePlacesAreCopied(source, order, next, next + 1, clock + 1, operation + 1);
      }
    }

    lemma FreePlaceIsCopied(
      source: Source, order: seq<string>, i: nat, next: nat, clock: nat, operation: nat)
      requires !fails(operation) && Unchanging(source) && PlaceFree(source, order, i) && next == i + 1
      ensures CopySteps(source, order, i, clock, Copies(source, order, i), operation)
              == CopySteps(source, order, next, clock + 1, Copies(source, order, next), operation + 1)
    {
      assert source(clock, order[i]) == source(0, order[i]);
    }

    /** When nothing fails, a source that stands still is copied. */
    lemma ReliableTake(p: Probe, source: Source, clock: nat, operation: nat)
      requires Reliable(fails) && Copyable(p, source)
      ensures TakeSteps(p, source, clock, IdentityOf(p, source), operation) == TakeEnd(true, true)
    {
      StandingManifest(p, source, clock);
      ReliableListed(p, source, clock + 1, operation);
    }

    lemma ReliableListed(p: Probe, source: Source, start: nat, operation: nat)
      requires Reliable(fails) && Copyable(p, source)
      ensures ListedSteps(p, source, Some(ListedIn(p, source)), start, IdentityOf(p, source), operation)
              == TakeEnd(true, true)
    {
      ReliableFill(p, source, start, operation + 1);
    }

    lemma ReliableFill(p: Probe, source: Source, start: nat, operation: nat)
      requires Reliable(fails) && Copyable(p, source)
      ensures Fills(p, source, start, ListedIn(p, source), IdentityOf(p, source), operation)
    {
      var listed := ListedIn(p, source);
      var order := SortedStrings(listed.Keys);
      CopyableMirrors(p, source, order);
      MirrorsAll(source, order);
      FreePlacesAreCopied(source, order, 0, 1, start, operation);
      var copied := CopySteps(source, order, 0, start, map[], operation);
      var path, content := Parts(p.manifestPath), source(0, p.manifestPath);
      assert source(copied.clock, p.manifestPath) == content;
      assert Confirms(p, copied.files[path := content.value], IdentityOf(p, source)) by {
        MirrorComplete(p, source, copied.files, order);
      }
      assert !Obstructed(copied.files, path) by {
        MirrorComplete(p, source, copied.files, order);
      }
      FillEnds(p, source, start, listed, operation, copied);
    }

    lemma FillEnds(
      p: Probe, source: Source, start: nat, listed: map<string, Token>, operation: nat, copied: Copied)
      requires copied == CopySteps(source, SortedStrings(listed.Keys), 0, start, map[], operation)
      requires copied.ok && !fails(copied.operation) && source(copied.clock, p.manifestPath).Some?
      requires !Obstructed(copied.files, Parts(p.manifestPath))
      ensures var filled := FillSteps(p, source, start, listed, operation);
              && filled.ok
              && filled.files == copied.files[
                                   Parts(p.manifestPath) := source(copied.clock, p.manifestPath).value]
    {
    }

    /** Create the parents and copy one file. */
    method CopyFile(path: seq<string>, content: Option<string>) returns (ok: bool)
      modifies this
      ensures present == old(present) && operations == old(operations) + 1
      ensures ok <==> !fails(old(operations)) && content.Some? && !Obstructed(old(files), path)
      ensures files == AfterCopy(old(files), path, content, old(operations))
    {
      ok := !fails(operations) && content.Some? && !Obstructed(files, path);
      if ok {
        files := files[path := content.value];
      } else if content.Some? && !Obstructed(files, path) {
        files := files[path := torn(operations)];
      }
      operations := operations + 1;
    }

    /** rmtree(ignore_errors=True) */
    method Remove() returns (gone: bool)
      modifies this
      ensures gone <==> !fails(old(operations))
      ensures gone ==> !present && files == map[]
    {
      gone := !fails(operations);
      files := if gone then map[] else remnants(operations);
      present := !gone;
      operations := operations + 1;
    }

    /** copy_verified_public_source. On return every path that the attested manifest
        listed holds exactly the bytes that were attested - however the source
        changed in between. After a failure nothing is left, if the cleanup works. */
    method CopyVerified(p: Probe, source: Source)
      returns (
        identity: Option<Identity>, gone: bool, ghost entries: map<string, Token>,
        ghost contents: map<string, string>, ghost before: Option<Identity>, ghost clock: nat)
      requires ProducesSha256(p.hash) && files == map[]
      modifies this
      ensures old(present) ==> identity.None? && gone && files == old(files) && present
      ensures identity.Some? ==>
                && present && Passes(p, Held(files))
                && Attested(p, source, identity.value, entries, contents)
                && HoldsAttested(p, files, entries, contents)
      ensures identity.None? && !old(present) && gone ==> !present && files == map[]
      // The attestation of the source, what its later reads return and the operations
      // that fail decide whether the copy succeeds and whether anything is left.
      ensures !old(present) ==>
                && (Unchanging(source) ==>
                      if Passes(p, source) then before == Some(IdentityOf(p, source)) else before.None?)
                && if before.None? then identity.None? && gone
                   else TakeSteps(p, source, clock, before.value, old(operations)) == TakeEnd(identity.Some?, gone)
                        && (identity.Some? ==> identity == before)
    {
      identity, gone, before, clock := None, true, None, 0;
      if present {
        entries, contents := map[], map[];
        return;
      }
      var attested, next;
      attested, next, entries, contents := AttestSource(p, source, 0);
      before, clock := attested, next;
      if attested.Some? {
        var same;
        same, gone := Take(p, source, next, attested.value);
        identity := if same then attested else None;
        if same {
          ConfirmedHolds(p, source, files, attested.value, entries, contents);
        }
      }
    }

    method MakeDirectory() returns (made: bool)
      requires !present
      modifies this`present, this`operations
      ensures made <==> !fails(old(operations))
      ensures present == made && operations == old(operations) + 1
    {
      made := !fails(operations);
      present := made;
      operations := operations + 1;
    }

    /** Create the directory, fill it, and confirm what it holds. */
    method Take(
      p: Probe, source: Source, clock: nat, before: Identity)
      returns (same: bool, gone: bool)
      requires ProducesSha256(p.hash) && files == map[] && !present
      modifies this
      ensures Taken(p, present, files, before, TakeEnd(same, gone))
      ensures TakeEnd(same, gone) == TakeSteps(p, source, clock, before, old(operations))
    {
      var listed := ManifestRead(p, source(clock, p.manifestPath));
      same, gone := TakeListed(p, source, listed, clock + 1, before);
    }

    method TakeListed(
      p: Probe, source: Source, listed: Option<map<string, Token>>, start: nat, before: Identity)
      returns (same: bool, gone: bool)
      requires ProducesSha256(p.hash) && files == map[] && !present
      modifies this
      ensures Taken(p, present, files, before, TakeEnd(same, gone))
      ensures TakeEnd(same, gone) == ListedSteps(p, source, listed, start, before, old(operations))
    {
      same, gone := false, true;
      if listed.Some? {
        same, gone := MakeAndFill(p, source, start, listed.value, before);
      }
    }

    method MakeAndFill(
      p: Probe, source: Source, start: nat, listed: map<string, Token>, before: Identity)
      returns (same: bool, gone: bool)
      requires ProducesSha256(p.hash) && files == map[] && !present
      modifies this
      ensures Taken(p, present, files, before, TakeEnd(same, gone))
      ensures TakeEnd(same, gone)
              == if fails(old(operations)) then TakeEnd(false, true)
                 else FilledEnd(p, source, start, listed, before, old(operations) + 1)
    {
      same, gone := false, true;
      var made := MakeDirectory();
      if made {
        same, gone := FillOrRemove(p, source, start, listed, before);
      }
    }

    method FillOrRemove(
      p: Probe, source: Source, start: nat, listed: map<string, Token>, before: Identity)
      returns (same: bool, gone: bool)
      requires ProducesSha256(p.hash) && files == map[] && present
      modifies this
      ensures Taken(p, present, files, before, TakeEnd(same, gone))
      ensures TakeEnd(same, gone) == FilledEnd(p, source, start, listed, before, old(operations))
    {
      gone := true;
      same := FillAndConfirm(p, source, start, listed, before);
      if !same {
        gone := Remove();
      }
    }

    method FillAndConfirm(
      p: Probe, source: Source, start: nat, listed: map<string, Token>, before: Identity)
      returns (same: bool)
      requires ProducesSha256(p.hash) && files == map[]
      modifies this
      ensures present == old(present)
      ensures operations == FillSteps(p, source, start, listed, old(operations)).operation
      ensures same ==> Confirms(p, files, before)
      ensures same <==> Fills(p, source, start, listed, before, old(operations))
    {
      var copied := Fill(p, source, start, listed);
      same := false;
      if copied {
        same := Confirm(p, before);
      }
    }

    /** Attest the snapshot and compare identities. */
    method Confirm(p: Probe, before: Identity) returns (same: bool)
      requires ProducesSha256(p.hash)
      ensures same <==> Confirms(p, files, before)
    {
      assert Unchanging(Held(files));
      var after, later;
      ghost var copiedEntries, copiedContents;
      after, later, copiedEntries, copiedContents := AttestSource(p, Held(files), 0);
      same := after == Some(before);
    }

    /** Copy the listed files, then the manifest. */
    method Fill(p: Probe, source: Source, start: nat, listed: map<string, Token>) returns (ok: bool)
      requires files == map[]
      modifies this
      ensures present == old(present)
      ensures var filled := FillSteps(p, source, start, listed, old(operations));
              ok == filled.ok && operations == filled.operation && files == filled.files
    {
      var order := SortedStrings(listed.Keys);
      var clock;
      ok, clock := CopyEntries(source, start, order);
      if ok {
        ok := CopyFile(Parts(p.manifestPath), source(clock, p.manifestPath));
      }
    }

    /** The copying loop, in sorted order. */
    method CopyEntries(source: Source, start: nat, order: seq<string>) returns (ok: bool, clock: nat)
      modifies this
      ensures present == old(present)
      ensures Copied(ok, clock, files, operations)
              == CopySteps(source, order, 0, start, old(files), old(operations))
    {
      ok, clock := true, start;
      var i := 0;
      while ok && i < |order|
        invariant i <= |order| && present == old(present)
        invariant CopySteps(source, order, 0, start, old(files), old(operations))
                  == if ok then CopySteps(source, order, i, clock, files, operations)
                     else Copied(false, clock, files, operations)
        decreases |order| - i, ok
      {
        CopyStep(source, order, i, clock, files, operations);
        ok := CopyFile(Parts(order[i]), source(clock, order[i]));
        clock := clock + 1;
        if ok {
          i := i + 1;
        }
      }
    }
  }
}
