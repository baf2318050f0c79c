/** The text manifests: one `digest  path` line per file, printed sorted, and read
    back by the exchange and the source attestation. */
module PayloadManifest {
  import opened Prelude
  import opened HashChain
  import opened Ordering
  import opened TextLines

  datatype Item = Item(path: string, digest: Token)

  /** `^([0-9a-f]{64})  (.+)$` on one line. */
  predicate ListsFile(line: string) {
    |line| >= 67 && IsHex(line[..64], 64) && line[64..66] == "  "
  }

  /** One line as the manifest readers take it: a digest and a safe path. */
  function ReadLine(line: string): Option<Item> {
    if ListsFile(line) && SafeRelative(line[66..]) then Some(Item(line[66..], Token(line[..64]))) else None
  }

  function RenderLine(digest: Token, path: string): string {
    digest.text + "  " + path
  }

  /** The text between the slashes. */
  function Segments(path: string): (segments: seq<string>)
    ensures segments != []
  {
    if path == "" then [""]
    else
      var rest := Segments(path[1..]);
      if path[0] == '/' then [""] + rest else [[path[0]] + rest[0]] + rest[1..]
  }

  /** PurePosixPath(path).parts of a relative path. */
  function Parts(path: string): seq<string> {
    Named(Segments(path))
  }

  function Named(segments: seq<string>): seq<string> {
    if segments == [] then []
    else (if segments[0] in {"", "."} then [] else [segments[0]]) + Named(segments[1..])
  }

  /** _safe_relative */
  predicate SafeRelative(path: string) {
    path != "" && path[0] != '/' && ".." !in Parts(path) && '\\' !in path && path != "."
  }

  /** A path that a manifest line can carry. */
  ghost predicate Printable(path: string) {
    NoBreak(TextSplitting, path)
  }

  lemma {:induction false} SegmentsBelow(directory: string, path: string)
    requires '/' !in directory
    ensures Segments(directory + "/" + path) == [directory] + Segments(path)
  {
    var whole := directory + "/" + path;
    if directory == "" {
      assert whole[1..] == path;
    } else {
      assert whole[1..] == directory[1..] + "/" + path;
      SegmentsBelow(directory[1..], path);
      assert [directory[0]] + directory[1..] == directory;
    }
  }

  /** A safe path stays safe below a directory. */
  lemma SafeBelow(directory: string, path: string)
    requires '/' !in directory && '\\' !in directory && directory !in {"", ".", ".."}
    requires SafeRelative(path)
    ensures SafeRelative(directory + "/" + path)
    ensures Printable(directory) && Printable(path) ==> Printable(directory + "/" + path)
  {
    var whole := directory + "/" + path;
    SegmentsBelow(directory, path);
    assert Segments(whole)[1..] == Segments(path);
    assert Parts(whole) == [directory] + Parts(path);
    assert '/' in whole;
  }

  /** What the lines say, if every line reads and none repeats a path. */
  function Listing(read: string -> Option<Item>, lines: seq<string>): Option<map<string, Token>> {
    if lines == [] then Some(map[])
    else
      var before := Listing(read, lines[..|lines| - 1]);
      var item := read(lines[|lines| - 1]);
      if before.Some? && item.Some? && item.value.path !in before.value
      then Some(before.value[item.value.path := item.value.digest])
      else None
  }

  /** Every line reads, and no two have the same path. */
  ghost predicate Readable(read: string -> Option<Item>, lines: seq<string>) {
    && (forall i :: 0 <= i < |lines| ==> read(lines[i]).Some?)
    && (forall i, j :: 0 <= i < j < |lines| ==> read(lines[i]).value.path != read(lines[j]).value.path)
  }

  /** These are the digests the lines give, and nothing else is listed. */
  ghost predicate Assigns(read: string -> Option<Item>, lines: seq<string>, entries: map<string, Token>)
    requires Readable(read, lines)
  {
    && (forall i :: 0 <= i < |lines| ==>
          && read(lines[i]).value.path in entries
          && entries[read(lines[i]).value.path] == read(lines[i]).value.digest)
    && (forall p :: p in entries ==> exists i :: 0 <= i < |lines| && read(lines[i]).value.path == p)
  }

  lemma ReadableStep(read: string -> Option<Item>, firsts: seq<string>, line: string, entries: map<string, Token>)
    requires Readable(read, firsts) && Assigns(read, firsts, entries)
    ensures Readable(read, firsts + [line]) <==> read(line).Some? && read(line).value.path !in entries
  {
    var lines, n := firsts + [line], |firsts|;
    assert lines[n] == line && forall i :: 0 <= i < n ==> lines[i] == firsts[i];
    if read(line).Some? && read(line).value.path in entries {
      var i :| 0 <= i < n && read(firsts[i]).value.path == read(line).value.path;
      assert read(lines[i]) == read(firsts[i]);
    }
  }

  lemma AssignsStep(read: string -> Option<Item>, firsts: seq<string>, line: string, entries: map<string, Token>)
    requires Readable(read, firsts) && Assigns(read, firsts, entries)
    requires read(line).Some? && Readable(read, firsts + [line])
    ensures Assigns(read, firsts + [line], entries[read(line).value.path := read(line).value.digest])
  {
    ReadableStep(read, firsts, line, entries);
    var lines, n, item := firsts + [line], |firsts|, read(line).value;
    assert lines[n] == line && forall i :: 0 <= i < n ==> lines[i] == firsts[i];
    var more := entries[item.path := item.digest];
    forall p | p in more
      ensures exists i :: 0 <= i < |lines| && read(lines[i]).value.path == p
    {
      ListedSomewhere(read, firsts, line, entries, p);
    }
  }

  lemma ListedSomewhere(
    read: string -> Option<Item>, firsts: seq<string>, line: string, entries: map<string, Token>, p: string)
    requires Readable(read, firsts) && Assigns(read, firsts, entries)
    requires read(line).Some? && (p in entries || p == read(line).value.path)
    ensures exists i :: 0 <= i < |firsts + [line]| && read((firsts + [line])[i]).Some?
                        && read((firsts + [line])[i]).value.path == p
  {
    var lines, n := firsts + [line], |firsts|;
    if p in entries {
      var i :| 0 <= i < n && read(firsts[i]).value.path == p;
      assert lines[i] == firsts[i];
    } else {
      assert lines[n] == line;
    }
  }

  /** Reading a manifest fails exactly when a line does not read or repeats a path;
      otherwise it gives exactly what the lines say. */
  lemma {:induction false} ListingMeans(read: string -> Option<Item>, lines: seq<string>)
    ensures Listing(read, lines).Some? <==> Readable(read, lines)
    ensures Listing(read, lines).Some? ==> Assigns(read, lines, Listing(read, lines).value)
  {
    if lines != [] {
      var n := |lines| - 1;
      var firsts := lines[..n];
      ListingMeans(read, firsts);
      assert lines == firsts + [lines[n]];
      assert Readable(read, lines) ==> Readable(read, firsts);
      if Listing(read, firsts).Some? {
        var entries := Listing(read, firsts).value;
        ReadableStep(read, firsts, lines[n], entries);
        if Readable(read, lines) {
          AssignsStep(read, firsts, lines[n], entries);
        }
      }
    }
  }

  /** Lines that give some of the digests of a bundle, no path twice, list exactly
      those. */
  lemma {:induction false} ListingOf(read: string -> Option<Item>, lines: seq<string>, digests: map<string, Token>)
    requires forall i :: 0 <= i < |lines| ==>
               && read(lines[i]).Some? && read(lines[i]).value.path in digests
               && digests[read(lines[i]).value.path] == read(lines[i]).value.digest
    requires forall i, j :: 0 <= i < j < |lines| ==> read(lines[i]) != read(lines[j])
    requires forall p :: p in digests ==> exists i :: 0 <= i < |lines| && read(lines[i]) == Some(Item(p, digests[p]))
    ensures Listing(read, lines) == Some(digests)
  {
    ListingMeans(read, lines);
    forall i, j | 0 <= i < j < |lines| ensures read(lines[i]).value.path != read(lines[j]).value.path {
      assert read(lines[i]) != read(lines[j]);
    }
    assert Readable(read, lines);
    var entries := Listing(read, lines).value;
    forall p | p in digests ensures p in entries && entries[p] == digests[p] {
      var i :| 0 <= i < |lines| && read(lines[i]) == Some(Item(p, digests[p]));
    }
    forall p | p in entries ensures p in digests {
      var i :| 0 <= i < |lines| && read(lines[i]).value.path == p;
    }
    assert entries == digests;
  }

  /** What one more line does to a listing. */
  lemma ListingNext(read: string -> Option<Item>, lines: seq<string>, number: nat)
    requires number < |lines|
    ensures var before, item := Listing(read, lines[..number]), read(lines[number]);
            Listing(read, lines[..number + 1])
            == if before.None? || item.None? || item.value.path in before.value then None
               else Some(before.value[item.value.path := item.value.digest])
  {
    assert lines[..number + 1][..number] == lines[..number];
  }

  /** _load_payload_manifest: skip a bad line, but count it as an issue. */
  method LoadManifest(text: string) returns (entries: map<string, Token>, issues: nat)
    ensures issues == 0 <==> Listing(ReadLine, SplitLines(TextSplitting, text)).Some?
    ensures issues == 0 ==> Listing(ReadLine, SplitLines(TextSplitting, text)) == Some(entries)
  {
    var lines := SplitLines(TextSplitting, text);
    entries, issues := map[], 0;
    for number := 0 to |lines|
      invariant issues == 0 <==> Listing(ReadLine, lines[..number]).Some?
      invariant issues == 0 ==> Listing(ReadLine, lines[..number]) == Some(entries)
    {
      var line := lines[number];
      ListingNext(ReadLine, lines, number);
      if !ListsFile(line) {
        issues := issues + 1;
      } else if !SafeRelative(line[66..]) {
        issues := issues + 1;
      } else if line[66..] in entries {
        issues := issues + 1;
      } else {
        entries := entries[line[66..] := Token(line[..64])];
      }
    }
    assert lines[..|lines|] == lines;
  }

  lemma {:induction false} SplitTerminated(kind: Splitting, lines: seq<string>)
    requires forall i :: 0 <= i < |lines| ==> NoBreak(kind, lines[i])
    ensures SplitLines(kind, Terminated(lines)) == lines
  {
    if lines != [] {
      SplitFirst(kind, lines[0], Terminated(lines[1..]));
      SplitTerminated(kind, lines[1..]);
      assert Terminated(lines) == lines[0] + "\n" + Terminated(lines[1..]);
    }
  }

  lemma SplitFirst(kind: Splitting, line: string, rest: string)
    requires NoBreak(kind, line)
    ensures SplitLines(kind, line + "\n" + rest) == [line] + SplitLines(kind, rest)
  {
    var text, k := line + "\n" + rest, |line|;
    assert forall i :: 0 <= i < k ==> text[i] == line[i];
    LineLengthIs(kind, text, k);
    assert text[..k] == line && text[k + 1..] == rest;
  }

  lemma {:induction false} SplitHasNoBreak(kind: Splitting, raw: string)
    ensures forall i :: 0 <= i < |SplitLines(kind, raw)| ==> NoBreak(kind, SplitLines(kind, raw)[i])
    decreases |raw|
  {
    LineLengthFacts(kind, raw);
    var k := LineLength(kind, raw);
    if k < |raw| {
      SplitHasNoBreak(kind, raw[AfterBreak(raw, k)..]);
    }
  }

  function ManifestLines<F>(hash: F -> Token, files: map<string, F>): set<string> {
    set p | p in files :: RenderLine(hash(files[p]), p)
  }

  /** _manifest_lines, joined and terminated. */
  function ManifestText<F>(hash: F -> Token, files: map<string, F>): string {
    if files == map[] then "\n" else Terminated(SortedStrings(ManifestLines(hash, files)))
  }

  function Digests<F>(hash: F -> Token, files: map<string, F>): map<string, Token> {
    map p | p in files :: hash(files[p])
  }

  lemma RenderedLine(digest: Token, path: string)
    requires IsSha256(digest)
    ensures SafeRelative(path) ==> ReadLine(RenderLine(digest, path)) == Some(Item(path, digest))
    ensures Printable(path) ==> NoBreak(TextSplitting, RenderLine(digest, path))
  {
    var line := RenderLine(digest, path);
    assert line[..64] == digest.text && line[64..66] == "  " && line[66..] == path;
  }

  lemma ReadLineIsSafe(line: string)
    requires NoBreak(TextSplitting, line) && ReadLine(line).Some?
    ensures SafeRelative(ReadLine(line).value.path) && Printable(ReadLine(line).value.path)
  {
  }

  ghost predicate ProducesDigests<F>(hash: F -> Token, files: map<string, F>) {
    forall p :: p in files ==> IsSha256(hash(files[p]))
  }

  /** Paths read from unbroken lines are safe and printable. */
  lemma ListedPathsSafe(lines: seq<string>)
    requires forall i :: 0 <= i < |lines| ==> NoBreak(TextSplitting, lines[i])
    requires Listing(ReadLine, lines).Some?
    ensures forall p :: p in Listing(ReadLine, lines).value ==> SafeRelative(p) && Printable(p)
  {
    ListingMeans(ReadLine, lines);
    forall p | p in Listing(ReadLine, lines).value ensures SafeRelative(p) && Printable(p) {
      var i :| 0 <= i < |lines| && ReadLine(lines[i]).value.path == p;
      ReadLineIsSafe(lines[i]);
    }
  }

  ghost predicate AllPrintable<F(!new)>(files: map<string, F>) {
    forall p :: p in files ==> SafeRelative(p) && Printable(p)
  }

  /** The line of one file. */
  ghost predicate LineOf<F>(hash: F -> Token, files: map<string, F>, line: string, p: string) {
    p in files && line == RenderLine(hash(files[p]), p) && ReadLine(line) == Some(Item(p, hash(files[p])))
  }

  lemma PrintedLine<F(!new)>(hash: F -> Token, files: map<string, F>, line: string)
    requires ProducesDigests(hash, files) && AllPrintable(files) && line in ManifestLines(hash, files)
    ensures NoBreak(TextSplitting, line) && exists p :: LineOf(hash, files, line, p)
  {
    var p :| p in files && line == RenderLine(hash(files[p]), p);
    RenderedLine(hash(files[p]), p);
    assert LineOf(hash, files, line, p);
  }

  lemma PrintedFile<F(!new)>(hash: F -> Token, files: map<string, F>, lines: seq<string>, p: string)
    requires ProducesDigests(hash, files) && AllPrintable(files) && p in files
    requires forall line :: line in lines <==> line in ManifestLines(hash, files)
    ensures exists i :: 0 <= i < |lines| && ReadLine(lines[i]) == Some(Item(p, Digests(hash, files)[p]))
  {
    var line := RenderLine(hash(files[p]), p);
    assert line in ManifestLines(hash, files) && line in lines;
    var i :| 0 <= i < |lines| && lines[i] == line;
    RenderedLine(hash(files[p]), p);
  }

  lemma PrintedLines<F(!new)>(hash: F -> Token, files: map<string, F>)
    requires ProducesDigests(hash, files) && AllPrintable(files)
    ensures var lines := SortedStrings(ManifestLines(hash, files));
            && (forall i :: 0 <= i < |lines| ==> NoBreak(TextSplitting, lines[i]))
            && Listing(ReadLine, lines) == Some(Digests(hash, files))
  {
    var lines, digests := SortedStrings(ManifestLines(hash, files)), Digests(hash, files);
    SortedStringsFacts(ManifestLines(hash, files));
    StringLessIsStrictTotal();
    forall i | 0 <= i < |lines|
      ensures NoBreak(TextSplitting, lines[i]) && exists p :: LineOf(hash, files, lines[i], p)
    {
      assert lines[i] in lines;
      PrintedLine(hash, files, lines[i]);
    }
    forall i, j | 0 <= i < j < |lines| ensures ReadLine(lines[i]) != ReadLine(lines[j]) {
      assert StringLess(lines[i], lines[j]);
    }
    forall p | p in digests
      ensures exists i :: 0 <= i < |lines| && ReadLine(lines[i]) == Some(Item(p, digests[p]))
    {
      PrintedFile(hash, files, lines, p);
    }
    ListingOf(ReadLine, lines, digests);
  }

  /** Printing a bundle's manifest and reading it back gives the digest of every
      file - exactly when every file name is safe and fits on one line. */
  lemma ManifestRoundTrip<F(!new)>(hash: F -> Token, files: map<string, F>)
    requires ProducesDigests(hash, files) && files != map[]
    ensures Listing(ReadLine, SplitLines(TextSplitting, ManifestText(hash, files))) == Some(Digests(hash, files)) <==>
              AllPrintable(files)
  {
    var text := ManifestText(hash, files);
    var read := Listing(ReadLine, SplitLines(TextSplitting, text));
    if AllPrintable(files) {
      PrintedLines(hash, files);
      SplitTerminated(TextSplitting, SortedStrings(ManifestLines(hash, files)));
    }
    if read == Some(Digests(hash, files)) {
      SplitHasNoBreak(TextSplitting, text);
      ListedPathsSafe(SplitLines(TextSplitting, text));
      assert forall p :: p in files ==> p in Digests(hash, files);
    }
  }
}
