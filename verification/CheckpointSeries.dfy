/** The checkpoint series: a second signed hash chain whose entries pin ever later
    heads of the acceptance ledger. */
module CheckpointSeries {
  import opened Prelude
  import opened HashChain
  import opened Ordering
  import opened SlotDirectory
  import opened AcceptanceLedger

  datatype SeriesEntry = SeriesEntry(
    format: Format,
    generation: int,
    previous: Token,
    createdAt: int,
    requester: PublicKey,
    head: LedgerHead)

  datatype SeriesSignature = SignedEntry(key: PublicKey, entry: SeriesEntry) | UnsignedEntry(text: string)

  datatype SeriesEnvelope = SeriesEnvelope(format: Format, entry: SeriesEntry, signature: SeriesSignature)

  /** A checkpoint file's bytes, as for receipts. */
  datatype CheckpointFile = CheckpointFile(layout: nat, envelope: Option<SeriesEnvelope>) {
    function Previous(): Token {
      if envelope.Some? then envelope.value.entry.previous else Token("")
    }

    function Generation(): int {
      if envelope.Some? then envelope.value.entry.generation else 0
    }

    function ReceiptCount(): int {
      if envelope.Some? then envelope.value.entry.head.receiptCount else 0
    }
  }

  type CheckpointHash = CheckpointFile -> Token

  datatype SeriesDirectory = SeriesDirectory(
    names: set<TopName>,
    metadata: Option<ChainMetadata>,
    embeddedKey: Option<PublicKey>,
    checkpoints: Directory<CheckpointFile>)

  /** The checks on one checkpoint at its position in the sorted directory. */
  predicate CheckpointPasses(
    key: PublicKey, file: CheckpointFile, position: int, previous: Token, previousCount: int)
  {
    && file.envelope.Some?
    && var envelope := file.envelope.value;
    && envelope.format == SeriesEnvelopeFormat
    && envelope.entry.format == SeriesEntryFormat
    && envelope.entry.generation == position
    && envelope.entry.previous == previous
    && envelope.entry.requester == key
    && envelope.signature == SignedEntry(key, envelope.entry)
    && envelope.entry.head.receiptCount > previousCount
    && IsSha256(envelope.entry.head.headReceipt)
    && IsHex(envelope.entry.head.headRequest.text, 32)
    && IsSha256(envelope.entry.head.headResponse)
  }

  /** The receipt count that the checkpoint at position i must exceed. */
  function CountBefore(files: seq<CheckpointFile>, i: nat): int
    requires i <= |files|
  {
    if i == 0 then 0 else files[i - 1].ReceiptCount()
  }

  /** Contiguous generations, hash-chained, requester-signed, counts increasing. */
  ghost predicate ValidCheckpoints(hash: CheckpointHash, key: PublicKey, files: seq<CheckpointFile>) {
    forall i {:trigger CheckpointPassesAt(hash, key, files, i)} :: 0 <= i < |files| ==>
      CheckpointPassesAt(hash, key, files, i)
  }

  predicate CheckpointPassesAt(hash: CheckpointHash, key: PublicKey, files: seq<CheckpointFile>, i: nat)
    requires i < |files|
  {
    CheckpointPasses(key, files[i], i + 1, LinkAt(hash, files, i), CountBefore(files, i))
  }

  lemma ValidCheckpointsPrefix(hash: CheckpointHash, key: PublicKey, files: seq<CheckpointFile>, k: nat)
    requires ValidCheckpoints(hash, key, files) && k <= |files|
    ensures ValidCheckpoints(hash, key, files[..k])
  {
    forall i: nat | i < k ensures CheckpointPassesAt(hash, key, files[..k], i) {
      assert CheckpointPassesAt(hash, key, files, i);
    }
  }

  predicate ContinuesSeries(hash: CheckpointHash, key: PublicKey, files: seq<CheckpointFile>, file: CheckpointFile) {
    CheckpointPasses(key, file, |files| + 1, HeadHash(hash, files), CountBefore(files, |files|))
  }

  lemma ValidCheckpointsExtend(hash: CheckpointHash, key: PublicKey, files: seq<CheckpointFile>, file: CheckpointFile)
    requires ValidCheckpoints(hash, key, files) && ContinuesSeries(hash, key, files, file)
    ensures ValidCheckpoints(hash, key, files + [file])
  {
    var longer := files + [file];
    forall i: nat | i < |longer|
      ensures CheckpointPassesAt(hash, key, longer, i)
    {
      if i < |files| {
        assert CheckpointPassesAt(hash, key, files, i);
        assert longer[i] == files[i];
        assert LinkAt(hash, longer, i) == LinkAt(hash, files, i);
        assert CountBefore(longer, i) == CountBefore(files, i);
      }
    }
  }

  lemma ValidCheckpointsLast(hash: CheckpointHash, key: PublicKey, files: seq<CheckpointFile>, file: CheckpointFile)
    requires ValidCheckpoints(hash, key, files + [file])
    ensures ContinuesSeries(hash, key, files, file)
  {
    var longer := files + [file];
    var n := |files|;
    assert CheckpointPassesAt(hash, key, longer, n);
    assert n > 0 ==> longer[n - 1] == files[n - 1];
  }

  /** Receipt counts rise strictly along a valid series. */
  lemma {:induction false} CountsIncrease(
    hash: CheckpointHash, key: PublicKey, files: seq<CheckpointFile>, i: nat, j: nat)
    requires ValidCheckpoints(hash, key, files) && i < j < |files|
    ensures 0 < files[i].ReceiptCount() < files[j].ReceiptCount()
    decreases j
  {
    assert CheckpointPassesAt(hash, key, files, j);
    if j == i + 1 {
      CountPositive(hash, key, files, i);
    } else {
      CountsIncrease(hash, key, files, i, j - 1);
    }
  }

  lemma {:induction false} CountPositive(hash: CheckpointHash, key: PublicKey, files: seq<CheckpointFile>, i: nat)
    requires ValidCheckpoints(hash, key, files) && i < |files|
    ensures files[i].envelope.Some? && files[i].ReceiptCount() > 0
  {
    assert CheckpointPassesAt(hash, key, files, i);
    if i > 0 {
      CountPositive(hash, key, files, i - 1);
    }
  }

  /** Two valid series with the same head digest at generation k agree up to k. */
  lemma SeriesHeadPinsPrefix(
    hash: CheckpointHash, key: PublicKey, a: seq<CheckpointFile>, b: seq<CheckpointFile>, k: nat)
    requires ValidCheckpoints(hash, key, a) && ValidCheckpoints(hash, key, b)
    requires 0 < k <= |a| && k <= |b| && hash(a[k - 1]) == hash(b[k - 1])
    ensures a[..k] == b[..k] || CollisionBetween(hash, a, b)
  {
    var previous := (f: CheckpointFile) => f.Previous();
    assert Linked(hash, previous, a) && Linked(hash, previous, b) by {
      forall i | 0 <= i < |a| ensures previous(a[i]) == LinkAt(hash, a, i) {
        assert CheckpointPassesAt(hash, key, a, i);
      }
      forall i | 0 <= i < |b| ensures previous(b[i]) == LinkAt(hash, b, i) {
        assert CheckpointPassesAt(hash, key, b, i);
      }
    }
    SameDigestSamePrefix(hash, previous, a, b, k);
  }

  datatype SeriesReport = SeriesReport(
    passed: bool, entries: seq<SeriesEntry>, headCheckpoint: Token)

  predicate SeriesHeaderPasses(key: PublicKey, series: SeriesDirectory) {
    && series.names == TOP_LEVEL
    && series.embeddedKey == Some(key)
    && series.metadata == Some(ChainMetadata(SeriesFormat, key))
  }

  ghost predicate SeriesPasses(hash: CheckpointHash, key: PublicKey, series: SeriesDirectory) {
    && SeriesHeaderPasses(key, series)
    && series.checkpoints.others == {}
    && ValidCheckpoints(hash, key, Files(series.checkpoints))
  }

  /** initialize_checkpoint_series: the header and no checkpoint. */
  function NewSeries(key: PublicKey): SeriesDirectory {
    SeriesDirectory(TOP_LEVEL, Some(ChainMetadata(SeriesFormat, key)), Some(key), Directory(map[], {}))
  }

  /** A new series passes, and nothing passes but such a series with checkpoints in it. */
  lemma OnlyInitialisedSeriesPasses(hash: CheckpointHash, key: PublicKey, series: SeriesDirectory)
    ensures SeriesPasses(hash, key, NewSeries(key))
    ensures SeriesPasses(hash, key, series) ==>
              && series == NewSeries(key).(checkpoints := Directory(series.checkpoints.slots, {}))
              && ValidCheckpoints(hash, key, Files(series.checkpoints))
  {
    assert Contiguous(NewSeries(key).checkpoints, 0);
    ContiguousFiles(NewSeries(key).checkpoints, 0);
  }

  /** The report lists exactly these checkpoints. */
  ghost predicate Lists(hash: CheckpointHash, report: SeriesReport, files: seq<CheckpointFile>) {
    && |report.entries| == |files|
    && (forall i :: 0 <= i < |files| ==>
          files[i].envelope.Some? && report.entries[i] == files[i].envelope.value.entry)
    && report.headCheckpoint == HeadHash(hash, files)
  }

  lemma ListsExtend(hash: CheckpointHash, report: SeriesReport, files: seq<CheckpointFile>, file: CheckpointFile)
    requires Lists(hash, report, files) && file.envelope.Some?
    ensures Lists(
              hash, SeriesReport(report.passed, report.entries + [file.envelope.value.entry], hash(file)),
              files + [file])
  {
  }

  /** The loop over the sorted checkpoints stops at the first that fails. */
  method VerifyCheckpoints(hash: CheckpointHash, key: PublicKey, files: seq<CheckpointFile>)
    returns (report: SeriesReport)
    ensures |report.entries| <= |files|
    ensures ValidCheckpoints(hash, key, files[..|report.entries|])
    ensures Lists(hash, report, files[..|report.entries|])
    ensures |report.entries| < |files| ==> !ValidCheckpoints(hash, key, files[..|report.entries| + 1])
    ensures report.passed <==> |report.entries| == |files|
    ensures report.passed <==> ValidCheckpoints(hash, key, files)
  {
    report := SeriesReport(true, [], ZERO_HASH);
    var previousCount := 0;
    while |report.entries| < |files| && report.passed
      invariant |report.entries| <= |files|
      invariant ValidCheckpoints(hash, key, files[..|report.entries|])
      invariant Lists(hash, report, files[..|report.entries|])
      invariant previousCount == CountBefore(files, |report.entries|)
      invariant !report.passed ==>
                  |report.entries| < |files| && !ValidCheckpoints(hash, key, files[..|report.entries| + 1])
      decreases |files| - |report.entries|, report.passed
    {
      ghost var k := |report.entries|;
      var file := files[|report.entries|];
      assert files[..k + 1] == files[..k] + [file];
      if CheckpointPasses(key, file, |report.entries| + 1, report.headCheckpoint, previousCount) {
        ValidCheckpointsExtend(hash, key, files[..k], file);
        ListsExtend(hash, report, files[..k], file);
        previousCount := file.ReceiptCount();
        report := SeriesReport(true, report.entries + [file.envelope.value.entry], hash(file));
      } else {
        if ValidCheckpoints(hash, key, files[..k] + [file]) {
          ValidCheckpointsLast(hash, key, files[..k], file);
          assert false;
        }
        report := report.(passed := false);
      }
    }
    assert files[..|files|] == files;
    if |report.entries| < |files| && ValidCheckpoints(hash, key, files) {
      ValidCheckpointsPrefix(hash, key, files, |report.entries| + 1);
      assert false;
    }
  }

  /** Passes exactly when the series directory does. */
  method VerifyCheckpointSeries(hash: CheckpointHash, key: PublicKey, series: SeriesDirectory)
    returns (report: SeriesReport)
    ensures report.passed <==> SeriesPasses(hash, key, series)
    ensures report.passed ==> Lists(hash, report, Files(series.checkpoints))
  {
    var passed := series.names == TOP_LEVEL;
    var files: seq<CheckpointFile> := [];
    var listing := Listing(series.checkpoints);
    if series.embeddedKey.None? || series.metadata.None? || listing.None? {
      passed := false;
    } else {
      passed := passed && SeriesHeaderPasses(key, series);
      files := listing.value;
    }
    var walked := VerifyCheckpoints(hash, key, files);
    report := walked.(passed := passed && walked.passed);
    assert walked.passed ==> files[..|files|] == files;
  }

  /** The newest pin of a series, if it has one. */
  function LatestPin(files: seq<CheckpointFile>): Option<LedgerHead> {
    if files == [] || files[|files| - 1].envelope.None? then None
    else Some(files[|files| - 1].envelope.value.entry.head)
  }

  /** The checkpoint appended on top of a verified series for a verified ledger. */
  function NextCheckpoint(
    hash: CheckpointHash, receiptHash: ReceiptHash, key: PublicKey,
    files: seq<CheckpointFile>, ledger: seq<ReceiptFile>, createdAt: int): CheckpointFile
    requires ledger != []
  {
    Continuation(hash, key, files, createdAt, HeadOf(receiptHash, ledger))
  }

  /** The checkpoint of this pin on top of these files. */
  function Continuation(
    hash: CheckpointHash, key: PublicKey, files: seq<CheckpointFile>, createdAt: int, head: LedgerHead): CheckpointFile
  {
    CheckpointFor(key, |files| + 1, HeadHash(hash, files), createdAt, head)
  }

  function CheckpointFor(
    key: PublicKey, generation: int, previous: Token, createdAt: int, head: LedgerHead): CheckpointFile
  {
    var entry := SeriesEntry(SeriesEntryFormat, generation, previous, createdAt, key, head);
    CheckpointFile(0, Some(SeriesEnvelope(SeriesEnvelopeFormat, entry, SignedEntry(key, entry))))
  }

  /** The ledger offers the series something new: it meets the newest pin and holds
      more receipts than the pin names. */
  predicate Advances(receiptHash: ReceiptHash, files: seq<CheckpointFile>, ledger: seq<ReceiptFile>)
    requires LatestPin(files).Some? ==> LatestPin(files).value.receiptCount >= 1
  {
    && ledger != []
    && (LatestPin(files).Some? ==>
          && MeetsMinimum(receiptHash, ledger, LatestPin(files).value)
          && LatestPin(files).value.receiptCount < |ledger|)
  }

  lemma LatestPinPositive(hash: CheckpointHash, key: PublicKey, files: seq<CheckpointFile>)
    requires ValidCheckpoints(hash, key, files)
    ensures files != [] ==> LatestPin(files).Some?
    ensures LatestPin(files).Some? ==> LatestPin(files).value.receiptCount >= 1
    ensures CountBefore(files, |files|) == if LatestPin(files).Some? then LatestPin(files).value.receiptCount else 0
  {
    if files != [] {
      CountPositive(hash, key, files, |files| - 1);
    }
  }

  /** What append builds always continues the series it was built on. */
  lemma NextCheckpointContinues(
    hash: CheckpointHash, receiptHash: ReceiptHash, key: PublicKey,
    files: seq<CheckpointFile>, ledger: seq<ReceiptFile>, createdAt: int)
    requires ProducesSha256(receiptHash)
    requires ValidCheckpoints(hash, key, files) && ValidReceipts(receiptHash, key, ledger)
    requires LatestPin(files).Some? ==> LatestPin(files).value.receiptCount >= 1
    requires Advances(receiptHash, files, ledger)
    ensures ContinuesSeries(hash, key, files, NextCheckpoint(hash, receiptHash, key, files, ledger, createdAt))
  {
    LatestPinPositive(hash, key, files);
    var last := |ledger| - 1;
    assert ReceiptPassesAt(receiptHash, key, ledger, last);
  }

  /** A pin that may follow one for this many receipts. */
  predicate WellFormedPin(head: LedgerHead, previousCount: int) {
    && head.receiptCount > previousCount
    && IsSha256(head.headReceipt) && IsHex(head.headRequest.text, 32) && IsSha256(head.headResponse)
  }

  /** The verifier takes as the next checkpoint nothing but what the requester signs for
      some pin beyond the newest one, in any layout. */
  lemma OnlyNextCheckpointContinues(
    hash: CheckpointHash, key: PublicKey, files: seq<CheckpointFile>, file: CheckpointFile)
    ensures ContinuesSeries(hash, key, files, file) <==>
              exists createdAt, head ::
                && WellFormedPin(head, CountBefore(files, |files|))
                && SignedAs(file, Continuation(hash, key, files, createdAt, head))
  {
    if ContinuesSeries(hash, key, files, file) {
      var entry := file.envelope.value.entry;
      assert WellFormedPin(entry.head, CountBefore(files, |files|));
      assert SignedAs(file, Continuation(hash, key, files, entry.createdAt, entry.head));
    }
  }

  /** The same signed envelope, laid out in any way. */
  predicate SignedAs(file: CheckpointFile, other: CheckpointFile) {
    file.envelope == other.envelope
  }

  datatype AppendOutcome =
    | Appended(generation: nat)
    | SeriesInvalid
    | LedgerRejected
    | NothingNew
    | SeriesChangedConcurrently
    | AppendedUnverified

  /** The end of an append: link the new file and verify the series again. */
  ghost function PublishedCheckpoint(
    hash: CheckpointHash, key: PublicKey, series: SeriesDirectory, file: CheckpointFile)
    : (SeriesDirectory, AppendOutcome)
  {
    var n := |Files(series.checkpoints)|;
    match LinkExclusive(series.checkpoints, n + 1, file)
    case None => (series, SeriesChangedConcurrently)
    case Some(checkpoints) =>
      var published := series.(checkpoints := checkpoints);
      if SeriesPasses(hash, key, published) && |Files(checkpoints)| == n + 1
      then (published, Appended(n + 1))
      else (published, AppendedUnverified)
  }

  /** What append_acceptance_checkpoint_series does to a series nobody else writes. */
  ghost function Append(
    hash: CheckpointHash, receiptHash: ReceiptHash, key: PublicKey,
    series: SeriesDirectory, ledger: LedgerDirectory, createdAt: int): (SeriesDirectory, AppendOutcome)
  {
    var files := Files(series.checkpoints);
    var receipts := Files(ledger.receipts);
    if !SeriesPasses(hash, key, series) then (series, SeriesInvalid)
    else
      LatestPinPositive(hash, key, files);
      var pin := LatestPin(files);
      if !LedgerPasses(receiptHash, key, ledger, pin) then (series, LedgerRejected)
      else if receipts == [] || (pin.Some? && |receipts| <= pin.value.receiptCount) then (series, NothingNew)
      else PublishedCheckpoint(hash, key, series, NextCheckpoint(hash, receiptHash, key, files, receipts, createdAt))
  }

  /** In a verified series, files follow their names in the order of generations. */
  lemma GenerationsFollowNames(
    hash: CheckpointHash, key: PublicKey, d: Directory<CheckpointFile>, p: nat, k: nat)
    requires ValidCheckpoints(hash, key, Files(d)) && p in d.slots && k in d.slots && p < k
    ensures d.slots[p].Generation() < d.slots[k].Generation() <= |Files(d)|
  {
    SortedNatsFacts(d.slots.Keys);
    var order := SortedNats(d.slots.Keys);
    assert p in order && k in order;
    var i :| 0 <= i < |order| && order[i] == p;
    var j :| 0 <= j < |order| && order[j] == k;
    assert Ascending(NatLess, order) && i != j;
    assert CheckpointPassesAt(hash, key, Files(d), i) && CheckpointPassesAt(hash, key, Files(d), j);
  }

  lemma GenerationWithin(hash: CheckpointHash, key: PublicKey, d: Directory<CheckpointFile>, k: nat)
    requires ValidCheckpoints(hash, key, Files(d)) && k in d.slots
    ensures 1 <= d.slots[k].Generation() <= |Files(d)|
  {
    SortedNatsFacts(d.slots.Keys);
    var order := SortedNats(d.slots.Keys);
    assert k in order;
    var i :| 0 <= i < |order| && order[i] == k;
    assert CheckpointPassesAt(hash, key, Files(d), i);
  }

  /** Once a file of the next generation is linked below a name of a verified series,
      no directory that holds them all verifies, whatever else is added. */
  lemma LinkedBelowNeverPasses(
    hash: CheckpointHash, key: PublicKey, d: Directory<CheckpointFile>, after: Directory<CheckpointFile>,
    p: nat, k: nat)
    requires ValidCheckpoints(hash, key, Files(d)) && k in d.slots && p < k
    requires forall m :: m in d.slots ==> m in after.slots && after.slots[m] == d.slots[m]
    requires p in after.slots && after.slots[p].Generation() == |Files(d)| + 1
    ensures !ValidCheckpoints(hash, key, Files(after))
  {
    GenerationWithin(hash, key, d, k);
    if ValidCheckpoints(hash, key, Files(after)) {
      GenerationsFollowNames(hash, key, after, p, k);
      assert false;
    }
  }

  /** When the series still verifies after a continuing checkpoint was linked. */
  lemma LinkNeedsLowNames(
    hash: CheckpointHash, key: PublicKey, series: SeriesDirectory, file: CheckpointFile)
    requires SeriesPasses(hash, key, series) && ContinuesSeries(hash, key, Files(series.checkpoints), file)
    ensures var n := |Files(series.checkpoints)|;
            var linked := LinkExclusive(series.checkpoints, n + 1, file);
            && (linked.Some? && SeriesPasses(hash, key, series.(checkpoints := linked.value)) <==>
                  n < MAX_SLOT && forall k :: k in series.checkpoints.slots ==> k <= n)
            && (linked.Some? && SeriesPasses(hash, key, series.(checkpoints := linked.value)) ==>
                  Files(linked.value) == Files(series.checkpoints) + [file])
  {
    var files := Files(series.checkpoints);
    var n := |files|;
    if n < MAX_SLOT && n + 1 !in series.checkpoints.slots {
      var linked := series.checkpoints.(slots := series.checkpoints.slots[n + 1 := file]);
      if k :| k in series.checkpoints.slots && k > n {
        LinkedBelowNeverPasses(hash, key, series.checkpoints, linked, n + 1, k);
      } else {
        LinkAtEnd(series.checkpoints, n + 1, file);
        ValidCheckpointsExtend(hash, key, files, file);
      }
    }
  }

  /** The counterpart of AcceptNeedsLowNames: a verified series takes the next
      checkpoint of an advancing ledger exactly when no name in it is above its
      checkpoint count and eight digits can print the next one. Then the checkpoint
      is appended at the end and the series still verifies. */
  lemma AppendNeedsLowNames(
    hash: CheckpointHash, receiptHash: ReceiptHash, key: PublicKey,
    series: SeriesDirectory, ledger: LedgerDirectory, createdAt: int)
    requires ProducesSha256(receiptHash) && SeriesPasses(hash, key, series)
    requires var pin := LatestPin(Files(series.checkpoints));
             && (pin.Some? ==> pin.value.receiptCount >= 1)
             && LedgerPasses(receiptHash, key, ledger, pin)
    requires Advances(receiptHash, Files(series.checkpoints), Files(ledger.receipts))
    ensures var (after, outcome) := Append(hash, receiptHash, key, series, ledger, createdAt);
            var files, receipts := Files(series.checkpoints), Files(ledger.receipts);
            && (outcome.Appended? <==>
                  |files| < MAX_SLOT && forall k :: k in series.checkpoints.slots ==> k <= |files|)
            && (outcome.Appended? ==>
                  && outcome.generation == |files| + 1 && SeriesPasses(hash, key, after)
                  && Files(after.checkpoints)
                     == files + [NextCheckpoint(hash, receiptHash, key, files, receipts, createdAt)])
  {
    var files, receipts := Files(series.checkpoints), Files(ledger.receipts);
    NextCheckpointContinues(hash, receiptHash, key, files, receipts, createdAt);
    LinkNeedsLowNames(hash, key, series, NextCheckpoint(hash, receiptHash, key, files, receipts, createdAt));
  }

  /** The series of init, append and build, named 1..n, grows by the checkpoint of an
      advancing ledger exactly while eight digits can print the next generation; with
      more digits the published file makes every later verification fail. */
  lemma AppendRecordsLedger(
    hash: CheckpointHash, receiptHash: ReceiptHash, key: PublicKey,
    series: SeriesDirectory, ledger: LedgerDirectory, createdAt: int, n: nat)
    requires ProducesSha256(receiptHash) && SeriesPasses(hash, key, series) && Contiguous(series.checkpoints, n)
    requires var pin := LatestPin(Files(series.checkpoints));
             && (pin.Some? ==> pin.value.receiptCount >= 1)
             && LedgerPasses(receiptHash, key, ledger, pin)
    requires Advances(receiptHash, Files(series.checkpoints), Files(ledger.receipts))
    ensures var (after, outcome) := Append(hash, receiptHash, key, series, ledger, createdAt);
            var files, receipts := Files(series.checkpoints), Files(ledger.receipts);
            && (outcome.Appended? <==> n < MAX_SLOT)
            && (outcome.Appended? ==>
                  && Contiguous(after.checkpoints, n + 1) && SeriesPasses(hash, key, after)
                  && Files(after.checkpoints)
                     == files + [NextCheckpoint(hash, receiptHash, key, files, receipts, createdAt)])
            && (!outcome.Appended? ==>
                  after.checkpoints.slots == series.checkpoints.slots && after.checkpoints.others != {})
  {
    ContiguousFiles(series.checkpoints, n);
    AppendNeedsLowNames(hash, receiptHash, key, series, ledger, createdAt);
  }

  /** A series that does not verify is left alone. One that does and is named 1..n is
      extended exactly for a ledger that meets its newest pin and goes beyond it; in
      every other case it stays as it is, and in all cases it still verifies. */
  lemma AppendKeepsPassing(
    hash: CheckpointHash, receiptHash: ReceiptHash, key: PublicKey,
    series: SeriesDirectory, ledger: LedgerDirectory, createdAt: int, n: nat)
    requires ProducesSha256(receiptHash) && Contiguous(series.checkpoints, n) && n < MAX_SLOT
    ensures var (after, outcome) := Append(hash, receiptHash, key, series, ledger, createdAt);
            if !SeriesPasses(hash, key, series) then after == series && outcome == SeriesInvalid
            else
              var files, pin := Files(series.checkpoints), LatestPin(Files(series.checkpoints));
              && (pin.Some? ==> pin.value.receiptCount >= 1)
              && SeriesPasses(hash, key, after) && files <= Files(after.checkpoints)
              && (if !LedgerPasses(receiptHash, key, ledger, pin) then outcome == LedgerRejected
                  else if !Advances(receiptHash, files, Files(ledger.receipts)) then outcome == NothingNew
                  else outcome == Appended(n + 1))
              && (outcome != Appended(n + 1) ==> after == series)
  {
    if SeriesPasses(hash, key, series) {
      var files, pin := Files(series.checkpoints), LatestPin(Files(series.checkpoints));
      LatestPinPositive(hash, key, files);
      ContiguousFiles(series.checkpoints, n);
      if LedgerPasses(receiptHash, key, ledger, pin) && Advances(receiptHash, files, Files(ledger.receipts)) {
        AppendRecordsLedger(hash, receiptHash, key, series, ledger, createdAt, n);
        AppendNeedsLowNames(hash, receiptHash, key, series, ledger, createdAt);
      }
    }
  }

  /** After a checkpoint was appended, the same ledger has nothing new. */
  lemma AppendTwice(
    hash: CheckpointHash, receiptHash: ReceiptHash, key: PublicKey,
    series: SeriesDirectory, ledger: LedgerDirectory, createdAt: int, later: int)
    requires ProducesSha256(receiptHash)
    requires Append(hash, receiptHash, key, series, ledger, createdAt).1.Appended?
    ensures var once := Append(hash, receiptHash, key, series, ledger, createdAt).0;
            Append(hash, receiptHash, key, once, ledger, later) == (once, NothingNew)
  {
    var files, receipts := Files(series.checkpoints), Files(ledger.receipts);
    var once := Append(hash, receiptHash, key, series, ledger, createdAt).0;
    LatestPinPositive(hash, key, files);
    AppendNeedsLowNames(hash, receiptHash, key, series, ledger, createdAt);
    var longer := Files(once.checkpoints);
    assert LatestPin(longer) == Some(HeadOf(receiptHash, receipts));
    assert MeetsMinimum(receiptHash, receipts, HeadOf(receiptHash, receipts));
  }

  class CheckpointStore {
    var series: SeriesDirectory

    constructor (directory: SeriesDirectory)
      ensures series == directory
    {
      series := directory;
    }

    /** append_acceptance_checkpoint_series. */
    method AppendCheckpoint(
      hash: CheckpointHash, receiptHash: ReceiptHash, key: PublicKey, ledger: LedgerDirectory, createdAt: int)
      returns (outcome: AppendOutcome)
      modifies this
      ensures (series, outcome) == Append(hash, receiptHash, key, old(series), ledger, createdAt)
    {
      var report := VerifyCheckpointSeries(hash, key, series);
      if !report.passed {
        return SeriesInvalid;
      }
      ghost var files := Files(series.checkpoints);
      LatestPinPositive(hash, key, files);
      var pin := if report.entries == [] then None else Some(report.entries[|report.entries| - 1].head);
      assert pin == LatestPin(files);
      var ledgerReport := VerifyAcceptanceLedger(receiptHash, key, ledger, pin);
      if !ledgerReport.passed {
        return LedgerRejected;
      }
      var prior := if pin.Some? then pin.value.receiptCount else 0;
      if |ledgerReport.entries| < 1 || |ledgerReport.entries| <= prior {
        return NothingNew;
      }
      var last := ledgerReport.entries[|ledgerReport.entries| - 1];
      var head := LedgerHead(
        |ledgerReport.entries|, |ledgerReport.entries|,
        ledgerReport.headReceipt, last.requestId, last.responseTree);
      var file := CheckpointFor(key, |report.entries| + 1, report.headCheckpoint, createdAt, head);
      assert file == NextCheckpoint(hash, receiptHash, key, files, Files(ledger.receipts), createdAt);
      outcome := PublishCheckpoint(hash, key, file, |report.entries|);
    }

    method PublishCheckpoint(hash: CheckpointHash, key: PublicKey, file: CheckpointFile, count: nat)
      returns (outcome: AppendOutcome)
      requires count == |Files(series.checkpoints)|
      modifies this
      ensures (series, outcome) == PublishedCheckpoint(hash, key, old(series), file)
    {
      var linked := LinkExclusive(series.checkpoints, count + 1, file);
      if linked.None? {
        return SeriesChangedConcurrently;
      }
      series := series.(checkpoints := linked.value);
      var final := VerifyCheckpointSeries(hash, key, series);
      if !final.passed || |final.entries| != count + 1 {
        return AppendedUnverified;
      }
      return Appended(count + 1);
    }
  }
}
