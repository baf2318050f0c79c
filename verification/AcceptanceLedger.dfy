/** The requester's acceptance ledger: a directory of signed receipts, each
    naming its predecessor's digest, one receipt per request. */
module AcceptanceLedger {
  import opened Prelude
  import opened HashChain
  import opened SlotDirectory

  /** The format tags the chain files carry; any other text is `UnknownFormat`. */
  datatype Format =
    | LedgerFormat
    | ReceiptFormat
    | ReceiptEnvelopeFormat
    | SeriesFormat
    | SeriesEntryFormat
    | SeriesEnvelopeFormat
    | TransferFormat
    | UnknownFormat(text: string)

  /** The names at the top of a ledger or series directory. */
  datatype TopName = MetadataFile | RequesterKeyFile | RecordsDirectory | StrayName(text: string)

  const TOP_LEVEL: set<TopName> := {MetadataFile, RequesterKeyFile, RecordsDirectory}

  /** A requester key; it doubles as the identity block that names it. */
  datatype PublicKey = PublicKey(keyId: string, material: string)

  /** The statement fields that verification reads; `details` stands for the rest. */
  datatype Receipt = Receipt(
    format: Format,
    sequence: int,
    previous: Token,
    requester: PublicKey,
    requestId: Token,
    responseTree: Token,
    details: string)

  /** Ideal Ed25519: only the holder of a key produces `SignedBy` with it. */
  datatype Signature = SignedBy(key: PublicKey, statement: Receipt) | Unsigned(text: string)

  datatype Envelope = Envelope(format: Format, statement: Receipt, signature: Signature)

  /** A file's bytes: what the JSON reader makes of them and how they are laid out.
      Two files are equal exactly when their bytes are. */
  datatype ReceiptFile = ReceiptFile(layout: nat, envelope: Option<Envelope>) {
    function Previous(): Token {
      if envelope.Some? then envelope.value.statement.previous else Token("")
    }

    function Sequence(): int {
      if envelope.Some? then envelope.value.statement.sequence else 0
    }

    function RequestId(): Token {
      if envelope.Some? then envelope.value.statement.requestId else Token("")
    }

    function ResponseTree(): Token {
      if envelope.Some? then envelope.value.statement.responseTree else Token("")
    }
  }

  type ReceiptHash = ReceiptFile -> Token

  datatype ChainMetadata = ChainMetadata(format: Format, requester: PublicKey)

  datatype LedgerDirectory = LedgerDirectory(
    names: set<TopName>,
    metadata: Option<ChainMetadata>,
    embeddedKey: Option<PublicKey>,
    receipts: Directory<ReceiptFile>)

  /** The checks on one receipt at its position in the sorted directory. */
  predicate ReceiptPasses(key: PublicKey, file: ReceiptFile, position: int, previous: Token) {
    && file.envelope.Some?
    && var envelope := file.envelope.value;
    && envelope.format == ReceiptEnvelopeFormat
    && envelope.statement.format == ReceiptFormat
    && envelope.statement.sequence == position
    && envelope.statement.previous == previous
    && envelope.statement.requester == key
    && envelope.signature == SignedBy(key, envelope.statement)
    && IsHex(envelope.statement.requestId.text, 32)
    && IsSha256(envelope.statement.responseTree)
  }

  ghost predicate OneReceiptPerRequest(files: seq<ReceiptFile>) {
    forall i, j :: 0 <= i < j < |files| ==> files[i].RequestId() != files[j].RequestId()
  }

  /** A contiguous, hash-chained, requester-signed run of receipts without a
      repeated request. */
  ghost predicate ValidReceipts(hash: ReceiptHash, key: PublicKey, files: seq<ReceiptFile>) {
    && (forall i {:trigger ReceiptPassesAt(hash, key, files, i)} :: 0 <= i < |files| ==>
          ReceiptPassesAt(hash, key, files, i))
    && OneReceiptPerRequest(files)
  }

  predicate ReceiptPassesAt(hash: ReceiptHash, key: PublicKey, files: seq<ReceiptFile>, i: nat)
    requires i < |files|
  {
    ReceiptPasses(key, files[i], i + 1, LinkAt(hash, files, i))
  }

  lemma ValidReceiptsPrefix(hash: ReceiptHash, key: PublicKey, files: seq<ReceiptFile>, k: nat)
    requires ValidReceipts(hash, key, files) && k <= |files|
    ensures ValidReceipts(hash, key, files[..k])
  {
    forall i: nat | i < k ensures ReceiptPassesAt(hash, key, files[..k], i) {
      assert ReceiptPassesAt(hash, key, files, i);
    }
  }

  /** What one more receipt must satisfy to keep the run valid. */
  ghost predicate Appendable(hash: ReceiptHash, key: PublicKey, files: seq<ReceiptFile>, file: ReceiptFile) {
    && ReceiptPasses(key, file, |files| + 1, HeadHash(hash, files))
    && forall i :: 0 <= i < |files| ==> files[i].RequestId() != file.RequestId()
  }

  lemma ValidReceiptsExtend(hash: ReceiptHash, key: PublicKey, files: seq<ReceiptFile>, file: ReceiptFile)
    requires ValidReceipts(hash, key, files) && Appendable(hash, key, files, file)
    ensures ValidReceipts(hash, key, files + [file])
  {
    var longer := files + [file];
    forall i: nat | i < |longer|
      ensures ReceiptPassesAt(hash, key, longer, i)
    {
      if i < |files| {
        assert ReceiptPassesAt(hash, key, files, i);
        assert longer[i] == files[i];
        assert LinkAt(hash, longer, i) == LinkAt(hash, files, i);
      }
    }
  }

  lemma ValidReceiptsLast(hash: ReceiptHash, key: PublicKey, files: seq<ReceiptFile>, file: ReceiptFile)
    requires ValidReceipts(hash, key, files + [file])
    ensures Appendable(hash, key, files, file)
  {
    var longer := files + [file];
    var n := |files|;
    assert ReceiptPassesAt(hash, key, longer, n);
    assert forall i :: 0 <= i < n ==> longer[i] == files[i];
  }

  lemma ValidReceiptsLinked(hash: ReceiptHash, key: PublicKey, files: seq<ReceiptFile>)
    requires ValidReceipts(hash, key, files)
    ensures Linked(hash, (f: ReceiptFile) => f.Previous(), files)
  {
    forall i | 0 <= i < |files| ensures files[i].Previous() == LinkAt(hash, files, i) {
      assert ReceiptPassesAt(hash, key, files, i);
    }
  }

  /** The pin a checkpoint puts on a ledger: how many receipts, and the last one. */
  datatype LedgerHead = LedgerHead(
    receiptCount: int,
    acceptedCount: int,
    headReceipt: Token,
    headRequest: Token,
    headResponse: Token)

  /** The pin issued for a non-empty verified ledger. */
  function HeadOf(hash: ReceiptHash, files: seq<ReceiptFile>): LedgerHead
    requires files != []
  {
    var last := files[|files| - 1];
    LedgerHead(|files|, |files|, hash(last), last.RequestId(), last.ResponseTree())
  }

  /** The pin was issued for a prefix of these receipts. */
  ghost predicate NamesPrefix(hash: ReceiptHash, head: LedgerHead, files: seq<ReceiptFile>) {
    1 <= head.receiptCount <= |files| && head == HeadOf(hash, files[..head.receiptCount])
  }

  /** The minimum-checkpoint check of ledger verification. */
  predicate MeetsMinimum(hash: ReceiptHash, files: seq<ReceiptFile>, minimum: LedgerHead)
    requires minimum.receiptCount >= 1
  {
    && minimum.receiptCount <= |files|
    && var pinned := files[minimum.receiptCount - 1];
    && hash(pinned) == minimum.headReceipt
    && pinned.RequestId() == minimum.headRequest
    && pinned.ResponseTree() == minimum.headResponse
  }

  /** No shortened, edited or forked ledger meets a checkpoint: a valid ledger
      meets the pin issued for an older valid ledger exactly when it extends that
      ledger, unless it exhibits a SHA-256 collision with it. */
  lemma CheckpointPinsLedger(hash: ReceiptHash, key: PublicKey, issued: seq<ReceiptFile>, current: seq<ReceiptFile>)
    requires ValidReceipts(hash, key, issued) && ValidReceipts(hash, key, current)
    requires issued != []
    ensures issued <= current ==> MeetsMinimum(hash, current, HeadOf(hash, issued))
    ensures MeetsMinimum(hash, current, HeadOf(hash, issued)) ==>
              |issued| <= |current| &&
              (issued <= current || CollisionBetween(hash, issued, current))
  {
    var k := |issued|;
    if MeetsMinimum(hash, current, HeadOf(hash, issued)) {
      ValidReceiptsLinked(hash, key, issued);
      ValidReceiptsLinked(hash, key, current);
      SameDigestSamePrefix(hash, (f: ReceiptFile) => f.Previous(), issued, current, k);
      assert issued[..k] == issued;
    }
  }

  datatype LedgerReport = LedgerReport(
    passed: bool,
    entries: seq<Receipt>,
    receiptHashes: seq<Token>,
    headReceipt: Token,
    accepted: map<Token, Token>)

  predicate HeaderPasses(key: PublicKey, ledger: LedgerDirectory) {
    && ledger.names == TOP_LEVEL
    && ledger.embeddedKey == Some(key)
    && ledger.metadata == Some(ChainMetadata(LedgerFormat, key))
  }

  /** What a verified ledger is: intact header, no stray name, valid receipts, and
      at least the minimum checkpoint. */
  ghost predicate LedgerPasses(
    hash: ReceiptHash, key: PublicKey, ledger: LedgerDirectory, minimum: Option<LedgerHead>)
    requires minimum.Some? ==> minimum.value.receiptCount >= 1
  {
    && HeaderPasses(key, ledger)
    && ledger.receipts.others == {}
    && ValidReceipts(hash, key, Files(ledger.receipts))
    && (minimum.Some? ==> MeetsMinimum(hash, Files(ledger.receipts), minimum.value))
  }

  /** initialize_ledger: the header and no receipt. */
  function NewLedger(key: PublicKey): LedgerDirectory {
    LedgerDirectory(TOP_LEVEL, Some(ChainMetadata(LedgerFormat, key)), Some(key), Directory(map[], {}))
  }

  /** A new ledger passes, and nothing passes but such a ledger with receipts in it. */
  lemma OnlyInitialisedLedgerPasses(
    hash: ReceiptHash, key: PublicKey, ledger: LedgerDirectory, minimum: Option<LedgerHead>)
    requires minimum.Some? ==> minimum.value.receiptCount >= 1
    ensures LedgerPasses(hash, key, NewLedger(key), None)
    ensures LedgerPasses(hash, key, ledger, minimum) ==>
              && ledger == NewLedger(key).(receipts := Directory(ledger.receipts.slots, {}))
              && ValidReceipts(hash, key, Files(ledger.receipts))
  {
    assert Contiguous(NewLedger(key).receipts, 0);
    ContiguousFiles(NewLedger(key).receipts, 0);
  }

  /** Which response each request was accepted with. */
  function AcceptedBy(files: seq<ReceiptFile>): map<Token, Token> {
    if files == [] then map[]
    else
      var last := files[|files| - 1];
      AcceptedBy(files[..|files| - 1])[last.RequestId() := last.ResponseTree()]
  }

  /** The map answers exactly for the recorded requests. */
  lemma {:induction false} AcceptedByFacts(files: seq<ReceiptFile>)
    requires OneReceiptPerRequest(files)
    ensures forall i :: 0 <= i < |files| ==>
              files[i].RequestId() in AcceptedBy(files) &&
              AcceptedBy(files)[files[i].RequestId()] == files[i].ResponseTree()
    ensures forall id :: id in AcceptedBy(files) ==>
              exists i :: 0 <= i < |files| && files[i].RequestId() == id
  {
    if files != [] {
      var n := |files| - 1;
      var init := files[..n];
      assert forall i :: 0 <= i < n ==> init[i] == files[i];
      AcceptedByFacts(init);
      forall id | id in AcceptedBy(files)
        ensures exists i :: 0 <= i < |files| && files[i].RequestId() == id
      {
        if id in AcceptedBy(init) {
          var i :| 0 <= i < n && init[i].RequestId() == id;
          assert files[i].RequestId() == id;
        } else {
          assert files[n].RequestId() == id;
        }
      }
    }
  }

  /** The report describes exactly these receipts. */
  ghost predicate Describes(hash: ReceiptHash, report: LedgerReport, files: seq<ReceiptFile>) {
    && |report.entries| == |report.receiptHashes| == |files|
    && (forall i :: 0 <= i < |files| ==>
          && report.receiptHashes[i] == hash(files[i])
          && files[i].envelope.Some?
          && report.entries[i] == files[i].envelope.value.statement)
    && report.headReceipt == HeadHash(hash, files)
    && report.accepted == AcceptedBy(files)
  }

  lemma DescribesExtend(hash: ReceiptHash, report: LedgerReport, files: seq<ReceiptFile>, file: ReceiptFile)
    requires Describes(hash, report, files) && file.envelope.Some?
    ensures Describes(
              hash,
              LedgerReport(
                report.passed,
                report.entries + [file.envelope.value.statement],
                report.receiptHashes + [hash(file)],
                hash(file),
                report.accepted[file.RequestId() := file.ResponseTree()]),
              files + [file])
  {
    var longer := files + [file];
    assert longer[..|longer| - 1] == files;
  }

  /** The verification loop. The report describes the longest valid run of
      receipts from the start; it passes exactly when the ledger does. */
  method VerifyAcceptanceLedger(
    hash: ReceiptHash, key: PublicKey, ledger: LedgerDirectory, minimum: Option<LedgerHead>)
    returns (report: LedgerReport)
    requires minimum.Some? ==> minimum.value.receiptCount >= 1
    ensures report.passed <==> LedgerPasses(hash, key, ledger, minimum)
    ensures ledger.receipts.others == {} && ledger.embeddedKey.Some? && ledger.metadata.Some? ==>
              var files := Files(ledger.receipts);
              var k := |report.entries|;
              && k <= |files|
              && ValidReceipts(hash, key, files[..k])
              && Describes(hash, report, files[..k])
              && (k < |files| ==> !ValidReceipts(hash, key, files[..k + 1]))
    ensures report.passed ==> Describes(hash, report, Files(ledger.receipts))
  {
    var passed := ledger.names == TOP_LEVEL;
    var files: seq<ReceiptFile> := [];
    var listing := Listing(ledger.receipts);
    if ledger.embeddedKey.None? || ledger.metadata.None? || listing.None? {
      passed := false;
    } else {
      passed := passed && HeaderPasses(key, ledger);
      files := listing.value;
    }
    var walked := VerifyReceipts(hash, key, files);
    passed := passed && walked.passed;
    if minimum.Some? {
      var count := minimum.value.receiptCount;
      if |walked.entries| < count {
        passed := false;
      } else if walked.receiptHashes[count - 1] != minimum.value.headReceipt {
        passed := false;
      } else if walked.entries[count - 1].requestId != minimum.value.headRequest
        || walked.entries[count - 1].responseTree != minimum.value.headResponse {
        passed := false;
      }
    }
    report := walked.(passed := passed);
    assert walked.passed ==> files[..|files|] == files;
  }

  /** The loop over the sorted receipts. */
  method VerifyReceipts(hash: ReceiptHash, key: PublicKey, files: seq<ReceiptFile>) returns (report: LedgerReport)
    ensures |report.entries| <= |files|
    ensures ValidReceipts(hash, key, files[..|report.entries|])
    ensures Describes(hash, report, files[..|report.entries|])
    ensures |report.entries| < |files| ==> !ValidReceipts(hash, key, files[..|report.entries| + 1])
    ensures report.passed <==> |report.entries| == |files|
    ensures report.passed <==> ValidReceipts(hash, key, files)
  {
    report := LedgerReport(true, [], [], ZERO_HASH, map[]);
    while |report.entries| < |files| && report.passed
      invariant |report.entries| <= |files|
      invariant ValidReceipts(hash, key, files[..|report.entries|])
      invariant Describes(hash, report, files[..|report.entries|])
      invariant !report.passed ==>
                  |report.entries| < |files| && !ValidReceipts(hash, key, files[..|report.entries| + 1])
      decreases |files| - |report.entries|, report.passed
    {
      ghost var k := |report.entries|;
      var file := files[|report.entries|];
      assert files[..k + 1] == files[..k] + [file];
      AcceptedByFacts(files[..k]);
      if ReceiptPasses(key, file, |report.entries| + 1, report.headReceipt)
        && file.RequestId() !in report.accepted
      {
        ValidReceiptsExtend(hash, key, files[..k], file);
        DescribesExtend(hash, report, files[..k], file);
        report := LedgerReport(
          true,
          report.entries + [file.envelope.value.statement],
          report.receiptHashes + [hash(file)],
          hash(file),
          report.accepted[file.RequestId() := file.ResponseTree()]);
      } else {
        if ValidReceipts(hash, key, files[..k] + [file]) {
          ValidReceiptsLast(hash, key, files[..k], file);
          assert false;
        }
        report := report.(passed := false);
      }
    }
    assert files[..|files|] == files;
    if |report.entries| < |files| && ValidReceipts(hash, key, files) {
      ValidReceiptsPrefix(hash, key, files, |report.entries| + 1);
      assert false;
    }
  }

  /** What an acceptor records: the request, the response bundle's identity, the
      remaining statement fields. */
  datatype Decision = Decision(requestId: Token, responseTree: Token, details: string)

  /** The receipt an acceptor builds on top of the ledger it verified. */
  function NextReceipt(hash: ReceiptHash, key: PublicKey, files: seq<ReceiptFile>, decision: Decision): ReceiptFile {
    ReceiptFor(key, |files| + 1, HeadHash(hash, files), decision)
  }

  /** Request verification and response hashing guarantee these shapes. */
  predicate WellFormedDecision(decision: Decision) {
    IsHex(decision.requestId.text, 32) && IsSha256(decision.responseTree)
  }

  lemma NextReceiptAppendable(hash: ReceiptHash, key: PublicKey, files: seq<ReceiptFile>, decision: Decision)
    requires WellFormedDecision(decision)
    requires forall i :: 0 <= i < |files| ==> files[i].RequestId() != decision.requestId
    ensures Appendable(hash, key, files, NextReceipt(hash, key, files, decision))
  {
  }

  ghost predicate Records(files: seq<ReceiptFile>, requestId: Token) {
    exists i :: 0 <= i < |files| && files[i].RequestId() == requestId
  }

  /** The verifier takes as the next receipt nothing but what an acceptor signs for
      some well-formed decision on a request not yet recorded, in any layout. */
  lemma OnlyNextReceiptAppends(hash: ReceiptHash, key: PublicKey, files: seq<ReceiptFile>, file: ReceiptFile)
    ensures Appendable(hash, key, files, file) <==>
              exists decision ::
                && WellFormedDecision(decision) && !Records(files, decision.requestId)
                && file.envelope == NextReceipt(hash, key, files, decision).envelope
  {
    if Appendable(hash, key, files, file) {
      var statement := file.envelope.value.statement;
      var decision := Decision(statement.requestId, statement.responseTree, statement.details);
      assert file.envelope == NextReceipt(hash, key, files, decision).envelope;
      assert WellFormedDecision(decision) && !Records(files, decision.requestId);
    }
  }

  datatype AcceptOutcome =
    | Accepted(sequence: nat)
    | LedgerInvalid
    | Replay
    | Equivocation
    | ChangedConcurrently
    | PublishedUnverified

  ghost predicate RecordsWith(files: seq<ReceiptFile>, requestId: Token, responseTree: Token) {
    exists i :: 0 <= i < |files| && files[i].RequestId() == requestId && files[i].ResponseTree() == responseTree
  }

  /** The verifier's map of accepted requests tells replay from equivocation. */
  lemma AcceptedByRecords(files: seq<ReceiptFile>, requestId: Token, responseTree: Token)
    requires OneReceiptPerRequest(files)
    ensures requestId in AcceptedBy(files) <==> Records(files, requestId)
    ensures RecordsWith(files, requestId, responseTree) <==>
            requestId in AcceptedBy(files) && AcceptedBy(files)[requestId] == responseTree
  {
    AcceptedByFacts(files);
  }

  /** The end of an acceptance: link the new file and verify the ledger again. */
  ghost function PublishedReceipt(
    hash: ReceiptHash, key: PublicKey, ledger: LedgerDirectory, file: ReceiptFile, minimum: Option<LedgerHead>)
    : (LedgerDirectory, AcceptOutcome)
    requires minimum.Some? ==> minimum.value.receiptCount >= 1
  {
    var n := |Files(ledger.receipts)|;
    match LinkExclusive(ledger.receipts, n + 1, file)
    case None => (ledger, ChangedConcurrently)
    case Some(receipts) =>
      var published := ledger.(receipts := receipts);
      if LedgerPasses(hash, key, published, minimum) && |Files(receipts)| == n + 1
      then (published, Accepted(n + 1))
      else (published, PublishedUnverified)
  }

  /** What accept_response_bundle does to a ledger nobody else is writing. */
  ghost function Accept(
    hash: ReceiptHash, key: PublicKey, ledger: LedgerDirectory, decision: Decision, minimum: Option<LedgerHead>)
    : (after: (LedgerDirectory, AcceptOutcome))
    requires minimum.Some? ==> minimum.value.receiptCount >= 1
  {
    var files := Files(ledger.receipts);
    if !LedgerPasses(hash, key, ledger, minimum) then (ledger, LedgerInvalid)
    else if RecordsWith(files, decision.requestId, decision.responseTree) then (ledger, Replay)
    else if Records(files, decision.requestId) then (ledger, Equivocation)
    else PublishedReceipt(hash, key, ledger, NextReceipt(hash, key, files, decision), minimum)
  }

  /** A passing ledger with one more appendable receipt at its end passes. */
  lemma PassesWithOneMore(
    hash: ReceiptHash, key: PublicKey, ledger: LedgerDirectory, receipts: Directory<ReceiptFile>,
    file: ReceiptFile, minimum: Option<LedgerHead>)
    requires minimum.Some? ==> minimum.value.receiptCount >= 1
    requires LedgerPasses(hash, key, ledger, minimum) && Appendable(hash, key, Files(ledger.receipts), file)
    requires Files(receipts) == Files(ledger.receipts) + [file] && receipts.others == ledger.receipts.others
    ensures LedgerPasses(hash, key, ledger.(receipts := receipts), minimum)
  {
    ValidReceiptsExtend(hash, key, Files(ledger.receipts), file);
    assert minimum.Some? ==> MeetsMinimum(hash, Files(ledger.receipts) + [file], minimum.value);
  }

  /** A recorded request is never recorded again: the same response is a replay, any
      other one an equivocation. */
  lemma AcceptKnownRequest(
    hash: ReceiptHash, key: PublicKey, ledger: LedgerDirectory, decision: Decision,
    minimum: Option<LedgerHead>, i: nat)
    requires minimum.Some? ==> minimum.value.receiptCount >= 1
    requires LedgerPasses(hash, key, ledger, minimum)
    requires i < |Files(ledger.receipts)| && Files(ledger.receipts)[i].RequestId() == decision.requestId
    ensures Accept(hash, key, ledger, decision, minimum)
            == (ledger,
                if Files(ledger.receipts)[i].ResponseTree() == decision.responseTree then Replay else Equivocation)
  {
    var files := Files(ledger.receipts);
    if RecordsWith(files, decision.requestId, decision.responseTree) {
      var j :| 0 <= j < |files| && files[j].RequestId() == decision.requestId
               && files[j].ResponseTree() == decision.responseTree;
      assert i == j;
    }
  }

  /** What the second of two equal calls answers. */
  function SecondAnswer(first: AcceptOutcome): AcceptOutcome {
    match first
    case Accepted(_) => Replay
    case PublishedUnverified => LedgerInvalid
    case LedgerInvalid => LedgerInvalid
    case Replay => Replay
    case Equivocation => Equivocation
    case ChangedConcurrently => ChangedConcurrently
  }

  /** Accepting one decision twice leaves the ledger that accepting it once leaves. */
  lemma AcceptTwice(
    hash: ReceiptHash, key: PublicKey, ledger: LedgerDirectory, decision: Decision, minimum: Option<LedgerHead>)
    requires minimum.Some? ==> minimum.value.receiptCount >= 1
    ensures var (once, first) := Accept(hash, key, ledger, decision, minimum);
            Accept(hash, key, once, decision, minimum) == (once, SecondAnswer(first))
  {
    var (once, first) := Accept(hash, key, ledger, decision, minimum);
    if first.Accepted? {
      var file := NextReceipt(hash, key, Files(ledger.receipts), decision);
      PublishedFacts(hash, key, ledger, file, minimum);
      assert (once, first) == PublishedReceipt(hash, key, ledger, file, minimum);
      ListedIsReplayed(hash, key, once, decision, minimum, file);
    } else if first.PublishedUnverified? {
      var file := NextReceipt(hash, key, Files(ledger.receipts), decision);
      PublishedFacts(hash, key, ledger, file, minimum);
      assert (once, first) == PublishedReceipt(hash, key, ledger, file, minimum);
      assert Accept(hash, key, once, decision, minimum) == (once, LedgerInvalid);
    } else {
      UnwrittenIsUnchanged(hash, key, ledger, decision, minimum);
    }
  }

  lemma UnwrittenIsUnchanged(
    hash: ReceiptHash, key: PublicKey, ledger: LedgerDirectory, decision: Decision, minimum: Option<LedgerHead>)
    requires minimum.Some? ==> minimum.value.receiptCount >= 1
    ensures var (after, outcome) := Accept(hash, key, ledger, decision, minimum);
            after == ledger || outcome.Accepted? || outcome.PublishedUnverified?
  {
  }

  lemma ListedIsReplayed(
    hash: ReceiptHash, key: PublicKey, ledger: LedgerDirectory, decision: Decision, minimum: Option<LedgerHead>,
    file: ReceiptFile)
    requires minimum.Some? ==> minimum.value.receiptCount >= 1
    requires LedgerPasses(hash, key, ledger, minimum) && file in Files(ledger.receipts)
    requires file.RequestId() == decision.requestId && file.ResponseTree() == decision.responseTree
    ensures Accept(hash, key, ledger, decision, minimum) == (ledger, Replay)
  {
    var p :| 0 <= p < |Files(ledger.receipts)| && Files(ledger.receipts)[p] == file;
    AcceptKnownRequest(hash, key, ledger, decision, minimum, p);
  }

  /** Publishing either lists the file in a ledger that passes, or leaves one that
      does not pass, or changes nothing. */
  lemma PublishedFacts(
    hash: ReceiptHash, key: PublicKey, ledger: LedgerDirectory, file: ReceiptFile, minimum: Option<LedgerHead>)
    requires minimum.Some? ==> minimum.value.receiptCount >= 1
    ensures var (after, outcome) := PublishedReceipt(hash, key, ledger, file, minimum);
            && (outcome.Accepted? ==>
                  LedgerPasses(hash, key, after, minimum) && file in Files(after.receipts))
            && (outcome.PublishedUnverified? ==> !LedgerPasses(hash, key, after, minimum))
  {
    var n := |Files(ledger.receipts)|;
    if n >= MAX_SLOT {
      assert LinkExclusive(ledger.receipts, n + 1, file).Some? ==>
          Overlong(n + 1) in LinkExclusive(ledger.receipts, n + 1, file).value.others;
    } else if n + 1 !in ledger.receipts.slots {
      var p := LinkedIsListed(ledger.receipts, n + 1, file);
    }
  }

  /** A ledger that does not pass is left alone; one that passes and is named 1..n
      still passes after any well-formed decision while eight digits suffice, and
      keeps every receipt. */
  lemma AcceptKeepsPassing(
    hash: ReceiptHash, key: PublicKey, ledger: LedgerDirectory, decision: Decision,
    minimum: Option<LedgerHead>, n: nat)
    requires minimum.Some? ==> minimum.value.receiptCount >= 1
    requires WellFormedDecision(decision) && Contiguous(ledger.receipts, n) && n < MAX_SLOT
    ensures var (after, outcome) := Accept(hash, key, ledger, decision, minimum);
            if LedgerPasses(hash, key, ledger, minimum) then
              && LedgerPasses(hash, key, after, minimum)
              && Files(ledger.receipts) <= Files(after.receipts)
              && (outcome == Accepted(n + 1) || (after == ledger && outcome in {Replay, Equivocation}))
              && Records(Files(after.receipts), decision.requestId)
            else
              after == ledger && outcome == LedgerInvalid
  {
    var files := Files(ledger.receipts);
    if LedgerPasses(hash, key, ledger, minimum) {
      if Records(files, decision.requestId) {
        var i :| 0 <= i < |files| && files[i].RequestId() == decision.requestId;
        AcceptKnownRequest(hash, key, ledger, decision, minimum, i);
      } else {
        AcceptRecordsNewRequest(hash, key, ledger, decision, minimum, n);
        ContiguousFiles(ledger.receipts, n);
        assert Files(Accept(hash, key, ledger, decision, minimum).0.receipts)[n].RequestId() == decision.requestId;
      }
    }
  }

  /** In a verified ledger whose files are named 1..n, a new request is recorded
      as receipt n + 1 exactly when eight digits can still print n + 1; with more
      digits the published file makes every later verification fail. */
  lemma AcceptRecordsNewRequest(
    hash: ReceiptHash, key: PublicKey, ledger: LedgerDirectory, decision: Decision,
    minimum: Option<LedgerHead>, n: nat)
    requires minimum.Some? ==> minimum.value.receiptCount >= 1
    requires Contiguous(ledger.receipts, n) && LedgerPasses(hash, key, ledger, minimum)
    requires WellFormedDecision(decision) && !Records(Files(ledger.receipts), decision.requestId)
    ensures var (after, outcome) := Accept(hash, key, ledger, decision, minimum);
            var files := Files(ledger.receipts);
            && (outcome.Accepted? <==> n < MAX_SLOT)
            && (outcome.Accepted? ==>
                  && Contiguous(after.receipts, n + 1)
                  && Files(after.receipts) == files + [NextReceipt(hash, key, files, decision)]
                  && LedgerPasses(hash, key, after, minimum))
            && (!outcome.Accepted? ==>
                  after.receipts.slots == ledger.receipts.slots && after.receipts.others != {})
  {
    var files := Files(ledger.receipts);
    var file := NextReceipt(hash, key, files, decision);
    ContiguousFiles(ledger.receipts, n);
    LinkAppends(ledger.receipts, n, n + 1, file);
    NextReceiptAppendable(hash, key, files, decision);
    if n < MAX_SLOT {
      PassesWithOneMore(
        hash, key, ledger, LinkExclusive(ledger.receipts, n + 1, file).value, file, minimum);
    }
    assert !RecordsWith(files, decision.requestId, decision.responseTree);
  }

  /** A receipt numbered n + 1 that does not sort last breaks the chain. */
  lemma LinkedBelowFails(
    hash: ReceiptHash, key: PublicKey, receipts: Directory<ReceiptFile>, n: nat, file: ReceiptFile, k: nat)
    requires n == |Files(receipts)| && n + 1 !in receipts.slots && k in receipts.slots && k > n
    requires file.Sequence() == n + 1
    ensures !ValidReceipts(hash, key, Files(receipts.(slots := receipts.slots[n + 1 := file])))
  {
    var p := LinkBelowTaken(receipts, n + 1, file, k);
    var linked := Files(receipts.(slots := receipts.slots[n + 1 := file]));
    assert ValidReceipts(hash, key, linked) ==> ReceiptPassesAt(hash, key, linked, p);
  }

  /** Verification looks at the order of the file names, not at the numbers in them:
      a ledger that passes takes a new request exactly when no name in it is above
      its receipt count and eight digits can print the next one. A ledger with a
      higher name verifies, but can never grow. */
  lemma AcceptNeedsLowNames(
    hash: ReceiptHash, key: PublicKey, ledger: LedgerDirectory, decision: Decision, minimum: Option<LedgerHead>)
    requires minimum.Some? ==> minimum.value.receiptCount >= 1
    requires LedgerPasses(hash, key, ledger, minimum)
    requires WellFormedDecision(decision) && !Records(Files(ledger.receipts), decision.requestId)
    ensures var n := |Files(ledger.receipts)|;
            Accept(hash, key, ledger, decision, minimum).1.Accepted? <==>
              n < MAX_SLOT && forall k :: k in ledger.receipts.slots ==> k <= n
  {
    var files := Files(ledger.receipts);
    assert !RecordsWith(files, decision.requestId, decision.responseTree);
    NextReceiptAppendable(hash, key, files, decision);
    PublishNeedsLowNames(hash, key, ledger, NextReceipt(hash, key, files, decision), minimum);
  }

  lemma PublishNeedsLowNames(
    hash: ReceiptHash, key: PublicKey, ledger: LedgerDirectory, file: ReceiptFile, minimum: Option<LedgerHead>)
    requires minimum.Some? ==> minimum.value.receiptCount >= 1
    requires LedgerPasses(hash, key, ledger, minimum) && Appendable(hash, key, Files(ledger.receipts), file)
    ensures var n := |Files(ledger.receipts)|;
            PublishedReceipt(hash, key, ledger, file, minimum).1.Accepted? <==>
              n < MAX_SLOT && forall k :: k in ledger.receipts.slots ==> k <= n
  {
    var n := |Files(ledger.receipts)|;
    if n < MAX_SLOT && n + 1 !in ledger.receipts.slots {
      if k :| k in ledger.receipts.slots && k > n {
        LinkedBelowFails(hash, key, ledger.receipts, n, file, k);
      } else {
        LinkAtEnd(ledger.receipts, n + 1, file);
        PassesWithOneMore(
          hash, key, ledger, LinkExclusive(ledger.receipts, n + 1, file).value, file, minimum);
      }
    }
  }

  class AcceptanceStore {
    var ledger: LedgerDirectory

    constructor (directory: LedgerDirectory)
      ensures ledger == directory
    {
      ledger := directory;
    }

    /** accept_response_bundle after the response itself has been verified. */
    method AcceptResponse(hash: ReceiptHash, key: PublicKey, decision: Decision, minimum: Option<LedgerHead>)
      returns (outcome: AcceptOutcome)
      requires minimum.Some? ==> minimum.value.receiptCount >= 1
      modifies this
      ensures (ledger, outcome) == Accept(hash, key, old(ledger), decision, minimum)
    {
      var report := VerifyAcceptanceLedger(hash, key, ledger, minimum);
      if !report.passed {
        return LedgerInvalid;
      }
      ghost var files := Files(ledger.receipts);
      AcceptedByRecords(files, decision.requestId, decision.responseTree);
      if decision.requestId in report.accepted {
        if report.accepted[decision.requestId] == decision.responseTree {
          return Replay;
        }
        return Equivocation;
      }
      var file := ReceiptFor(key, |report.entries| + 1, report.headReceipt, decision);
      assert file == NextReceipt(hash, key, files, decision);
      outcome := PublishReceipt(hash, key, file, minimum, |report.entries|);
    }

    method PublishReceipt(
      hash: ReceiptHash, key: PublicKey, file: ReceiptFile, minimum: Option<LedgerHead>, count: nat)
      returns (outcome: AcceptOutcome)
      requires minimum.Some? ==> minimum.value.receiptCount >= 1
      requires count == |Files(ledger.receipts)|
      modifies this
      ensures (ledger, outcome) == PublishedReceipt(hash, key, old(ledger), file, minimum)
    {
      var linked := LinkExclusive(ledger.receipts, count + 1, file);
      if linked.None? {
        return ChangedConcurrently;
      }
      ledger := ledger.(receipts := linked.value);
      var final := VerifyAcceptanceLedger(hash, key, ledger, minimum);
      if !final.passed || |final.entries| != count + 1 {
        return PublishedUnverified;
      }
      return Accepted(count + 1);
    }
  }

  /** The receipt as accept_response_bundle assembles it from the ledger report. */
  function ReceiptFor(key: PublicKey, sequence: nat, previous: Token, decision: Decision): ReceiptFile {
    var statement := Receipt(
      ReceiptFormat, sequence, previous, key, decision.requestId, decision.responseTree, decision.details);
    ReceiptFile(0, Some(Envelope(ReceiptEnvelopeFormat, statement, SignedBy(key, statement))))
  }
}
