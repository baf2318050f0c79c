/** Any number of acceptors, checkpoint appenders and transfer installers at work
    on one ledger and one series, without a lock.

    Each program is cut at the points where another process can intervene: after
    a directory scan, after the temporary file exists, at the exclusive link. A
    run is any interleaving of these steps; a process may stop anywhere and leave
    its temporary file behind. */
module ExchangeProtocol {
  import opened Prelude
  import opened HashChain
  import opened Ordering
  import opened SlotDirectory
  import opened AcceptanceLedger
  import opened CheckpointSeries

  datatype World = World(receiptHash: ReceiptHash, checkpointHash: CheckpointHash, key: PublicKey)

  datatype Actor =
    | Idle
    | Accepting(sequence: nat, receipt: ReceiptFile)
    | SeriesRead(snapshot: seq<CheckpointFile>)
    | Appending(generation: nat, checkpoint: CheckpointFile)
    | Comparing(names: seq<nat>, bundle: seq<CheckpointFile>, installed: nat)
    | Installing(names: seq<nat>, bundle: seq<CheckpointFile>, next: nat)
  {
    /** There is a file to publish, under a name that the pattern matches. */
    predicate Publishes() {
      Installing? && |names| == |bundle| && 1 <= next <= |bundle| && names[next - 1] <= MAX_SLOT
    }
  }

  datatype Site = Site(
    ledger: Directory<ReceiptFile>,
    series: Directory<CheckpointFile>,
    actors: map<nat, Actor>)
  {
    function Role(a: nat): Actor {
      if a in actors then actors[a] else Idle
    }

    function Becomes(a: nat, role: Actor): Site {
      this.(actors := actors[a := role])
    }

    function Receipts(): seq<ReceiptFile> {
      Files(ledger)
    }

    function Checkpoints(): seq<CheckpointFile> {
      Files(series)
    }
  }

  datatype Step =
    | VerifyLedger(actor: nat, receiptScan: Directory<ReceiptFile>, decision: Decision)
    | StageReceipt(actor: nat)
    | LinkReceipt(actor: nat)
    | ReadSeries(actor: nat, checkpointScan: Directory<CheckpointFile>)
    | ReadLedger(actor: nat, receiptScan: Directory<ReceiptFile>, createdAt: int)
    | StageCheckpoint(actor: nat)
    | LinkCheckpoint(actor: nat)
    | OpenBundle(
        actor: nat, names: seq<nat>, bundle: seq<CheckpointFile>, checkpointScan: Directory<CheckpointFile>)
    | CompareBundle(actor: nat)
    | MatchExisting(actor: nat)
    | LinkInstalled(actor: nat)
    | RemoveTemporary(actor: nat)
    | Stop(actor: nat)

  function Stage<F>(d: Directory<F>, a: nat): Directory<F> {
    d.(others := d.others + {Temporary(a)})
  }

  function Unstage<F>(d: Directory<F>, a: nat): Directory<F> {
    d.(others := d.others - {Temporary(a)})
  }

  /** The state after a step, or None when the step is not enabled. */
  ghost function Perform(w: World, s: Site, step: Step): Option<Site> {
    var a := step.actor;
    match step
    case VerifyLedger(_, scan, decision) =>
      var files := Files(scan);
      if s.Role(a).Idle? && scan.others == {} && ScanOf(scan, s.ledger)
         && ValidReceipts(w.receiptHash, w.key, files)
         && WellFormedDecision(decision) && !Records(files, decision.requestId)
      then Some(s.Becomes(a, Accepting(|files| + 1, NextReceipt(w.receiptHash, w.key, files, decision))))
      else None
    case StageReceipt(_) =>
      if s.Role(a).Accepting? then Some(s.(ledger := Stage(s.ledger, a))) else None
    case LinkReceipt(_) =>
      if s.Role(a).Accepting? && Temporary(a) in s.ledger.others then
        match LinkExclusive(s.ledger, s.Role(a).sequence, s.Role(a).receipt)
        case Some(linked) => Some(s.(ledger := linked).Becomes(a, Idle))
        case None => Some(s.Becomes(a, Idle))
      else None
    case ReadSeries(_, scan) =>
      if s.Role(a).Idle? && scan.others == {} && ScanOf(scan, s.series)
         && ValidCheckpoints(w.checkpointHash, w.key, Files(scan))
      then Some(s.Becomes(a, SeriesRead(Files(scan))))
      else None
    case ReadLedger(_, scan, createdAt) =>
      if s.Role(a).SeriesRead? && scan.others == {} && ScanOf(scan, s.ledger)
         && ValidReceipts(w.receiptHash, w.key, Files(scan))
         && (LatestPin(s.Role(a).snapshot).Some? ==> LatestPin(s.Role(a).snapshot).value.receiptCount >= 1)
         && Advances(w.receiptHash, s.Role(a).snapshot, Files(scan))
      then
        var snapshot := s.Role(a).snapshot;
        Some(s.Becomes(a, Appending(
          |snapshot| + 1,
          NextCheckpoint(w.checkpointHash, w.receiptHash, w.key, snapshot, Files(scan), createdAt))))
      else None
    case StageCheckpoint(_) =>
      if s.Role(a).Appending? || s.Role(a).Installing? then Some(s.(series := Stage(s.series, a))) else None
    case LinkCheckpoint(_) =>
      if s.Role(a).Appending? && Temporary(a) in s.series.others then
        match LinkExclusive(s.series, s.Role(a).generation, s.Role(a).checkpoint)
        case Some(linked) => Some(s.(series := linked).Becomes(a, Idle))
        case None => Some(s.Becomes(a, Idle))
      else None
    case OpenBundle(_, names, bundle, scan) =>
      var installed := |Files(scan)|;
      if s.Role(a).Idle? && scan.others == {} && ScanOf(scan, s.series)
         && bundle != [] && FileNames(names, |bundle|)
         && ValidCheckpoints(w.checkpointHash, w.key, bundle)
         && ValidCheckpoints(w.checkpointHash, w.key, Files(scan))
         && installed <= |bundle|
      then Some(s.Becomes(a, Comparing(names, bundle, installed)))
      else None
    case CompareBundle(_) =>
      if s.Role(a).Comparing? && s.Role(a).installed <= |s.Checkpoints()|
         && (forall i :: 0 <= i < s.Role(a).installed && i < |s.Role(a).bundle| ==>
               w.checkpointHash(s.Checkpoints()[i]) == w.checkpointHash(s.Role(a).bundle[i]))
      then Some(s.Becomes(a, Installing(s.Role(a).names, s.Role(a).bundle, s.Role(a).installed + 1)))
      else None
    case MatchExisting(_) =>
      if s.Role(a).Publishes() && s.Role(a).names[s.Role(a).next - 1] in s.series.slots then
        Some(s.Becomes(a, AfterConflict(s, s.Role(a))))
      else None
    case LinkInstalled(_) =>
      var role := s.Role(a);
      if role.Publishes() && Temporary(a) in s.series.others then
        match LinkExclusive(s.series, role.names[role.next - 1], role.bundle[role.next - 1])
        case Some(linked) => Some(s.(series := linked).Becomes(a, role.(next := role.next + 1)))
        case None => Some(s.Becomes(a, AfterConflict(s, role)))
      else None
    case RemoveTemporary(_) =>
      Some(s.(ledger := Unstage(s.ledger, a), series := Unstage(s.series, a)))
    case Stop(_) => Some(s.Becomes(a, Idle))
  }

  /** Names that the pattern matches, in order. */
  ghost predicate FileNames(names: seq<nat>, count: nat) {
    |names| == count && Ascending(NatLess, names) && forall i :: 0 <= i < count ==> names[i] <= MAX_SLOT
  }

  /** The destination name exists: go on if it holds the same bytes, else give up. */
  function AfterConflict(s: Site, role: Actor): Actor
    requires role.Publishes()
  {
    var name := role.names[role.next - 1];
    if name in s.series.slots && s.series.slots[name] == role.bundle[role.next - 1]
    then role.(next := role.next + 1)
    else Idle
  }

  /** The names 1..n, which init, append and build give. */
  ghost predicate Numbered(names: seq<nat>, count: nat) {
    count <= MAX_SLOT && names == Interval(count)
  }

  ghost predicate NumberedStep(step: Step) {
    step.OpenBundle? ==> Numbered(step.names, |step.bundle|)
  }

  /** The ledger and series directories around these files, with intact headers. */
  function LedgerAround(w: World, receipts: Directory<ReceiptFile>): LedgerDirectory {
    NewLedger(w.key).(receipts := receipts)
  }

  function SeriesAround(w: World, checkpoints: Directory<CheckpointFile>): SeriesDirectory {
    NewSeries(w.key).(checkpoints := checkpoints)
  }

  /** An acceptor that nobody disturbs takes every one of its steps, and they leave
      the ledger that accepting the decision leaves. */
  lemma UndisturbedAcceptor(w: World, s: Site, a: nat, decision: Decision)
    returns (verified: Site, staged: Site, linked: Site, done: Site)
    requires s.Role(a).Idle? && s.ledger.others == {} && ValidReceipts(w.receiptHash, w.key, s.Receipts())
    requires WellFormedDecision(decision) && !Records(s.Receipts(), decision.requestId)
    ensures Perform(w, s, VerifyLedger(a, s.ledger, decision)) == Some(verified)
    ensures Perform(w, verified, StageReceipt(a)) == Some(staged)
    ensures Perform(w, staged, LinkReceipt(a)) == Some(linked)
    ensures Perform(w, linked, RemoveTemporary(a)) == Some(done)
    ensures done.ledger == Accept(w.receiptHash, w.key, LedgerAround(w, s.ledger), decision, None).0.receipts
    ensures done.Role(a).Idle? && done.series == Unstage(s.series, a)
    ensures forall b :: b != a ==> done.Role(b) == s.Role(b)
  {
    var file := NextReceipt(w.receiptHash, w.key, s.Receipts(), decision);
    verified := s.Becomes(a, Accepting(|s.Receipts()| + 1, file));
    assert verified.Role(a) == Accepting(|s.Receipts()| + 1, file);
    staged, linked, done := AcceptorLinks(w, verified, a);
    assert LedgerPasses(w.receiptHash, w.key, LedgerAround(w, s.ledger), None);
    assert !RecordsWith(s.Receipts(), decision.requestId, decision.responseTree);
  }

  lemma AcceptorLinks(w: World, s: Site, a: nat) returns (staged: Site, linked: Site, done: Site)
    requires s.Role(a).Accepting? && s.ledger.others == {}
    ensures Perform(w, s, StageReceipt(a)) == Some(staged)
    ensures Perform(w, staged, LinkReceipt(a)) == Some(linked)
    ensures Perform(w, linked, RemoveTemporary(a)) == Some(done)
    ensures done.ledger == LinkExclusive(s.ledger, s.Role(a).sequence, s.Role(a).receipt).GetOr(s.ledger)
    ensures done.Role(a).Idle? && done.series == Unstage(s.series, a)
    ensures forall b :: b != a ==> done.Role(b) == s.Role(b)
  {
    staged := Perform(w, s, StageReceipt(a)).value;
    linked := Perform(w, staged, LinkReceipt(a)).value;
    done := Perform(w, linked, RemoveTemporary(a)).value;
    StagedLink(s.ledger, a, s.Role(a).sequence, s.Role(a).receipt);
  }

  /** A link beside one's own temporary file, which is removed afterwards, is the link. */
  lemma StagedLink<F>(d: Directory<F>, a: nat, number: nat, file: F)
    requires d.others == {}
    ensures LinkExclusive(Stage(d, a), number, file).Some? <==> LinkExclusive(d, number, file).Some?
    ensures Unstage(Stage(d, a), a) == d
    ensures LinkExclusive(d, number, file).Some? ==>
              Unstage(LinkExclusive(Stage(d, a), number, file).value, a) == LinkExclusive(d, number, file).value
  {
    if number > MAX_SLOT {
      assert (d.others + {Temporary(a)}) + {Overlong(number)} - {Temporary(a)} == d.others + {Overlong(number)};
    }
    assert (d.others + {Temporary(a)}) - {Temporary(a)} == d.others;
  }

  /** The same of an appender: its steps leave the series that the append leaves. */
  lemma UndisturbedAppender(w: World, s: Site, a: nat, createdAt: int)
    returns (read: Site, pinned: Site, staged: Site, linked: Site, done: Site)
    requires s.Role(a).Idle? && s.ledger.others == {} && s.series.others == {}
    requires ValidReceipts(w.receiptHash, w.key, s.Receipts())
    requires ValidCheckpoints(w.checkpointHash, w.key, s.Checkpoints())
    requires LatestPin(s.Checkpoints()).Some? ==> LatestPin(s.Checkpoints()).value.receiptCount >= 1
    requires Advances(w.receiptHash, s.Checkpoints(), s.Receipts())
    ensures Perform(w, s, ReadSeries(a, s.series)) == Some(read)
    ensures Perform(w, read, ReadLedger(a, s.ledger, createdAt)) == Some(pinned)
    ensures Perform(w, pinned, StageCheckpoint(a)) == Some(staged)
    ensures Perform(w, staged, LinkCheckpoint(a)) == Some(linked)
    ensures Perform(w, linked, RemoveTemporary(a)) == Some(done)
    ensures done.series
            == Append(
                 w.checkpointHash, w.receiptHash, w.key, SeriesAround(w, s.series), LedgerAround(w, s.ledger),
                 createdAt).0.checkpoints
    ensures done.Role(a).Idle? && done.ledger == Unstage(s.ledger, a)
    ensures forall b :: b != a ==> done.Role(b) == s.Role(b)
  {
    read, pinned := AppenderReads(w, s, a, createdAt);
    staged, linked, done := AppenderLinks(w, pinned, a);
    AppendLinks(w, s, createdAt);
  }

  lemma AppenderReads(w: World, s: Site, a: nat, createdAt: int) returns (read: Site, pinned: Site)
    requires s.Role(a).Idle? && s.ledger.others == {} && s.series.others == {}
    requires ValidReceipts(w.receiptHash, w.key, s.Receipts())
    requires ValidCheckpoints(w.checkpointHash, w.key, s.Checkpoints())
    requires LatestPin(s.Checkpoints()).Some? ==> LatestPin(s.Checkpoints()).value.receiptCount >= 1
    requires Advances(w.receiptHash, s.Checkpoints(), s.Receipts())
    ensures Perform(w, s, ReadSeries(a, s.series)) == Some(read)
    ensures Perform(w, read, ReadLedger(a, s.ledger, createdAt)) == Some(pinned)
    ensures pinned.ledger == s.ledger && pinned.series == s.series
    ensures pinned.Role(a)
            == Appending(
                 |s.Checkpoints()| + 1,
                 NextCheckpoint(w.checkpointHash, w.receiptHash, w.key, s.Checkpoints(), s.Receipts(), createdAt))
    ensures forall b :: b != a ==> pinned.Role(b) == s.Role(b)
  {
    read := s.Becomes(a, SeriesRead(s.Checkpoints()));
    assert read.Role(a) == SeriesRead(s.Checkpoints());
    pinned := Perform(w, read, ReadLedger(a, s.ledger, createdAt)).value;
  }

  lemma AppenderLinks(w: World, s: Site, a: nat) returns (staged: Site, linked: Site, done: Site)
    requires s.Role(a).Appending? && s.series.others == {}
    ensures Perform(w, s, StageCheckpoint(a)) == Some(staged)
    ensures Perform(w, staged, LinkCheckpoint(a)) == Some(linked)
    ensures Perform(w, linked, RemoveTemporary(a)) == Some(done)
    ensures done.series == LinkExclusive(s.series, s.Role(a).generation, s.Role(a).checkpoint).GetOr(s.series)
    ensures done.Role(a).Idle? && done.ledger == Unstage(s.ledger, a)
    ensures forall b :: b != a ==> done.Role(b) == s.Role(b)
  {
    staged := Perform(w, s, StageCheckpoint(a)).value;
    linked := Perform(w, staged, LinkCheckpoint(a)).value;
    done := Perform(w, linked, RemoveTemporary(a)).value;
    StagedLink(s.series, a, s.Role(a).generation, s.Role(a).checkpoint);
  }

  /** What an append to a verified series for an advancing ledger links. */
  lemma AppendLinks(w: World, s: Site, createdAt: int)
    requires s.ledger.others == {} && s.series.others == {}
    requires ValidReceipts(w.receiptHash, w.key, s.Receipts())
    requires ValidCheckpoints(w.checkpointHash, w.key, s.Checkpoints())
    requires LatestPin(s.Checkpoints()).Some? ==> LatestPin(s.Checkpoints()).value.receiptCount >= 1
    requires Advances(w.receiptHash, s.Checkpoints(), s.Receipts())
    ensures var file := NextCheckpoint(
              w.checkpointHash, w.receiptHash, w.key, s.Checkpoints(), s.Receipts(), createdAt);
            Append(
              w.checkpointHash, w.receiptHash, w.key, SeriesAround(w, s.series), LedgerAround(w, s.ledger),
              createdAt).0.checkpoints
            == LinkExclusive(s.series, |s.Checkpoints()| + 1, file).GetOr(s.series)
  {
    assert SeriesPasses(w.checkpointHash, w.key, SeriesAround(w, s.series));
    assert LedgerPasses(w.receiptHash, w.key, LedgerAround(w, s.ledger), LatestPin(s.Checkpoints()));
  }

  /** Freshly initialised directories. */
  ghost predicate Initial(s: Site) {
    && s.ledger == Directory(map[], {})
    && s.series == Directory(map[], {})
    && s.actors == map[]
  }

  /** What an acceptor's local variables say about the ledger. */
  ghost predicate AcceptorSound(w: World, s: Site, role: Actor) {
    role.Accepting? ==>
      1 <= role.sequence <= |s.Receipts()| + 1 &&
      Appendable(w.receiptHash, w.key, s.Receipts()[..role.sequence - 1], role.receipt)
  }

  /** What the other actors' local variables say about the series. */
  ghost predicate SeriesActorSound(w: World, s: Site, role: Actor) {
    match role
    case Idle => true
    case Accepting(_, _) => true
    case SeriesRead(snapshot) =>
      snapshot <= s.Checkpoints()
    case Appending(generation, checkpoint) =>
      1 <= generation <= |s.Checkpoints()| + 1 &&
      ContinuesSeries(w.checkpointHash, w.key, s.Checkpoints()[..generation - 1], checkpoint)
    case Comparing(names, bundle, installed) =>
      installed <= |bundle| && Numbered(names, |bundle|) && installed <= |s.Checkpoints()| &&
      ValidCheckpoints(w.checkpointHash, w.key, bundle)
    case Installing(names, bundle, next) =>
      1 <= next <= |bundle| + 1 && Numbered(names, |bundle|) && next - 1 <= |s.Checkpoints()| &&
      ValidCheckpoints(w.checkpointHash, w.key, bundle) &&
      s.Checkpoints()[..next - 1] == bundle[..next - 1]
  }

  /** Receipt file k holds sequence k, and the receipts verify. */
  ghost predicate LedgerSound(w: World, s: Site) {
    && Contiguous(s.ledger, |s.Receipts()|)
    && ValidReceipts(w.receiptHash, w.key, s.Receipts())
    && forall a :: AcceptorSound(w, s, s.Role(a))
  }

  /** Checkpoint file k holds generation k, and the checkpoints verify. */
  ghost predicate SeriesSound(w: World, s: Site) {
    && Contiguous(s.series, |s.Checkpoints()|)
    && ValidCheckpoints(w.checkpointHash, w.key, s.Checkpoints())
    && forall a :: SeriesActorSound(w, s, s.Role(a))
  }

  ghost predicate Sound(w: World, s: Site) {
    LedgerSound(w, s) && SeriesSound(w, s)
  }

  /** Both chains only ever grow at the end. */
  ghost predicate Grows(s: Site, s': Site) {
    s.Receipts() <= s'.Receipts() && s.Checkpoints() <= s'.Checkpoints()
  }

  /** No installer is looking at a SHA-256 collision. */
  ghost predicate CollisionFree(w: World, s: Site) {
    forall a :: s.Role(a).Comparing? ==>
      !CollisionBetween(w.checkpointHash, s.Checkpoints(), s.Role(a).bundle)
  }

  lemma SeriesActorSoundGrows(w: World, s: Site, s': Site, role: Actor)
    requires SeriesActorSound(w, s, role) && s.Checkpoints() <= s'.Checkpoints()
    ensures SeriesActorSound(w, s', role)
  {
    match role
    case Appending(generation, _) => assert s'.Checkpoints()[..generation - 1] == s.Checkpoints()[..generation - 1];
    case Installing(_, _, next) => assert s'.Checkpoints()[..next - 1] == s.Checkpoints()[..next - 1];
    case _ =>
  }

  /** Only the acting process's role changes. */
  lemma OthersStaySound(w: World, s: Site, s': Site, a: nat)
    requires SeriesSound(w, s) && s.Checkpoints() <= s'.Checkpoints()
    requires Contiguous(s'.series, |s'.Checkpoints()|)
    requires ValidCheckpoints(w.checkpointHash, w.key, s'.Checkpoints())
    requires forall b :: b != a ==> s'.Role(b) == s.Role(b)
    requires SeriesActorSound(w, s', s'.Role(a))
    ensures SeriesSound(w, s')
  {
    forall b: nat ensures SeriesActorSound(w, s', s'.Role(b)) {
      if b != a {
        SeriesActorSoundGrows(w, s, s', s.Role(b));
      }
    }
  }

  lemma OtherAcceptorsStaySound(w: World, s: Site, s': Site, a: nat)
    requires LedgerSound(w, s) && s.Receipts() <= s'.Receipts()
    requires Contiguous(s'.ledger, |s'.Receipts()|) && ValidReceipts(w.receiptHash, w.key, s'.Receipts())
    requires forall b :: b != a ==> s'.Role(b) == s.Role(b)
    requires AcceptorSound(w, s', s'.Role(a))
    ensures LedgerSound(w, s')
  {
    forall b: nat ensures AcceptorSound(w, s', s'.Role(b)) {
      if b != a {
        assert AcceptorSound(w, s, s.Role(b));
        AcceptorSoundGrows(w, s, s', s.Role(b));
      }
    }
  }

  lemma AcceptorSoundGrows(w: World, s: Site, s': Site, role: Actor)
    requires AcceptorSound(w, s, role) && s.Receipts() <= s'.Receipts()
    ensures AcceptorSound(w, s', role)
  {
    if role.Accepting? {
      assert s'.Receipts()[..role.sequence - 1] == s.Receipts()[..role.sequence - 1];
    }
  }

  /** A verified scan of the ledger, however it raced with other writers, is a
      prefix of the ledger. */
  lemma ReceiptScanIsPrefix(w: World, s: Site, scan: Directory<ReceiptFile>)
    requires LedgerSound(w, s) && ScanOf(scan, s.ledger)
    requires ValidReceipts(w.receiptHash, w.key, Files(scan))
    ensures Files(scan) <= s.Receipts()
  {
    var number := (f: ReceiptFile) => f.Sequence();
    forall k | k in s.ledger.slots ensures number(s.ledger.slots[k]) == k {
      ContiguousFiles(s.ledger, |s.Receipts()|);
      assert ReceiptPassesAt(w.receiptHash, w.key, s.Receipts(), k - 1);
    }
    forall i | 0 <= i < |Files(scan)| ensures number(Files(scan)[i]) == i + 1 {
      assert ReceiptPassesAt(w.receiptHash, w.key, Files(scan), i);
    }
    NumberedScanIsPrefix(scan, s.ledger, |s.Receipts()|, number);
  }

  lemma CheckpointScanIsPrefix(w: World, s: Site, scan: Directory<CheckpointFile>)
    requires SeriesSound(w, s) && ScanOf(scan, s.series)
    requires ValidCheckpoints(w.checkpointHash, w.key, Files(scan))
    ensures Files(scan) <= s.Checkpoints()
  {
    var number := (f: CheckpointFile) => f.Generation();
    forall k | k in s.series.slots ensures number(s.series.slots[k]) == k {
      ContiguousFiles(s.series, |s.Checkpoints()|);
      assert CheckpointPassesAt(w.checkpointHash, w.key, s.Checkpoints(), k - 1);
    }
    forall i | 0 <= i < |Files(scan)| ensures number(Files(scan)[i]) == i + 1 {
      assert CheckpointPassesAt(w.checkpointHash, w.key, Files(scan), i);
    }
    NumberedScanIsPrefix(scan, s.series, |s.Checkpoints()|, number);
  }

  /** Linking a receipt built on some prefix either fails or extends the ledger. */
  lemma LinkReceiptSound(w: World, s: Site, a: nat)
    requires LedgerSound(w, s) && s.Role(a).Accepting?
    ensures var linked := LinkExclusive(s.ledger, s.Role(a).sequence, s.Role(a).receipt);
            linked.Some? ==>
              if s.Role(a).sequence <= MAX_SLOT
              then && Contiguous(linked.value, |Files(linked.value)|)
                   && s.Role(a).sequence == |s.Receipts()| + 1
                   && Files(linked.value) == s.Receipts() + [s.Role(a).receipt]
                   && ValidReceipts(w.receiptHash, w.key, Files(linked.value))
              else linked.value.slots == s.ledger.slots
  {
    var n := |s.Receipts()|;
    var role := s.Role(a);
    assert AcceptorSound(w, s, role);
    LinkAppends(s.ledger, n, role.sequence, role.receipt);
    if role.sequence == n + 1 {
      assert s.Receipts()[..n] == s.Receipts();
      ValidReceiptsExtend(w.receiptHash, w.key, s.Receipts(), role.receipt);
    }
  }

  /** The same for a checkpoint that continues some prefix of the series. */
  lemma LinkCheckpointSound(w: World, s: Site, generation: nat, file: CheckpointFile)
    requires SeriesSound(w, s) && 1 <= generation <= |s.Checkpoints()| + 1
    requires ContinuesSeries(w.checkpointHash, w.key, s.Checkpoints()[..generation - 1], file)
    ensures var linked := LinkExclusive(s.series, generation, file);
            linked.Some? ==>
              if generation <= MAX_SLOT
              then && Contiguous(linked.value, |Files(linked.value)|)
                   && generation == |s.Checkpoints()| + 1
                   && Files(linked.value) == s.Checkpoints() + [file]
                   && ValidCheckpoints(w.checkpointHash, w.key, Files(linked.value))
              else linked.value.slots == s.series.slots
  {
    var n := |s.Checkpoints()|;
    LinkAppends(s.series, n, generation, file);
    if generation == n + 1 {
      assert s.Checkpoints()[..n] == s.Checkpoints();
      ValidCheckpointsExtend(w.checkpointHash, w.key, s.Checkpoints(), file);
    }
  }

  lemma SameSlotsSameFiles<F>(d: Directory<F>, d': Directory<F>)
    requires d.slots == d'.slots
    ensures Files(d) == Files(d')
  {
  }

  lemma VerifyLedgerSound(w: World, s: Site, a: nat, scan: Directory<ReceiptFile>, decision: Decision)
    requires LedgerSound(w, s) && Perform(w, s, VerifyLedger(a, scan, decision)).Some?
    ensures LedgerSound(w, Perform(w, s, VerifyLedger(a, scan, decision)).value)
  {
    ReceiptScanIsPrefix(w, s, scan);
    NextReceiptAppendable(w.receiptHash, w.key, Files(scan), decision);
    assert s.Receipts()[..|Files(scan)|] == Files(scan);
    OtherAcceptorsStaySound(w, s, Perform(w, s, VerifyLedger(a, scan, decision)).value, a);
  }

  lemma LinkReceiptStepSound(w: World, s: Site, a: nat)
    requires LedgerSound(w, s) && Perform(w, s, LinkReceipt(a)).Some?
    ensures var s' := Perform(w, s, LinkReceipt(a)).value; LedgerSound(w, s') && s.Receipts() <= s'.Receipts()
  {
    var s' := Perform(w, s, LinkReceipt(a)).value;
    LinkReceiptSound(w, s, a);
    if s'.ledger.slots == s.ledger.slots {
      SameSlotsSameFiles(s.ledger, s'.ledger);
    }
    OtherAcceptorsStaySound(w, s, s', a);
  }

  /** Every step of every process keeps the ledger sound and only extends it,
      whatever bundles are installed. */
  lemma LedgerStepSound(w: World, s: Site, step: Step)
    requires LedgerSound(w, s) && Perform(w, s, step).Some?
    ensures var s' := Perform(w, s, step).value; LedgerSound(w, s') && s.Receipts() <= s'.Receipts()
  {
    match step
    case VerifyLedger(a, scan, decision) => VerifyLedgerSound(w, s, a, scan, decision);
    case LinkReceipt(a) => LinkReceiptStepSound(w, s, a);
    case _ =>
      OtherStepKeepsLedger(w, s, step);
      SameSlotsSameFiles(s.ledger, Perform(w, s, step).value.ledger);
      assert AcceptorSound(w, s, s.Role(step.actor));
      OtherAcceptorsStaySound(w, s, Perform(w, s, step).value, step.actor);
  }

  lemma OtherStepKeepsLedger(w: World, s: Site, step: Step)
    requires Perform(w, s, step).Some? && !step.VerifyLedger? && !step.LinkReceipt?
    ensures var s' := Perform(w, s, step).value;
            && s'.ledger.slots == s.ledger.slots
            && (forall b :: b != step.actor ==> s'.Role(b) == s.Role(b))
            && (s'.Role(step.actor).Accepting? ==> s'.Role(step.actor) == s.Role(step.actor))
  {
  }

  /** The next file of a bundle continues the part of the series it matches. */
  lemma BundleContinues(w: World, s: Site, names: seq<nat>, bundle: seq<CheckpointFile>, next: nat)
    requires SeriesActorSound(w, s, Installing(names, bundle, next)) && next <= |bundle|
    ensures ContinuesSeries(w.checkpointHash, w.key, s.Checkpoints()[..next - 1], bundle[next - 1])
  {
    assert CheckpointPassesAt(w.checkpointHash, w.key, bundle, next - 1);
    var prefix := s.Checkpoints()[..next - 1];
    assert prefix == bundle[..next - 1];
    assert next > 1 ==> prefix[next - 2] == bundle[next - 2];
  }

  /** Equal digests of all installed files mean equal files. */
  lemma ComparedBundleMatches(w: World, s: Site, a: nat)
    requires SeriesSound(w, s) && CollisionFree(w, s)
    requires Perform(w, s, CompareBundle(a)).Some?
    ensures SeriesActorSound(w, s, Installing(s.Role(a).names, s.Role(a).bundle, s.Role(a).installed + 1))
  {
    var role := s.Role(a);
    assert SeriesActorSound(w, s, role);
    forall i | 0 <= i < role.installed ensures s.Checkpoints()[i] == role.bundle[i] {
      assert !Collide(w.checkpointHash, s.Checkpoints()[i], role.bundle[i]);
    }
  }

  lemma ReadLedgerSound(w: World, s: Site, a: nat, scan: Directory<ReceiptFile>, createdAt: int)
    requires ProducesSha256(w.receiptHash)
    requires SeriesSound(w, s) && Perform(w, s, ReadLedger(a, scan, createdAt)).Some?
    ensures SeriesSound(w, Perform(w, s, ReadLedger(a, scan, createdAt)).value)
  {
    var snapshot := s.Role(a).snapshot;
    assert SeriesActorSound(w, s, s.Role(a));
    assert snapshot == s.Checkpoints()[..|snapshot|];
    ValidCheckpointsPrefix(w.checkpointHash, w.key, s.Checkpoints(), |snapshot|);
    NextCheckpointContinues(w.checkpointHash, w.receiptHash, w.key, snapshot, Files(scan), createdAt);
    BecomesSound(w, s, a, Perform(w, s, ReadLedger(a, scan, createdAt)).value.Role(a));
  }

  lemma LinkCheckpointStepSound(w: World, s: Site, a: nat)
    requires SeriesSound(w, s) && Perform(w, s, LinkCheckpoint(a)).Some?
    ensures var s' := Perform(w, s, LinkCheckpoint(a)).value;
            SeriesSound(w, s') && s.Checkpoints() <= s'.Checkpoints()
  {
    var s' := Perform(w, s, LinkCheckpoint(a)).value;
    assert SeriesActorSound(w, s, s.Role(a));
    LinkCheckpointSound(w, s, s.Role(a).generation, s.Role(a).checkpoint);
    if s'.series.slots == s.series.slots {
      SameSlotsSameFiles(s.series, s'.series);
    }
    OthersStaySound(w, s, s', a);
  }

  /** A matching file at the next name extends the matched prefix by one. */
  lemma MatchedOneMore(w: World, s: Site, names: seq<nat>, bundle: seq<CheckpointFile>, next: nat)
    requires SeriesSound(w, s) && SeriesActorSound(w, s, Installing(names, bundle, next))
    requires 1 <= next <= |bundle| && next in s.series.slots && s.series.slots[next] == bundle[next - 1]
    ensures SeriesActorSound(w, s, Installing(names, bundle, next + 1))
  {
    ContiguousFiles(s.series, |s.Checkpoints()|);
    assert s.Checkpoints()[..next] == s.Checkpoints()[..next - 1] + [s.Checkpoints()[next - 1]];
    assert bundle[..next] == bundle[..next - 1] + [bundle[next - 1]];
  }

  lemma CompareBundleSound(w: World, s: Site, a: nat)
    requires SeriesSound(w, s) && CollisionFree(w, s) && Perform(w, s, CompareBundle(a)).Some?
    ensures SeriesSound(w, Perform(w, s, CompareBundle(a)).value)
  {
    ComparedBundleMatches(w, s, a);
    BecomesSound(w, s, a, Installing(s.Role(a).names, s.Role(a).bundle, s.Role(a).installed + 1));
  }

  lemma MatchExistingSound(w: World, s: Site, a: nat)
    requires SeriesSound(w, s) && Perform(w, s, MatchExisting(a)).Some?
    ensures SeriesSound(w, Perform(w, s, MatchExisting(a)).value)
  {
    assert SeriesActorSound(w, s, s.Role(a));
    AfterConflictSound(w, s, s.Role(a));
    BecomesSound(w, s, a, AfterConflict(s, s.Role(a)));
  }

  lemma AfterConflictSound(w: World, s: Site, role: Actor)
    requires SeriesSound(w, s) && role.Publishes() && SeriesActorSound(w, s, role)
    ensures SeriesActorSound(w, s, AfterConflict(s, role))
  {
    if AfterConflict(s, role).Installing? {
      MatchedOneMore(w, s, role.names, role.bundle, role.next);
    }
  }

  /** A sound role for one process, and nothing else, changes. */
  lemma BecomesSound(w: World, s: Site, a: nat, role: Actor)
    requires SeriesSound(w, s) && SeriesActorSound(w, s, role)
    ensures SeriesSound(w, s.Becomes(a, role))
  {
    OthersStaySound(w, s, s.Becomes(a, role), a);
  }

  lemma PrefixOneMore(files: seq<CheckpointFile>, bundle: seq<CheckpointFile>, next: nat)
    requires 1 <= next <= |bundle| && next == |files| + 1 && files[..next - 1] == bundle[..next - 1]
    ensures files + [bundle[next - 1]] == bundle[..next]
    ensures (files + [bundle[next - 1]])[..next] == bundle[..next]
  {
    assert files[..next - 1] == files;
  }

  lemma LinkInstalledSound(w: World, s: Site, a: nat)
    requires SeriesSound(w, s) && Perform(w, s, LinkInstalled(a)).Some?
    ensures var s' := Perform(w, s, LinkInstalled(a)).value;
            SeriesSound(w, s') && s.Checkpoints() <= s'.Checkpoints()
  {
    var role := s.Role(a);
    assert SeriesActorSound(w, s, role) && role.names[role.next - 1] == role.next;
    if LinkExclusive(s.series, role.next, role.bundle[role.next - 1]).Some? {
      InstalledSound(w, s, a, LinkExclusive(s.series, role.next, role.bundle[role.next - 1]).value);
    } else {
      AfterConflictSound(w, s, role);
      BecomesSound(w, s, a, AfterConflict(s, role));
    }
  }

  lemma InstalledSound(w: World, s: Site, a: nat, linked: Directory<CheckpointFile>)
    requires SeriesSound(w, s) && s.Role(a).Publishes()
    requires LinkExclusive(s.series, s.Role(a).next, s.Role(a).bundle[s.Role(a).next - 1]) == Some(linked)
    ensures var s' := s.(series := linked).Becomes(a, s.Role(a).(next := s.Role(a).next + 1));
            SeriesSound(w, s') && s.Checkpoints() <= s'.Checkpoints()
  {
    var names, bundle, next := s.Role(a).names, s.Role(a).bundle, s.Role(a).next;
    assert SeriesActorSound(w, s, s.Role(a)) && names[next - 1] == next;
    BundleContinues(w, s, names, bundle, next);
    LinkCheckpointSound(w, s, next, bundle[next - 1]);
    PrefixOneMore(s.Checkpoints(), bundle, next);
    OthersStaySound(w, s, s.(series := linked).Becomes(a, s.Role(a).(next := next + 1)), a);
  }

  lemma ReadSeriesSound(w: World, s: Site, step: Step)
    requires SeriesSound(w, s) && Perform(w, s, step).Some?
    requires step.ReadSeries? || (step.OpenBundle? && NumberedStep(step))
    ensures SeriesSound(w, Perform(w, s, step).value)
  {
    CheckpointScanIsPrefix(w, s, step.checkpointScan);
    OthersStaySound(w, s, Perform(w, s, step).value, step.actor);
  }

  /** Acceptors and temporary files touch no checkpoint. */
  lemma UnrelatedStepSound(w: World, s: Site, step: Step)
    requires SeriesSound(w, s) && Perform(w, s, step).Some?
    requires step.VerifyLedger? || step.StageReceipt? || step.LinkReceipt? || step.StageCheckpoint?
             || step.RemoveTemporary? || step.Stop?
    ensures SeriesSound(w, Perform(w, s, step).value)
    ensures s.Checkpoints() <= Perform(w, s, step).value.Checkpoints()
  {
    var s' := Perform(w, s, step).value;
    SameSlotsSameFiles(s.series, s'.series);
    SeriesActorSoundGrows(w, s, s', s.Role(step.actor));
    OthersStaySound(w, s, s', step.actor);
  }

  /** Every step that opens no bundle with other names than 1..n keeps the series
      sound and only extends it. */
  lemma SeriesStepSound(w: World, s: Site, step: Step)
    requires ProducesSha256(w.receiptHash)
    requires SeriesSound(w, s) && CollisionFree(w, s) && Perform(w, s, step).Some? && NumberedStep(step)
    ensures SeriesSound(w, Perform(w, s, step).value)
    ensures s.Checkpoints() <= Perform(w, s, step).value.Checkpoints()
  {
    match step
    case ReadLedger(a, scan, createdAt) => ReadLedgerSound(w, s, a, scan, createdAt);
    case LinkCheckpoint(a) => LinkCheckpointStepSound(w, s, a);
    case CompareBundle(a) => CompareBundleSound(w, s, a);
    case MatchExisting(a) => MatchExistingSound(w, s, a);
    case LinkInstalled(a) => LinkInstalledSound(w, s, a);
    case ReadSeries(_, _) => ReadSeriesSound(w, s, step);
    case OpenBundle(_, _, _, _) => ReadSeriesSound(w, s, step);
    case _ => UnrelatedStepSound(w, s, step);
  }

  /** Both halves together. */
  lemma StepSound(w: World, s: Site, step: Step)
    requires ProducesSha256(w.receiptHash)
    requires Sound(w, s) && CollisionFree(w, s) && Perform(w, s, step).Some? && NumberedStep(step)
    ensures Sound(w, Perform(w, s, step).value) && Grows(s, Perform(w, s, step).value)
  {
    LedgerStepSound(w, s, step);
    SeriesStepSound(w, s, step);
  }

  /** An interleaving: step i takes state i to state i + 1. */
  datatype Run = Run(states: seq<Site>, steps: seq<Step>)

  ghost predicate StepAt(w: World, run: Run, i: nat) {
    && i < |run.steps| && i + 1 < |run.states|
    && Perform(w, run.states[i], run.steps[i]) == Some(run.states[i + 1])
  }

  ghost predicate Interleaving(w: World, run: Run) {
    && |run.states| == |run.steps| + 1
    && Initial(run.states[0])
    && forall i: nat {:trigger StepAt(w, run, i)} :: i < |run.steps| ==> StepAt(w, run, i)
  }

  /** An interleaving in which no installer ever looks at a SHA-256 collision. */
  ghost predicate IsRun(w: World, run: Run) {
    && Interleaving(w, run)
    && (forall i {:trigger CollisionFree(w, run.states[i])} :: 0 <= i < |run.states| ==>
          CollisionFree(w, run.states[i]))
  }

  /** Every bundle opened in the first n steps has the names 1..k. */
  ghost predicate NumberedRun(run: Run, n: nat) {
    && n <= |run.steps|
    && forall k {:trigger NumberedStep(run.steps[k])} :: 0 <= k < n ==> NumberedStep(run.steps[k])
  }

  lemma InitialSound(w: World, s: Site)
    requires Initial(s)
    ensures Sound(w, s)
  {
    assert Contiguous(s.ledger, 0) && Contiguous(s.series, 0);
    ContiguousFiles(s.ledger, 0);
    ContiguousFiles(s.series, 0);
  }

  lemma RunStepSound(w: World, run: Run, i: nat)
    requires ProducesSha256(w.receiptHash)
    requires IsRun(w, run) && i < |run.steps| && NumberedStep(run.steps[i]) && Sound(w, run.states[i])
    ensures Sound(w, run.states[i + 1]) && Grows(run.states[i], run.states[i + 1])
  {
    assert StepAt(w, run, i);
    StepSound(w, run.states[i], run.steps[i]);
  }

  /** In every interleaving of any number of acceptors, appenders and installers,
      after every step the receipts are named 1..n and form a contiguous signed
      hash chain without a repeated request, and the checkpoints are named 1..m and
      form a verifying series - the latter as long as the opened bundles have the
      names that init, append and build give. */
  lemma {:induction false} EveryStateSound(w: World, run: Run, i: nat)
    requires ProducesSha256(w.receiptHash)
    requires IsRun(w, run) && i < |run.states| && NumberedRun(run, i)
    ensures Sound(w, run.states[i])
  {
    if i == 0 {
      InitialSound(w, run.states[0]);
    } else {
      assert NumberedStep(run.steps[i - 1]);
      EveryStateSound(w, run, i - 1);
      RunStepSound(w, run, i - 1);
    }
  }

  /** The ledger stays sound in every interleaving, whatever bundles are opened and
      whatever the digests of checkpoints. */
  lemma {:induction false} EveryLedgerSound(w: World, run: Run, i: nat)
    requires Interleaving(w, run) && i < |run.states|
    ensures LedgerSound(w, run.states[i])
  {
    if i == 0 {
      InitialSound(w, run.states[0]);
    } else {
      EveryLedgerSound(w, run, i - 1);
      assert StepAt(w, run, i - 1);
      LedgerStepSound(w, run.states[i - 1], run.steps[i - 1]);
    }
  }

  lemma NextLedgerGrows(w: World, run: Run, i: nat, next: nat)
    requires Interleaving(w, run) && i < |run.steps| && next == i + 1
    ensures run.states[i].Receipts() <= run.states[next].Receipts()
  {
    EveryLedgerSound(w, run, i);
    assert StepAt(w, run, i);
    LedgerStepSound(w, run.states[i], run.steps[i]);
  }

  /** No published receipt ever moves or changes. */
  lemma {:induction false} LedgerOnlyGrows(w: World, run: Run, i: nat, j: nat)
    requires Interleaving(w, run) && i <= j < |run.states|
    ensures run.states[i].Receipts() <= run.states[j].Receipts()
    decreases j
  {
    if i < j {
      LedgerOnlyGrows(w, run, i, j - 1);
      NextLedgerGrows(w, run, j - 1, j);
    }
  }

  /** Every published file of the one directory is in the other, under its name. */
  ghost predicate Keeps<F>(d: Directory<F>, d': Directory<F>) {
    forall k :: k in d.slots ==> k in d'.slots && d'.slots[k] == d.slots[k]
  }

  lemma LinkKeeps<F>(d: Directory<F>, number: nat, file: F)
    ensures LinkExclusive(d, number, file).Some? ==> Keeps(d, LinkExclusive(d, number, file).value)
  {
  }

  lemma StepKeepsFiles(w: World, s: Site, step: Step)
    requires Perform(w, s, step).Some?
    ensures var s' := Perform(w, s, step).value; Keeps(s.ledger, s'.ledger) && Keeps(s.series, s'.series)
  {
    var role := s.Role(step.actor);
    match step
    case LinkReceipt(_) => LinkKeeps(s.ledger, role.sequence, role.receipt);
    case LinkCheckpoint(_) => LinkKeeps(s.series, role.generation, role.checkpoint);
    case LinkInstalled(_) => LinkKeeps(s.series, role.names[role.next - 1], role.bundle[role.next - 1]);
    case _ =>
  }

  /** No published file of either directory is ever removed or changed, in any
      interleaving, whatever bundles are opened and whatever the digests. */
  lemma {:induction false} PublishedFilesStay(w: World, run: Run, i: nat, j: nat)
    requires Interleaving(w, run) && i <= j < |run.states|
    ensures Keeps(run.states[i].ledger, run.states[j].ledger)
    ensures Keeps(run.states[i].series, run.states[j].series)
    decreases j
  {
    if i < j {
      PublishedFilesStay(w, run, i, j - 1);
      NextFilesStay(w, run, j - 1, j);
    }
  }

  lemma NextFilesStay(w: World, run: Run, i: nat, next: nat)
    requires Interleaving(w, run) && i < |run.steps| && next == i + 1
    ensures Keeps(run.states[i].ledger, run.states[next].ledger)
    ensures Keeps(run.states[i].series, run.states[next].series)
  {
    assert StepAt(w, run, i);
    StepKeepsFiles(w, run.states[i], run.steps[i]);
  }

  /** At step i an installer gets past this name with this file: it linked the file
      or found it there. */
  ghost predicate GetsPast(run: Run, i: nat, name: nat, file: CheckpointFile) {
    && i < |run.steps| < |run.states| && (run.steps[i].LinkInstalled? || run.steps[i].MatchExisting?)
    && var role := run.states[i].Role(run.steps[i].actor);
    && role.Publishes() && role.names[role.next - 1] == name && role.bundle[role.next - 1] == file
    && run.states[i + 1].Role(run.steps[i].actor) == role.(next := role.next + 1)
  }

  lemma PassedNameHolds(w: World, run: Run, i: nat, name: nat, file: CheckpointFile)
    requires Interleaving(w, run) && GetsPast(run, i, name, file)
    ensures var d := run.states[i + 1].series; name in d.slots && d.slots[name] == file
  {
    assert StepAt(w, run, i);
  }

  /** Of two installers whose bundles hold different files under one name, at most
      one ever gets past that name - in any interleaving. */
  lemma ForkedNamesExclude(
    w: World, run: Run, i: nat, j: nat, name: nat, file: CheckpointFile, other: CheckpointFile)
    requires Interleaving(w, run) && file != other
    ensures !(GetsPast(run, i, name, file) && GetsPast(run, j, name, other))
  {
    if GetsPast(run, i, name, file) && GetsPast(run, j, name, other) {
      PassedNameHolds(w, run, i, name, file);
      PassedNameHolds(w, run, j, name, other);
      if i <= j {
        PublishedFilesStay(w, run, i + 1, j + 1);
      } else {
        PublishedFilesStay(w, run, j + 1, i + 1);
      }
    }
  }

  lemma NextStateGrows(w: World, run: Run, i: nat, next: nat)
    requires ProducesSha256(w.receiptHash)
    requires IsRun(w, run) && i < |run.steps| && next == i + 1 && NumberedRun(run, next)
    ensures Grows(run.states[i], run.states[next])
  {
    EveryStateSound(w, run, i);
    assert NumberedStep(run.steps[i]);
    RunStepSound(w, run, i);
  }

  function Extend(run: Run, step: Step, s: Site): Run {
    Run(run.states + [s], run.steps + [step])
  }

  lemma OneMoreStep(w: World, run: Run, step: Step, s: Site)
    requires IsRun(w, run) && Perform(w, run.states[|run.steps|], step) == Some(s) && CollisionFree(w, s)
    ensures IsRun(w, Extend(run, step, s))
  {
    var longer := Extend(run, step, s);
    forall i: nat | i < |longer.steps| ensures StepAt(w, longer, i) {
      assert i < |run.steps| ==> StepAt(w, run, i);
    }
    forall i | 0 <= i < |longer.states| ensures CollisionFree(w, longer.states[i]) {
      assert i < |run.states| ==> CollisionFree(w, run.states[i]) && longer.states[i] == run.states[i];
    }
  }

  /** A lone installer has published the first k files of its bundle. */
  ghost predicate FreshlyInstalled(s: Site, names: seq<nat>, bundle: seq<CheckpointFile>, k: nat) {
    && k <= |bundle| == |names|
    && s.ledger == Directory(map[], {}) && s.series.others == {Temporary(0)}
    && s.actors == map[0 := Installing(names, bundle, k + 1)]
    && s.Checkpoints() == bundle[..k] && SortedNats(s.series.slots.Keys) == names[..k]
  }

  ghost predicate Opens(run: Run, names: seq<nat>, bundle: seq<CheckpointFile>) {
    run.steps != [] && run.steps[0].OpenBundle? && run.steps[0].names == names && run.steps[0].bundle == bundle
  }

  lemma FreshOpened(w: World, names: seq<nat>, bundle: seq<CheckpointFile>) returns (run: Run)
    requires bundle != [] && FileNames(names, |bundle|) && ValidCheckpoints(w.checkpointHash, w.key, bundle)
    ensures IsRun(w, run) && Opens(run, names, bundle)
    ensures run.states[|run.steps|]
            == Site(Directory(map[], {}), Directory(map[], {}), map[0 := Comparing(names, bundle, 0)])
  {
    var empty: Directory<CheckpointFile> := Directory(map[], {});
    var s := Site(Directory(map[], {}), empty, map[]);
    InitialSound(w, s);
    var opening := OpenBundle(0, names, bundle, empty);
    OneMoreStep(w, Run([s], []), opening, s.Becomes(0, Comparing(names, bundle, 0)));
    run := Extend(Run([s], []), opening, s.Becomes(0, Comparing(names, bundle, 0)));
  }

  lemma FreshStart(w: World, names: seq<nat>, bundle: seq<CheckpointFile>) returns (run: Run)
    requires bundle != [] && FileNames(names, |bundle|) && ValidCheckpoints(w.checkpointHash, w.key, bundle)
    ensures IsRun(w, run) && Opens(run, names, bundle)
    ensures FreshlyInstalled(run.states[|run.steps|], names, bundle, 0)
  {
    run := FreshOpened(w, names, bundle);
    var installing := run.states[|run.steps|].Becomes(0, Installing(names, bundle, 1));
    OneMoreStep(w, run, CompareBundle(0), installing);
    run := Extend(run, CompareBundle(0), installing);
    var staged := installing.(series := Stage(installing.series, 0));
    OneMoreStep(w, run, StageCheckpoint(0), staged);
    run := Extend(run, StageCheckpoint(0), staged);
    SameSlotsSameFiles(installing.series, staged.series);
  }

  lemma FreshNext(w: World, s: Site, names: seq<nat>, bundle: seq<CheckpointFile>, k: nat) returns (next: Site)
    requires FreshlyInstalled(s, names, bundle, k) && k < |bundle| && FileNames(names, |bundle|)
    ensures Perform(w, s, LinkInstalled(0)) == Some(next) && CollisionFree(w, next)
    ensures FreshlyInstalled(next, names, bundle, k + 1)
  {
    NextNameLinks(s.series, names, bundle[k], k);
    var linked := LinkExclusive(s.series, names[k], bundle[k]).value;
    next := s.(series := linked).Becomes(0, Installing(names, bundle, k + 2));
    assert bundle[..k + 1] == bundle[..k] + [bundle[k]];
  }

  lemma NextNameLinks(d: Directory<CheckpointFile>, names: seq<nat>, file: CheckpointFile, k: nat)
    requires k < |names| && FileNames(names, |names|) && SortedNats(d.slots.Keys) == names[..k]
    ensures var linked := LinkExclusive(d, names[k], file);
            && linked.Some? && linked.value.others == d.others && Files(linked.value) == Files(d) + [file]
            && SortedNats(linked.value.slots.Keys) == names[..k + 1]
  {
    NextNameAbove(d.slots.Keys, names, k);
    LinkAtEnd(d, names[k], file);
    SortedNatsAppend(d.slots.Keys, names[k]);
    assert d.slots[names[k] := file].Keys == d.slots.Keys + {names[k]};
    assert names[..k + 1] == names[..k] + [names[k]];
  }

  lemma NextNameAbove(taken: set<nat>, names: seq<nat>, k: nat)
    requires k < |names| && Ascending(NatLess, names) && SortedNats(taken) == names[..k]
    ensures forall m :: m in taken ==> m < names[k]
  {
    SortedNatsFacts(taken);
    forall m | m in taken ensures m < names[k] {
      assert m in names[..k];
      var i :| 0 <= i < k && names[i] == m;
      assert NatLess(names[i], names[k]);
    }
  }

  lemma {:induction false} FreshInstall(w: World, names: seq<nat>, bundle: seq<CheckpointFile>, k: nat)
    returns (run: Run)
    requires bundle != [] && FileNames(names, |bundle|) && ValidCheckpoints(w.checkpointHash, w.key, bundle)
    requires k <= |bundle|
    ensures IsRun(w, run) && Opens(run, names, bundle)
    ensures FreshlyInstalled(run.states[|run.steps|], names, bundle, k)
  {
    if k == 0 {
      run := FreshStart(w, names, bundle);
    } else {
      run := FreshInstall(w, names, bundle, k - 1);
      var next := FreshNext(w, run.states[|run.steps|], names, bundle, k - 1);
      OneMoreStep(w, run, LinkInstalled(0), next);
      run := Extend(run, LinkInstalled(0), next);
    }
  }

  /** The names of a signed bundle decide: installed into a fresh series, it leaves
      the files named 1..n if and only if it is named 1..n itself, although the
      series verifies in any case. */
  lemma BundleNamesDecide(w: World, names: seq<nat>, bundle: seq<CheckpointFile>) returns (run: Run)
    requires bundle != [] && FileNames(names, |bundle|) && ValidCheckpoints(w.checkpointHash, w.key, bundle)
    ensures IsRun(w, run) && Opens(run, names, bundle)
    ensures var last := run.states[|run.steps|];
            && last.Checkpoints() == bundle && SortedNats(last.series.slots.Keys) == names
            && (SeriesSound(w, last) <==> Numbered(names, |bundle|))
  {
    run := FreshInstall(w, names, bundle, |bundle|);
    InstalledNames(w, run.states[|run.steps|], names, bundle);
  }

  lemma InstalledNames(w: World, s: Site, names: seq<nat>, bundle: seq<CheckpointFile>)
    requires ValidCheckpoints(w.checkpointHash, w.key, bundle) && FileNames(names, |bundle|)
    requires FreshlyInstalled(s, names, bundle, |bundle|)
    ensures s.Checkpoints() == bundle && SortedNats(s.series.slots.Keys) == names
    ensures SeriesSound(w, s) <==> Numbered(names, |bundle|)
  {
    assert bundle[..|bundle|] == bundle && names[..|bundle|] == names;
    ContiguousNames(s.series, names, |bundle|);
  }

  lemma ContiguousNames(d: Directory<CheckpointFile>, names: seq<nat>, n: nat)
    requires SortedNats(d.slots.Keys) == names && FileNames(names, n)
    ensures Contiguous(d, n) <==> Numbered(names, n)
  {
    if Contiguous(d, n) {
      SortedInterval(d.slots.Keys, n);
    }
    if Numbered(names, n) {
      NumberedNames(d.slots.Keys, n);
    }
  }

  lemma NumberedNames(taken: set<nat>, n: nat)
    requires SortedNats(taken) == Interval(n)
    ensures forall k: nat :: k in taken <==> 1 <= k <= n
  {
    SortedNatsFacts(taken);
    forall k: nat ensures k in taken <==> 1 <= k <= n {
      assert k in taken <==> k in Interval(n);
      assert 1 <= k <= n ==> Interval(n)[k - 1] == k;
    }
  }

  /** The last three steps of a run: another process opens this bundle, named 1..n,
      compares it, and tries to publish its last file. */
  ghost predicate EndsWithInstall(run: Run, bundle: seq<CheckpointFile>) {
    var m := |run.steps| - 4;
    && m >= 0 && run.steps[m].OpenBundle? && run.steps[m].actor == 1 && run.steps[m].bundle == bundle
    && run.steps[m].names == Interval(|bundle|)
    && run.steps[m + 1] == CompareBundle(1) && run.steps[m + 2] == StageCheckpoint(1)
    && run.steps[m + 3] == LinkInstalled(1)
  }

  /** A second process has opened and compared the bundle that is one file longer
      than the installed series. */
  ghost predicate SecondInstalling(
    s: Site, names: seq<nat>, bundle: seq<CheckpointFile>, longer: seq<CheckpointFile>)
  {
    && SortedNats(s.series.slots.Keys) == names && s.Checkpoints() == bundle
    && Temporary(1) in s.series.others
    && s.actors == map[
         0 := Installing(names, bundle, |bundle| + 1), 1 := Installing(Interval(|longer|), longer, |longer|)]
  }

  lemma IntervalIsFileNames(n: nat)
    requires n <= MAX_SLOT
    ensures FileNames(Interval(n), n)
  {
  }

  lemma SecondOpens(
    w: World, run: Run, names: seq<nat>, bundle: seq<CheckpointFile>, longer: seq<CheckpointFile>)
    returns (more: Run)
    requires IsRun(w, run) && FreshlyInstalled(run.states[|run.steps|], names, bundle, |bundle|)
    requires ValidCheckpoints(w.checkpointHash, w.key, longer)
    requires |bundle| + 1 == |longer| <= MAX_SLOT && longer[..|bundle|] == bundle
    ensures IsRun(w, more) && run.steps <= more.steps && |more.steps| == |run.steps| + 1
    ensures more.steps[|run.steps|].OpenBundle? && more.steps[|run.steps|].actor == 1
    ensures more.steps[|run.steps|].bundle == longer && more.steps[|run.steps|].names == Interval(|longer|)
    ensures more.states[|more.steps|]
            == run.states[|run.steps|].Becomes(1, Comparing(Interval(|longer|), longer, |bundle|))
  {
    var s := run.states[|run.steps|];
    var scan := Directory(s.series.slots, {});
    SameSlotsSameFiles(scan, s.series);
    assert bundle[..|bundle|] == bundle;
    ValidCheckpointsPrefix(w.checkpointHash, w.key, longer, |bundle|);
    IntervalIsFileNames(|longer|);
    var opening := OpenBundle(1, Interval(|longer|), longer, scan);
    var next := s.Becomes(1, Comparing(Interval(|longer|), longer, |bundle|));
    assert next.Checkpoints() == bundle;
    assert Perform(w, s, opening) == Some(next);
    OneMoreStep(w, run, opening, next);
    more := Extend(run, opening, next);
  }

  lemma SecondCompares(
    w: World, run: Run, names: seq<nat>, bundle: seq<CheckpointFile>, longer: seq<CheckpointFile>)
    returns (more: Run)
    requires IsRun(w, run)
    requires var s := run.states[|run.steps|];
             && SortedNats(s.series.slots.Keys) == names && s.Checkpoints() == bundle
             && s.actors == map[
                  0 := Installing(names, bundle, |bundle| + 1),
                  1 := Comparing(Interval(|longer|), longer, |bundle|)]
    requires |bundle| + 1 == |longer| && longer[..|bundle|] == bundle
    ensures IsRun(w, more) && more.steps == run.steps + [CompareBundle(1), StageCheckpoint(1)]
    ensures SecondInstalling(more.states[|more.steps|], names, bundle, longer)
  {
    var s := run.states[|run.steps|];
    var installing := s.Becomes(1, Installing(Interval(|longer|), longer, |longer|));
    assert forall i :: 0 <= i < |bundle| ==> bundle[i] == longer[i];
    OneMoreStep(w, run, CompareBundle(1), installing);
    more := Extend(run, CompareBundle(1), installing);
    var staged := installing.(series := Stage(installing.series, 1));
    OneMoreStep(w, more, StageCheckpoint(1), staged);
    more := Extend(more, StageCheckpoint(1), staged);
    SameSlotsSameFiles(installing.series, staged.series);
  }

  /** What publishing the next generation under its own number does to a series. */
  lemma NextNumberDecides(
    w: World, d: Directory<CheckpointFile>, bundle: seq<CheckpointFile>, longer: seq<CheckpointFile>, n: nat)
    requires ValidCheckpoints(w.checkpointHash, w.key, longer) && Files(d) == bundle
    requires |bundle| + 1 == |longer| == n <= MAX_SLOT && longer[..|bundle|] == bundle
    ensures var linked := LinkExclusive(d, n, longer[n - 1]);
            && (linked.None? <==> n in d.slots)
            && (linked.Some? && (forall k :: k in d.slots ==> k < n) ==> Files(linked.value) == longer)
            && (linked.Some? && !(forall k :: k in d.slots ==> k < n) ==>
                  !ValidCheckpoints(w.checkpointHash, w.key, Files(linked.value)))
  {
    var file := longer[n - 1];
    assert CheckpointPassesAt(w.checkpointHash, w.key, longer, n - 1);
    ValidCheckpointsPrefix(w.checkpointHash, w.key, longer, |bundle|);
    if n !in d.slots {
      if k :| k in d.slots && k >= n {
        LinkedBelowNeverPasses(w.checkpointHash, w.key, d, d.(slots := d.slots[n := file]), n, k);
      } else {
        LinkAtEnd(d, n, file);
        assert longer == bundle + [file];
      }
    }
  }

  /** The series after the next generation was brought under its own number: if that
      name was taken, as it was; if all names were below it, grown; and otherwise
      no longer verifying. */
  ghost predicate GrowthDecided(
    w: World, names: seq<nat>, bundle: seq<CheckpointFile>, longer: seq<CheckpointFile>,
    after: seq<CheckpointFile>)
  {
    if |longer| in names then after == bundle
    else if forall k :: k in names ==> k < |longer| then after == longer
    else !ValidCheckpoints(w.checkpointHash, w.key, after)
  }

  lemma NextNumberGrowth(
    w: World, d: Directory<CheckpointFile>, names: seq<nat>, bundle: seq<CheckpointFile>,
    longer: seq<CheckpointFile>)
    requires ValidCheckpoints(w.checkpointHash, w.key, longer) && Files(d) == bundle
    requires |bundle| + 1 == |longer| <= MAX_SLOT && longer[..|bundle|] == bundle
    requires SortedNats(d.slots.Keys) == names
    ensures var linked := LinkExclusive(d, |longer|, longer[|bundle|]);
            GrowthDecided(w, names, bundle, longer, if linked.Some? then Files(linked.value) else bundle)
  {
    SortedNatsFacts(d.slots.Keys);
    NextNumberDecides(w, d, bundle, longer, |longer|);
  }

  lemma SecondLinks(
    w: World, run: Run, names: seq<nat>, bundle: seq<CheckpointFile>, longer: seq<CheckpointFile>)
    returns (more: Run)
    requires IsRun(w, run) && SecondInstalling(run.states[|run.steps|], names, bundle, longer)
    requires |bundle| + 1 == |longer| <= MAX_SLOT
    ensures IsRun(w, more) && more.steps == run.steps + [LinkInstalled(1)]
    ensures var linked := LinkExclusive(run.states[|run.steps|].series, |longer|, longer[|bundle|]);
            more.states[|more.steps|].Checkpoints() == if linked.Some? then Files(linked.value) else bundle
  {
    var s := run.states[|run.steps|];
    var role := s.Role(1);
    var linked := LinkExclusive(s.series, |longer|, longer[|bundle|]);
    var next := if linked.Some? then s.(series := linked.value).Becomes(1, role.(next := role.next + 1))
                else s.Becomes(1, AfterConflict(s, role));
    assert role.names[role.next - 1] == |longer|;
    OneMoreStep(w, run, LinkInstalled(1), next);
    more := Extend(run, LinkInstalled(1), next);
  }

  /** What becomes of a series with these names when a later run brings the next
      generation, in a bundle named 1..n + 1: if that name is taken, nothing more can
      be added under it; if all names are at most n, the series grows; and otherwise
      it stops verifying. */
  lemma NamesDecideGrowth(
    w: World, names: seq<nat>, bundle: seq<CheckpointFile>, longer: seq<CheckpointFile>) returns (run: Run)
    requires bundle != [] && FileNames(names, |bundle|)
    requires ValidCheckpoints(w.checkpointHash, w.key, longer)
    requires |bundle| + 1 == |longer| <= MAX_SLOT && longer[..|bundle|] == bundle
    ensures IsRun(w, run) && Opens(run, names, bundle) && EndsWithInstall(run, longer)
    ensures GrowthDecided(w, names, bundle, longer, run.states[|run.steps|].Checkpoints())
  {
    ValidCheckpointsPrefix(w.checkpointHash, w.key, longer, |bundle|);
    var installed := FreshInstall(w, names, bundle, |bundle|);
    InstalledNames(w, installed.states[|installed.steps|], names, bundle);
    var opening := SecondOpens(w, installed, names, bundle, longer);
    SameSlotsSameFiles(installed.states[|installed.steps|].series, opening.states[|opening.steps|].series);
    var compared := SecondCompares(w, opening, names, bundle, longer);
    NextNumberGrowth(w, compared.states[|compared.steps|].series, names, bundle, longer);
    run := SecondLinks(w, compared, names, bundle, longer);
  }

  /** Two processes have opened two bundles of one file before either was published. */
  ghost predicate BothOpen(s: Site, m: nat, n: nat, c: CheckpointFile, d: CheckpointFile) {
    && s.ledger == Directory(map[], {}) && s.series == Directory(map[], {})
    && s.actors == map[0 := Comparing([m], [c], 0), 1 := Comparing([n], [d], 0)]
  }

  lemma OpenBoth(w: World, m: nat, n: nat, c: CheckpointFile, d: CheckpointFile) returns (run: Run)
    requires m <= MAX_SLOT && n <= MAX_SLOT
    requires ValidCheckpoints(w.checkpointHash, w.key, [c]) && ValidCheckpoints(w.checkpointHash, w.key, [d])
    ensures IsRun(w, run) && BothOpen(run.states[|run.steps|], m, n, c, d)
  {
    run := FreshOpened(w, [m], [c]);
    var s := run.states[|run.steps|];
    ContiguousFiles(s.series, 0);
    var next := s.Becomes(1, Comparing([n], [d], 0));
    OneMoreStep(w, run, OpenBundle(1, [n], [d], s.series), next);
    run := Extend(run, OpenBundle(1, [n], [d], s.series), next);
  }

  lemma ReadyOne(w: World, run: Run, a: nat) returns (more: Run)
    requires IsRun(w, run) && run.states[|run.steps|].Role(a).Comparing?
    requires run.states[|run.steps|].Role(a).installed == 0
    ensures IsRun(w, more)
    ensures var s, role := run.states[|run.steps|], run.states[|run.steps|].Role(a);
            more.states[|more.steps|]
            == s.(series := Stage(s.series, a)).Becomes(a, Installing(role.names, role.bundle, 1))
  {
    var s := run.states[|run.steps|];
    var role := s.Role(a);
    var installing := s.Becomes(a, Installing(role.names, role.bundle, 1));
    StillCollisionFree(w, run, installing);
    OneMoreStep(w, run, CompareBundle(a), installing);
    more := Extend(run, CompareBundle(a), installing);
    var staged := installing.(series := Stage(installing.series, a));
    SameSlotsSameFiles(installing.series, staged.series);
    StillCollisionFree(w, more, staged);
    OneMoreStep(w, more, StageCheckpoint(a), staged);
    more := Extend(more, StageCheckpoint(a), staged);
  }

  lemma StillCollisionFree(w: World, run: Run, s: Site)
    requires IsRun(w, run) && s.series.slots == run.states[|run.steps|].series.slots
    requires forall b :: s.Role(b).Comparing? ==> s.Role(b) == run.states[|run.steps|].Role(b)
    ensures CollisionFree(w, s)
  {
    assert CollisionFree(w, run.states[|run.steps|]);
    SameSlotsSameFiles(s.series, run.states[|run.steps|].series);
  }

  lemma LinkOne(w: World, run: Run, a: nat, name: nat, file: CheckpointFile) returns (more: Run)
    requires IsRun(w, run) && name <= MAX_SLOT
    requires run.states[|run.steps|].Role(a) == Installing([name], [file], 1)
    requires Temporary(a) in run.states[|run.steps|].series.others
    requires name !in run.states[|run.steps|].series.slots
    requires forall b :: !run.states[|run.steps|].Role(b).Comparing?
    ensures IsRun(w, more)
    ensures var s := run.states[|run.steps|];
            var linked := s.series.(slots := s.series.slots[name := file]);
            more.states[|more.steps|] == s.(series := linked).Becomes(a, Installing([name], [file], 2))
  {
    var s := run.states[|run.steps|];
    var linked := s.series.(slots := s.series.slots[name := file]);
    var next := s.(series := linked).Becomes(a, Installing([name], [file], 2));
    forall b | next.Role(b).Comparing? ensures s.Role(b).Comparing? {
    }
    assert Perform(w, s, LinkInstalled(a)) == Some(next);
    OneMoreStep(w, run, LinkInstalled(a), next);
    more := Extend(run, LinkInstalled(a), next);
  }

  /** Exclusion by generation needs the names 1..n: two bundles that fork at their
      first generation, under different names, both get past it, and the series they
      leave does not verify. */
  lemma ForkedBundlesBothPass(w: World, m: nat, n: nat, c: CheckpointFile, d: CheckpointFile) returns (run: Run)
    requires m <= MAX_SLOT && n <= MAX_SLOT && m != n && c != d
    requires ValidCheckpoints(w.checkpointHash, w.key, [c]) && ValidCheckpoints(w.checkpointHash, w.key, [d])
    ensures IsRun(w, run)
    ensures var last := run.states[|run.steps|];
            && last.Role(0) == Installing([m], [c], 2) && last.Role(1) == Installing([n], [d], 2)
            && !ValidCheckpoints(w.checkpointHash, w.key, last.Checkpoints())
  {
    run := OpenBoth(w, m, n, c, d);
    run := ReadyOne(w, run, 0);
    run := ReadyOne(w, run, 1);
    run := LinkOne(w, run, 0, m, c);
    run := LinkOne(w, run, 1, n, d);
    assert CheckpointPassesAt(w.checkpointHash, w.key, [c], 0) && CheckpointPassesAt(w.checkpointHash, w.key, [d], 0);
    TwoFirstsNeverPass(w, run.states[|run.steps|].series, if m < n then m else n, if m < n then n else m);
  }

  lemma TwoFirstsNeverPass(w: World, d: Directory<CheckpointFile>, p: nat, k: nat)
    requires p in d.slots && k in d.slots && p < k
    requires d.slots[p].Generation() == 1 && d.slots[k].Generation() == 1
    ensures !ValidCheckpoints(w.checkpointHash, w.key, Files(d))
  {
    if ValidCheckpoints(w.checkpointHash, w.key, Files(d)) {
      GenerationsFollowNames(w.checkpointHash, w.key, d, p, k);
      assert false;
    }
  }

  /** No published file ever moves or changes: an earlier chain is a prefix of
      every later one. */
  lemma {:induction false} ChainsOnlyGrow(w: World, run: Run, i: nat, j: nat)
    requires ProducesSha256(w.receiptHash)
    requires IsRun(w, run) && i <= j < |run.states| && NumberedRun(run, j)
    ensures Grows(run.states[i], run.states[j])
    decreases j
  {
    if i < j {
      ChainsOnlyGrow(w, run, i, j - 1);
      KeepsGrowing(w, run, i, j - 1, j);
    }
  }

  lemma KeepsGrowing(w: World, run: Run, i: nat, j: nat, next: nat)
    requires ProducesSha256(w.receiptHash)
    requires IsRun(w, run) && i <= j < |run.steps| && next == j + 1 && NumberedRun(run, next)
    requires Grows(run.states[i], run.states[j])
    ensures Grows(run.states[i], run.states[next])
  {
    NextStateGrows(w, run, j, next);
    GrowsTransitive(run.states[i], run.states[j], run.states[next]);
  }

  lemma GrowsTransitive(s: Site, t: Site, u: Site)
    requires Grows(s, t) && Grows(t, u)
    ensures Grows(s, u)
  {
  }

  /** A receipt whose exclusive link succeeded stays in every later ledger at its
      own position, exactly when its number still fits the name pattern. */
  lemma LinkedReceiptIsPermanent(w: World, run: Run, i: nat, j: nat)
    requires Interleaving(w, run) && i < j < |run.states| && run.steps[i].LinkReceipt?
    requires var role := run.states[i].Role(run.steps[i].actor);
             role.Accepting? && LinkExclusive(run.states[i].ledger, role.sequence, role.receipt).Some?
    ensures var role := run.states[i].Role(run.steps[i].actor);
            var later := run.states[j].Receipts();
            && (role.sequence <= MAX_SLOT <==> |run.states[i + 1].Receipts()| == |run.states[i].Receipts()| + 1)
            && (role.sequence <= MAX_SLOT ==> 1 <= role.sequence <= |later| && later[role.sequence - 1] == role.receipt)
            && (role.sequence > MAX_SLOT ==> run.states[i + 1].Receipts() == run.states[i].Receipts())
  {
    var s, s' := run.states[i], run.states[i + 1];
    EveryLedgerSound(w, run, i);
    assert StepAt(w, run, i);
    LinkReceiptSound(w, s, run.steps[i].actor);
    if s'.ledger.slots == s.ledger.slots {
      SameSlotsSameFiles(s.ledger, s'.ledger);
    }
    LedgerOnlyGrows(w, run, i + 1, j);
  }

  /** Of two installers whose bundles differ at some generation, at most one ever
      gets past it, whenever each of them is looked at. */
  lemma ForkedInstallersExclude(w: World, run: Run, i: nat, j: nat, a: nat, b: nat, generation: nat)
    requires ProducesSha256(w.receiptHash)
    requires IsRun(w, run) && i < |run.states| && j < |run.states| && NumberedRun(run, i) && NumberedRun(run, j)
    requires run.states[i].Role(a).Installing? && run.states[j].Role(b).Installing?
    requires 1 <= generation <= |run.states[i].Role(a).bundle| && generation <= |run.states[j].Role(b).bundle|
    requires run.states[i].Role(a).bundle[generation - 1] != run.states[j].Role(b).bundle[generation - 1]
    ensures !(run.states[i].Role(a).next > generation && run.states[j].Role(b).next > generation)
  {
    if run.states[i].Role(a).next > generation && run.states[j].Role(b).next > generation {
      PassedGenerationHolds(w, run, i, a, generation);
      PassedGenerationHolds(w, run, j, b, generation);
      if i <= j {
        ChainsOnlyGrow(w, run, i, j);
      } else {
        ChainsOnlyGrow(w, run, j, i);
      }
    }
  }

  lemma PassedGenerationHolds(w: World, run: Run, i: nat, a: nat, generation: nat)
    requires ProducesSha256(w.receiptHash) && IsRun(w, run) && i < |run.states| && NumberedRun(run, i)
    requires run.states[i].Role(a).Installing? && 1 <= generation <= |run.states[i].Role(a).bundle|
    requires run.states[i].Role(a).next > generation
    ensures generation <= |run.states[i].Checkpoints()|
    ensures run.states[i].Checkpoints()[generation - 1] == run.states[i].Role(a).bundle[generation - 1]
  {
    var s, g := run.states[i], generation - 1;
    EveryStateSound(w, run, i);
    assert SeriesActorSound(w, s, s.Role(a));
    assert s.Checkpoints()[..s.Role(a).next - 1][g] == s.Role(a).bundle[g];
  }

  /** The checkpoint's pin was issued for a prefix of the site's ledger. */
  ghost predicate TruePin(w: World, s: Site, file: CheckpointFile) {
    file.envelope.Some? && NamesPrefix(w.receiptHash, file.envelope.value.entry.head, s.Receipts())
  }

  ghost predicate TrueBundle(w: World, s: Site, bundle: seq<CheckpointFile>) {
    forall i :: 0 <= i < |bundle| ==> TruePin(w, s, bundle[i])
  }

  ghost predicate RoleTruthful(w: World, s: Site, role: Actor) {
    && (role.Appending? ==> TruePin(w, s, role.checkpoint))
    && (role.Comparing? || role.Installing? ==> TrueBundle(w, s, role.bundle))
  }

  ghost predicate Truthful(w: World, s: Site) {
    && TrueBundle(w, s, s.Checkpoints())
    && forall a :: RoleTruthful(w, s, s.Role(a))
  }

  lemma TruthLasts(w: World, s: Site, s': Site, bundle: seq<CheckpointFile>)
    requires s.Receipts() <= s'.Receipts() && TrueBundle(w, s, bundle)
    ensures TrueBundle(w, s', bundle)
  {
    forall i | 0 <= i < |bundle| ensures TruePin(w, s', bundle[i]) {
      assert TruePin(w, s, bundle[i]);
      var count := bundle[i].envelope.value.entry.head.receiptCount;
      assert s.Receipts()[..count] == s'.Receipts()[..count];
    }
  }

  lemma RoleTruthLasts(w: World, s: Site, s': Site, role: Actor)
    requires s.Receipts() <= s'.Receipts() && RoleTruthful(w, s, role)
    ensures RoleTruthful(w, s', role)
  {
    match role
    case Appending(_, checkpoint) =>
      assert [checkpoint][0] == checkpoint;
      TruthLasts(w, s, s', [checkpoint]);
    case Comparing(_, bundle, _) => TruthLasts(w, s, s', bundle);
    case Installing(_, bundle, _) => TruthLasts(w, s, s', bundle);
    case _ =>
  }

  /** The series got some true checkpoints; one role changed. */
  lemma TruthStep(w: World, s: Site, s': Site, a: nat, added: seq<CheckpointFile>)
    requires Truthful(w, s) && s.Receipts() <= s'.Receipts()
    requires s'.Checkpoints() == s.Checkpoints() + added && TrueBundle(w, s, added)
    requires forall b :: b != a ==> s'.Role(b) == s.Role(b)
    requires RoleTruthful(w, s, s'.Role(a))
    ensures Truthful(w, s')
  {
    assert TrueBundle(w, s, s'.Checkpoints());
    TruthLasts(w, s, s', s'.Checkpoints());
    forall b: nat ensures RoleTruthful(w, s', s'.Role(b)) {
      assert RoleTruthful(w, s, s'.Role(b));
      RoleTruthLasts(w, s, s', s'.Role(b));
    }
  }

  /** A fresh pin names exactly the ledger prefix that was scanned. */
  lemma ReadLedgerTruthful(w: World, s: Site, a: nat, scan: Directory<ReceiptFile>, createdAt: int)
    requires Sound(w, s) && Truthful(w, s) && Perform(w, s, ReadLedger(a, scan, createdAt)).Some?
    ensures Truthful(w, Perform(w, s, ReadLedger(a, scan, createdAt)).value)
  {
    ReceiptScanIsPrefix(w, s, scan);
    assert s.Receipts()[..|Files(scan)|] == Files(scan);
    var s' := Perform(w, s, ReadLedger(a, scan, createdAt)).value;
    assert s'.Checkpoints() == s.Checkpoints() + [];
    TruthStep(w, s, s', a, []);
  }

  lemma LinkCheckpointTruthful(w: World, s: Site, a: nat)
    requires Sound(w, s) && Truthful(w, s) && Perform(w, s, LinkCheckpoint(a)).Some?
    ensures Truthful(w, Perform(w, s, LinkCheckpoint(a)).value)
  {
    var s' := Perform(w, s, LinkCheckpoint(a)).value;
    assert SeriesActorSound(w, s, s.Role(a)) && RoleTruthful(w, s, s.Role(a));
    LinkCheckpointSound(w, s, s.Role(a).generation, s.Role(a).checkpoint);
    if s'.series.slots == s.series.slots {
      SameSlotsSameFiles(s.series, s'.series);
      assert s'.Checkpoints() == s.Checkpoints() + [];
      TruthStep(w, s, s', a, []);
    } else {
      TruthStep(w, s, s', a, [s.Role(a).checkpoint]);
    }
  }

  lemma LinkInstalledTruthful(w: World, s: Site, a: nat)
    requires Sound(w, s) && Truthful(w, s) && Perform(w, s, LinkInstalled(a)).Some?
    ensures Truthful(w, Perform(w, s, LinkInstalled(a)).value)
  {
    var role := s.Role(a);
    assert SeriesActorSound(w, s, role) && RoleTruthful(w, s, role) && role.names[role.next - 1] == role.next;
    if LinkExclusive(s.series, role.next, role.bundle[role.next - 1]).Some? {
      InstalledTruthful(w, s, a, LinkExclusive(s.series, role.next, role.bundle[role.next - 1]).value);
    } else {
      BecomesTruthful(w, s, a, AfterConflict(s, role));
    }
  }

  lemma InstalledTruthful(w: World, s: Site, a: nat, linked: Directory<CheckpointFile>)
    requires SeriesSound(w, s) && Truthful(w, s) && s.Role(a).Publishes()
    requires LinkExclusive(s.series, s.Role(a).next, s.Role(a).bundle[s.Role(a).next - 1]) == Some(linked)
    ensures Truthful(w, s.(series := linked).Becomes(a, s.Role(a).(next := s.Role(a).next + 1)))
  {
    var names, bundle, next := s.Role(a).names, s.Role(a).bundle, s.Role(a).next;
    assert SeriesActorSound(w, s, s.Role(a)) && RoleTruthful(w, s, s.Role(a)) && names[next - 1] == next;
    BundleContinues(w, s, names, bundle, next);
    assert TruePin(w, s, bundle[next - 1]);
    LinkCheckpointSound(w, s, next, bundle[next - 1]);
    TruthStep(w, s, s.(series := linked).Becomes(a, s.Role(a).(next := next + 1)), a, [bundle[next - 1]]);
  }

  /** A bundle may only be opened if its checkpoints pin this very ledger. */
  ghost predicate TruthfulStep(w: World, s: Site, step: Step) {
    step.OpenBundle? ==> TrueBundle(w, s, step.bundle)
  }

  lemma StepTruthful(w: World, s: Site, step: Step)
    requires ProducesSha256(w.receiptHash)
    requires Sound(w, s) && CollisionFree(w, s) && Truthful(w, s)
    requires Perform(w, s, step).Some? && TruthfulStep(w, s, step)
    ensures Truthful(w, Perform(w, s, step).value)
  {
    match step
    case ReadLedger(a, scan, createdAt) => ReadLedgerTruthful(w, s, a, scan, createdAt);
    case LinkCheckpoint(a) => LinkCheckpointTruthful(w, s, a);
    case LinkInstalled(a) => LinkInstalledTruthful(w, s, a);
    case LinkReceipt(a) => LinkReceiptTruthful(w, s, a);
    case OpenBundle(_, _, _, _) => InstallerTruthful(w, s, step);
    case CompareBundle(_) => InstallerTruthful(w, s, step);
    case MatchExisting(_) => InstallerTruthful(w, s, step);
    case _ => OtherStepTruthful(w, s, step);
  }

  lemma LinkReceiptTruthful(w: World, s: Site, a: nat)
    requires Sound(w, s) && Truthful(w, s) && Perform(w, s, LinkReceipt(a)).Some?
    ensures Truthful(w, Perform(w, s, LinkReceipt(a)).value)
  {
    LinkReceiptStepSound(w, s, a);
    var s' := Perform(w, s, LinkReceipt(a)).value;
    assert s'.Checkpoints() == s.Checkpoints() + [];
    TruthStep(w, s, s', a, []);
  }

  /** A truthful role for one process, and nothing else, changes. */
  lemma BecomesTruthful(w: World, s: Site, a: nat, role: Actor)
    requires Truthful(w, s) && RoleTruthful(w, s, role)
    ensures Truthful(w, s.Becomes(a, role))
  {
    var s' := s.Becomes(a, role);
    assert s'.Checkpoints() == s.Checkpoints() + [];
    TruthStep(w, s, s', a, []);
  }

  /** Only temporary files change. */
  lemma TemporariesTruthful(w: World, s: Site, s': Site)
    requires Truthful(w, s) && s'.actors == s.actors
    requires s'.ledger.slots == s.ledger.slots && s'.series.slots == s.series.slots
    ensures Truthful(w, s')
  {
    SameSlotsSameFiles(s.ledger, s'.ledger);
    SameSlotsSameFiles(s.series, s'.series);
    assert s'.Checkpoints() == s.Checkpoints() + [];
    assert RoleTruthful(w, s, s.Role(0));
    TruthStep(w, s, s', 0, []);
  }

  /** The installer's steps that change nothing but its role. */
  lemma InstallerTruthful(w: World, s: Site, step: Step)
    requires Truthful(w, s) && Perform(w, s, step).Some? && TruthfulStep(w, s, step)
    requires step.OpenBundle? || step.CompareBundle? || step.MatchExisting?
    ensures Truthful(w, Perform(w, s, step).value)
  {
    var a, role := step.actor, s.Role(step.actor);
    assert RoleTruthful(w, s, role);
    match step
    case OpenBundle(_, names, bundle, scan) => BecomesTruthful(w, s, a, Comparing(names, bundle, |Files(scan)|));
    case CompareBundle(_) => BecomesTruthful(w, s, a, Installing(role.names, role.bundle, role.installed + 1));
    case MatchExisting(_) => BecomesTruthful(w, s, a, AfterConflict(s, role));
  }

  /** The remaining steps leave both chains as they are. */
  lemma OtherStepTruthful(w: World, s: Site, step: Step)
    requires Truthful(w, s) && Perform(w, s, step).Some?
    requires step.VerifyLedger? || step.ReadSeries? || step.Stop?
             || step.StageReceipt? || step.StageCheckpoint? || step.RemoveTemporary?
    ensures Truthful(w, Perform(w, s, step).value)
  {
    var a := step.actor;
    match step
    case VerifyLedger(_, scan, decision) => BecomesTruthful(w, s, a, Perform(w, s, step).value.Role(a));
    case ReadSeries(_, scan) => BecomesTruthful(w, s, a, SeriesRead(Files(scan)));
    case Stop(_) => BecomesTruthful(w, s, a, Idle);
    case StageReceipt(_) => TemporariesTruthful(w, s, s.(ledger := Stage(s.ledger, a)));
    case StageCheckpoint(_) => TemporariesTruthful(w, s, s.(series := Stage(s.series, a)));
    case RemoveTemporary(_) =>
      TemporariesTruthful(w, s, s.(ledger := Unstage(s.ledger, a), series := Unstage(s.series, a)));
  }

  /** Every bundle opened in the first n steps pins this ledger. */
  ghost predicate TruthfulRun(w: World, run: Run, n: nat)
    requires |run.states| == |run.steps| + 1
  {
    && n <= |run.steps|
    && forall k {:trigger TruthfulStep(w, run.states[k], run.steps[k])} :: 0 <= k < n ==>
         TruthfulStep(w, run.states[k], run.steps[k])
  }

  lemma NextStateTruthful(w: World, run: Run, i: nat, next: nat)
    requires ProducesSha256(w.receiptHash)
    requires IsRun(w, run) && next == i + 1 && NumberedRun(run, next) && TruthfulRun(w, run, next)
    requires Truthful(w, run.states[i])
    ensures Truthful(w, run.states[next])
  {
    EveryStateSound(w, run, i);
    EveryStateSound(w, run, next);
    assert StepAt(w, run, i);
    assert TruthfulStep(w, run.states[i], run.steps[i]);
    StepTruthful(w, run.states[i], run.steps[i]);
  }

  lemma {:induction false} EveryStateTruthful(w: World, run: Run, i: nat)
    requires ProducesSha256(w.receiptHash)
    requires IsRun(w, run) && i < |run.states|
    requires NumberedRun(run, i) && TruthfulRun(w, run, i)
    ensures Truthful(w, run.states[i])
  {
    if i == 0 {
      ContiguousFiles(run.states[0].series, 0);
    } else {
      EveryStateTruthful(w, run, i - 1);
      NextStateTruthful(w, run, i - 1, i);
    }
  }

  /** Over every run of acceptances, checkpoint appends and installs of bundles
      that pin this ledger: each checkpoint names the true count, digest, request
      and response of a prefix of every later ledger, and a later checkpoint of the
      series names a strictly longer prefix. */
  lemma CheckpointsTellTheTruth(w: World, run: Run, i: nat, j: nat, k: nat)
    requires ProducesSha256(w.receiptHash)
    requires IsRun(w, run) && i <= j < |run.states|
    requires NumberedRun(run, i) && TruthfulRun(w, run, i)
    requires k < |run.states[i].Checkpoints()|
    ensures var file := run.states[i].Checkpoints()[k];
            && file.envelope.Some?
            && NamesPrefix(w.receiptHash, file.envelope.value.entry.head, run.states[j].Receipts())
    ensures forall l :: k < l < |run.states[i].Checkpoints()| ==>
              run.states[i].Checkpoints()[k].ReceiptCount() < run.states[i].Checkpoints()[l].ReceiptCount()
  {
    EveryStateSound(w, run, i);
    EveryStateTruthful(w, run, i);
    LedgerOnlyGrows(w, run, i, j);
    TruthLasts(w, run.states[i], run.states[j], run.states[i].Checkpoints());
    assert TruePin(w, run.states[j], run.states[i].Checkpoints()[k]);
    forall l | k < l < |run.states[i].Checkpoints()|
      ensures run.states[i].Checkpoints()[k].ReceiptCount() < run.states[i].Checkpoints()[l].ReceiptCount()
    {
      CountsIncrease(w.checkpointHash, w.key, run.states[i].Checkpoints(), k, l);
    }
  }

  /** The bundle that step k opens was exported from this very series: it holds the
      first files of the series at an earlier moment, under their names. */
  ghost predicate ExportedStep(run: Run, k: nat)
    requires k < |run.steps| < |run.states|
  {
    run.steps[k].OpenBundle? ==> exists i: nat :: i <= k && ExportedAt(run, k, i)
  }

  ghost predicate ExportedAt(run: Run, k: nat, i: nat)
    requires k < |run.steps| < |run.states| && i <= k && run.steps[k].OpenBundle?
  {
    && run.steps[k].bundle <= run.states[i].Checkpoints()
    && run.steps[k].names <= SortedNats(run.states[i].series.slots.Keys)
  }

  /** Every bundle opened in the first n steps was exported from this series. */
  ghost predicate ExportedRun(run: Run, n: nat) {
    && n <= |run.steps| < |run.states|
    && forall k {:trigger ExportedStep(run, k)} :: 0 <= k < n ==> ExportedStep(run, k)
  }

  lemma IntervalPrefix(names: seq<nat>, n: nat)
    requires names <= Interval(n)
    ensures names == Interval(|names|)
  {
  }

  /** An exported bundle is named 1..k and pins this ledger. */
  lemma ExportedStepIsTrue(w: World, run: Run, i: nat, k: nat)
    requires ProducesSha256(w.receiptHash)
    requires IsRun(w, run) && i <= k < |run.steps| && NumberedRun(run, k) && TruthfulRun(w, run, k)
    requires run.steps[k].OpenBundle? && ExportedAt(run, k, i)
    ensures NumberedStep(run.steps[k]) && TruthfulStep(w, run.states[k], run.steps[k])
  {
    var s, step := run.states[i], run.steps[k];
    EveryStateSound(w, run, i);
    EveryStateTruthful(w, run, i);
    LedgerOnlyGrows(w, run, i, k);
    assert StepAt(w, run, k);
    ExportedNames(s.series, step.names, |step.bundle|);
    TruthLasts(w, s, run.states[k], s.Checkpoints());
    assert TrueBundle(w, run.states[k], step.bundle);
  }

  lemma ExportedNames(series: Directory<CheckpointFile>, names: seq<nat>, count: nat)
    requires Contiguous(series, |Files(series)|)
    requires names <= SortedNats(series.slots.Keys) && |names| == count
    ensures Numbered(names, count)
  {
    SortedInterval(series.slots.Keys, |Files(series)|);
    IntervalPrefix(names, |Files(series)|);
  }

  /** Where all bundles come from the series itself, nothing need be assumed of
      them: every opened bundle is named 1..k and pins this ledger. */
  lemma {:induction false} ExportedBundlesAreTrue(w: World, run: Run, n: nat)
    requires ProducesSha256(w.receiptHash)
    requires IsRun(w, run) && ExportedRun(run, n)
    ensures NumberedRun(run, n) && TruthfulRun(w, run, n)
  {
    if n > 0 {
      assert ExportedRun(run, n - 1);
      ExportedBundlesAreTrue(w, run, n - 1);
      NextExportedIsTrue(w, run, n - 1);
    }
  }

  lemma NextExportedIsTrue(w: World, run: Run, k: nat)
    requires ProducesSha256(w.receiptHash)
    requires IsRun(w, run) && k < |run.steps| && NumberedRun(run, k) && TruthfulRun(w, run, k)
    requires ExportedStep(run, k)
    ensures NumberedStep(run.steps[k]) && TruthfulStep(w, run.states[k], run.steps[k])
  {
    if run.steps[k].OpenBundle? {
      var i: nat :| i <= k && ExportedAt(run, k, i);
      ExportedStepIsTrue(w, run, i, k);
    }
  }
}
