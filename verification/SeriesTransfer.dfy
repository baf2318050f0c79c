/** Signed transfer bundles: packaging one exact checkpoint series, and installing
    it monotonically into another directory. */
module SeriesTransfer {
  import opened Prelude
  import opened HashChain
  import opened Ordering
  import opened SlotDirectory
  import opened AcceptanceLedger
  import opened CheckpointSeries

  datatype SeriesPath = MetadataPath | CheckpointPath(slot: nat) | KeyPath

  datatype SeriesContent =
    | MetadataContent(metadata: ChainMetadata)
    | CheckpointContent(file: CheckpointFile)
    | KeyContent(key: PublicKey)

  datatype InventoryEntry = InventoryEntry(path: SeriesPath, size: nat, digest: Token)

  /** Sizes and digests of files, and the digest of an inventory's canonical JSON. */
  datatype Hashing = Hashing(
    size: SeriesContent -> nat,
    digest: SeriesContent -> Token,
    tree: seq<InventoryEntry> -> Token)
  {
    function Checkpoint(): CheckpointHash {
      (file: CheckpointFile) => digest(CheckpointContent(file))
    }

    function Entry(path: SeriesPath, content: SeriesContent): InventoryEntry {
      InventoryEntry(path, size(content), digest(content))
    }
  }

  datatype TransferStatement = TransferStatement(
    format: Format,
    requester: PublicKey,
    checkpointCount: int,
    headCheckpoint: Token,
    headGeneration: int,
    headReceiptCount: int,
    headReceipt: Token,
    tree: Token,
    fileCount: int,
    inventory: seq<InventoryEntry>)

  datatype TransferSignature =
    | SignedTransfer(key: PublicKey, statement: TransferStatement)
    | UnsignedTransfer(text: string)

  /** An extracted archive. */
  datatype Transfer = Transfer(
    statement: TransferStatement,
    signature: TransferSignature,
    series: SeriesDirectory)

  function CheckpointEntries(
    h: Hashing, slots: map<nat, CheckpointFile>, order: seq<nat>): (entries: seq<InventoryEntry>)
    requires forall i :: 0 <= i < |order| ==> order[i] in slots
    ensures |entries| == |order|
  {
    if order == [] then []
    else
      var last := |order| - 1;
      CheckpointEntries(h, slots, order[..last])
      + [h.Entry(CheckpointPath(order[last]), CheckpointContent(slots[order[last]]))]
  }

  lemma {:induction false} CheckpointEntriesAt(h: Hashing, slots: map<nat, CheckpointFile>, order: seq<nat>, i: nat)
    requires forall k :: 0 <= k < |order| ==> order[k] in slots
    requires i < |order|
    ensures CheckpointEntries(h, slots, order)[i]
            == h.Entry(CheckpointPath(order[i]), CheckpointContent(slots[order[i]]))
  {
    var last := |order| - 1;
    if i < last {
      CheckpointEntriesAt(h, slots, order[..last], i);
    }
  }

  /** Every file below the series root, sorted by path, with size and digest. */
  function Inventory(h: Hashing, series: SeriesDirectory): seq<InventoryEntry>
    requires series.metadata.Some? && series.embeddedKey.Some?
  {
    SortedNatsFacts(series.checkpoints.slots.Keys);
    var order := SortedNats(series.checkpoints.slots.Keys);
    assert forall i :: 0 <= i < |order| ==> order[i] in order;
    [h.Entry(MetadataPath, MetadataContent(series.metadata.value))]
    + CheckpointEntries(h, series.checkpoints.slots, order)
    + [h.Entry(KeyPath, KeyContent(series.embeddedKey.value))]
  }

  /** The checks on an extracted archive. */
  ghost predicate TransferPasses(h: Hashing, key: PublicKey, t: Transfer) {
    && t.statement.format == TransferFormat
    && t.statement.requester == key
    && t.signature == SignedTransfer(key, t.statement)
    && SeriesPasses(h.Checkpoint(), key, t.series)
    && t.statement.inventory == Inventory(h, t.series)
    && t.statement.fileCount == |Inventory(h, t.series)|
    && t.statement.tree == h.tree(Inventory(h, t.series))
    && var files := Files(t.series.checkpoints);
    && files != []
    && files[|files| - 1].envelope.Some?
    && var entry := files[|files| - 1].envelope.value.entry;
    && t.statement.checkpointCount == |files|
    && t.statement.headCheckpoint == HeadHash(h.Checkpoint(), files)
    && t.statement.headGeneration == entry.generation
    && t.statement.headReceiptCount == entry.head.receiptCount
    && t.statement.headReceipt == entry.head.headReceipt
  }

  /** build_checkpoint_series_transfer on a verified, non-empty series. */
  function Build(h: Hashing, key: PublicKey, series: SeriesDirectory): Transfer
    requires series.metadata.Some? && series.embeddedKey.Some?
    requires Files(series.checkpoints) != []
    requires Files(series.checkpoints)[|Files(series.checkpoints)| - 1].envelope.Some?
  {
    var files := Files(series.checkpoints);
    var entry := files[|files| - 1].envelope.value.entry;
    var inventory := Inventory(h, series);
    var statement := TransferStatement(
      TransferFormat, key, |files|, HeadHash(h.Checkpoint(), files), entry.generation,
      entry.head.receiptCount, entry.head.headReceipt, h.tree(inventory), |inventory|, inventory);
    Transfer(statement, SignedTransfer(key, statement), series)
  }

  /** Every verified, non-empty series has a transfer, and it passes. */
  lemma BuiltTransferPasses(h: Hashing, key: PublicKey, series: SeriesDirectory)
    requires SeriesPasses(h.Checkpoint(), key, series) && Files(series.checkpoints) != []
    ensures var files := Files(series.checkpoints);
            files[|files| - 1].envelope.Some? && TransferPasses(h, key, Build(h, key, series))
  {
    var files := Files(series.checkpoints);
    CountPositive(h.Checkpoint(), key, files, |files| - 1);
  }

  /** The verifier accepts no transfer but the one the requester builds from the very
      series it carries. */
  lemma OnlyBuiltTransferPasses(h: Hashing, key: PublicKey, t: Transfer)
    ensures TransferPasses(h, key, t) <==>
              && SeriesPasses(h.Checkpoint(), key, t.series)
              && var files := Files(t.series.checkpoints);
                 && files != [] && files[|files| - 1].envelope.Some?
                 && t == Build(h, key, t.series)
  {
    if SeriesPasses(h.Checkpoint(), key, t.series) && Files(t.series.checkpoints) != [] {
      BuiltTransferPasses(h, key, t.series);
    }
  }

  /** Two equal inventory entries describe equal files at equal names, or files
      that collide. */
  lemma SameInventoryEntry(
    h: Hashing, a: map<nat, CheckpointFile>, b: map<nat, CheckpointFile>, ka: seq<nat>, kb: seq<nat>, i: nat)
    requires forall k :: 0 <= k < |ka| ==> ka[k] in a
    requires forall k :: 0 <= k < |kb| ==> kb[k] in b
    requires i < |ka| == |kb|
    requires CheckpointEntries(h, a, ka)[i] == CheckpointEntries(h, b, kb)[i]
    ensures ka[i] == kb[i]
    ensures a[ka[i]] == b[ka[i]] || Collide(h.Checkpoint(), a[ka[i]], b[ka[i]])
  {
    CheckpointEntriesAt(h, a, ka, i);
    CheckpointEntriesAt(h, b, kb, i);
  }

  lemma SameEntriesSameSlots(
    h: Hashing, a: map<nat, CheckpointFile>, b: map<nat, CheckpointFile>, ka: seq<nat>, kb: seq<nat>)
    requires forall k :: k in a <==> k in ka
    requires forall k :: k in b <==> k in kb
    requires |ka| == |kb| && CheckpointEntries(h, a, ka) == CheckpointEntries(h, b, kb)
    ensures a == b || CollisionAtPath(h.Checkpoint(), a, b)
  {
    assert forall i :: 0 <= i < |ka| ==> ka[i] in ka;
    assert forall i :: 0 <= i < |kb| ==> kb[i] in kb;
    forall i: nat | i < |ka|
      ensures ka[i] == kb[i] && (a[ka[i]] == b[ka[i]] || Collide(h.Checkpoint(), a[ka[i]], b[ka[i]]))
    {
      SameInventoryEntry(h, a, b, ka, kb, i);
    }
    assert ka == kb;
    if !CollisionAtPath(h.Checkpoint(), a, b) {
      SameSlots(a, b, ka, kb);
    }
  }

  lemma InventoryMiddle(h: Hashing, series: SeriesDirectory, order: seq<nat>)
    requires series.metadata.Some? && series.embeddedKey.Some?
    requires order == SortedNats(series.checkpoints.slots.Keys)
    ensures forall k :: k in series.checkpoints.slots <==> k in order
    ensures |Inventory(h, series)| == |order| + 2
    ensures (forall i :: 0 <= i < |order| ==> order[i] in series.checkpoints.slots) &&
            Inventory(h, series)[1..|order| + 1] == CheckpointEntries(h, series.checkpoints.slots, order)
  {
    SortedNatsFacts(series.checkpoints.slots.Keys);
    assert forall i :: 0 <= i < |order| ==> order[i] in order;
  }

  /** The signed statement fixes the whole series: two passing transfers with one
      statement carry the same checkpoints under the same names, or hold under one
      name two checkpoints that collide. */
  lemma StatementFixesSeries(h: Hashing, key: PublicKey, t: Transfer, u: Transfer)
    requires TransferPasses(h, key, t) && TransferPasses(h, key, u)
    requires t.statement == u.statement
    ensures t.series == u.series ||
            CollisionAtPath(h.Checkpoint(), t.series.checkpoints.slots, u.series.checkpoints.slots)
  {
    var a, b := t.series.checkpoints.slots, u.series.checkpoints.slots;
    var ka, kb := SortedNats(a.Keys), SortedNats(b.Keys);
    InventoryMiddle(h, t.series, ka);
    InventoryMiddle(h, u.series, kb);
    SameEntriesSameSlots(h, a, b, ka, kb);
  }

  lemma SameSlots<F>(a: map<nat, F>, b: map<nat, F>, ka: seq<nat>, kb: seq<nat>)
    requires ka == kb
    requires forall k :: k in a <==> k in ka
    requires forall k :: k in b <==> k in kb
    requires forall i :: 0 <= i < |ka| ==> a[ka[i]] == b[ka[i]]
    ensures a == b
  {
    forall k | k in a ensures k in b && a[k] == b[k] {
      var i :| 0 <= i < |ka| && ka[i] == k;
    }
  }

  datatype PublishEnd = Finished | ConflictingFile | Interrupted

  datatype Published = Published(directory: Directory<CheckpointFile>, added: nat, end: PublishEnd)

  /** Publishing files under their names, in order, skipping names that already
      hold the same bytes and stopping at a name that holds others. `budget` is how
      many files get created before the process is interrupted. */
  function PublishFrom(
    d: Directory<CheckpointFile>, names: seq<nat>, files: seq<CheckpointFile>, budget: nat): Published
    requires |names| == |files|
    decreases |files|
  {
    if files == [] then Published(d, 0, Finished)
    else if names[0] in d.slots then
      if d.slots[names[0]] != files[0] then Published(d, 0, ConflictingFile)
      else PublishFrom(d, names[1..], files[1..], budget)
    else if budget == 0 then Published(d, 0, Interrupted)
    else
      var rest := PublishFrom(
        d.(slots := d.slots[names[0] := files[0]]), names[1..], files[1..], budget - 1);
      rest.(added := rest.added + 1)
  }

  datatype InstallOutcome =
    | Installed(added: nat, idempotent: bool)
    | TransferInvalid
    | DestinationInvalid
    | StaleTransfer
    | ForkedTransfer
    | PublishConflict(added: nat)
    | InstallInterrupted(added: nat)
    | InstalledUnverified

  ghost predicate SameDigests(hash: CheckpointHash, current: seq<CheckpointFile>, incoming: seq<CheckpointFile>) {
    |current| <= |incoming| && forall g :: 0 <= g < |current| ==> hash(current[g]) == hash(incoming[g])
  }

  /** install_checkpoint_series_transfer as a function of the destination. */
  ghost function Install(h: Hashing, key: PublicKey, destination: SeriesDirectory, t: Transfer, budget: nat)
    : (SeriesDirectory, InstallOutcome)
  {
    var current := Files(destination.checkpoints);
    var incoming := Files(t.series.checkpoints);
    if !TransferPasses(h, key, t) then (destination, TransferInvalid)
    else if !SeriesPasses(h.Checkpoint(), key, destination) then (destination, DestinationInvalid)
    else if |incoming| < |current| then (destination, StaleTransfer)
    else if !SameDigests(h.Checkpoint(), current, incoming) then (destination, ForkedTransfer)
    else
      FilesLength(t.series.checkpoints);
      var names := SortedNats(t.series.checkpoints.slots.Keys);
      var published := PublishFrom(
        destination.checkpoints, names[|current|..], incoming[|current|..], budget);
      Conclude(h, key, destination, |current|, incoming, published)
  }

  /** How an install ends once the publication loop has stopped. */
  ghost function Conclude(
    h: Hashing, key: PublicKey, destination: SeriesDirectory, currentCount: nat,
    incoming: seq<CheckpointFile>, published: Published): (SeriesDirectory, InstallOutcome)
  {
    var after := destination.(checkpoints := published.directory);
    match published.end
    case ConflictingFile => (after, PublishConflict(published.added))
    case Interrupted => (after, InstallInterrupted(published.added))
    case Finished =>
      if SeriesPasses(h.Checkpoint(), key, after)
         && SameDigests(h.Checkpoint(), incoming, Files(after.checkpoints))
      then (after, Installed(published.added, published.added == 0 && currentCount == |incoming|))
      else (after, InstalledUnverified)
  }

  lemma FilesLength<F>(d: Directory<F>)
    ensures |Files(d)| == |SortedNats(d.slots.Keys)|
  {
  }

  /** Nothing is written unless bundle and destination both verify and the bundle
      holds the destination's checkpoints first; each refusal names what failed. */
  lemma InstallRefuses(h: Hashing, key: PublicKey, destination: SeriesDirectory, t: Transfer, budget: nat)
    ensures var (after, outcome) := Install(h, key, destination, t, budget);
            && (outcome.TransferInvalid? <==> !TransferPasses(h, key, t))
            && (outcome.DestinationInvalid? <==>
                  TransferPasses(h, key, t) && !SeriesPasses(h.Checkpoint(), key, destination))
            && (outcome in {TransferInvalid, DestinationInvalid, StaleTransfer, ForkedTransfer} ==>
                  after == destination)
            && (after != destination ==>
                  && TransferPasses(h, key, t) && SeriesPasses(h.Checkpoint(), key, destination)
                  && SameDigests(h.Checkpoint(), Files(destination.checkpoints), Files(t.series.checkpoints)))
  {
    var (after, outcome) := Install(h, key, destination, t, budget);
  }

  /** The checks on an extracted archive, as verify_extracted_transfer runs them. */
  method VerifyTransfer(h: Hashing, key: PublicKey, t: Transfer) returns (passed: bool)
    ensures passed <==> TransferPasses(h, key, t)
  {
    if t.statement.format != TransferFormat || t.statement.requester != key
      || t.signature != SignedTransfer(key, t.statement)
    {
      return false;
    }
    var report := VerifyCheckpointSeries(h.Checkpoint(), key, t.series);
    if !report.passed {
      return false;
    }
    var inventory := Inventory(h, t.series);
    if t.statement.inventory != inventory || t.statement.fileCount != |inventory|
      || t.statement.tree != h.tree(inventory)
    {
      return false;
    }
    if report.entries == [] {
      return false;
    }
    var latest := report.entries[|report.entries| - 1];
    return t.statement.checkpointCount == |report.entries|
      && t.statement.headCheckpoint == report.headCheckpoint
      && t.statement.headGeneration == latest.generation
      && t.statement.headReceiptCount == latest.head.receiptCount
      && t.statement.headReceipt == latest.head.headReceipt;
  }

  /** The digest comparison loop over the first files of both series. */
  method CompareDigests(hash: CheckpointHash, current: seq<CheckpointFile>, incoming: seq<CheckpointFile>)
    returns (same: bool)
    requires |current| <= |incoming|
    ensures same <==> SameDigests(hash, current, incoming)
  {
    for generation := 0 to |current|
      invariant forall g :: 0 <= g < generation ==> hash(current[g]) == hash(incoming[g])
    {
      if hash(current[generation]) != hash(incoming[generation]) {
        return false;
      }
    }
    return true;
  }

  /** The publication loop. */
  method PublishMissing(store: CheckpointStore, names: seq<nat>, files: seq<CheckpointFile>, budget: nat)
    returns (published: Published)
    requires |names| == |files|
    modifies store
    ensures published == PublishFrom(old(store.series).checkpoints, names, files, budget)
    ensures store.series == old(store.series).(checkpoints := published.directory)
  {
    var added := 0;
    var next := 0;
    while next < |files|
      invariant 0 <= next <= |files|
      invariant added <= budget
      invariant store.series == old(store.series).(checkpoints := store.series.checkpoints)
      invariant var rest := PublishFrom(store.series.checkpoints, names[next..], files[next..], budget - added);
                PublishFrom(old(store.series).checkpoints, names, files, budget)
                == rest.(added := rest.added + added)
    {
      var d := store.series.checkpoints;
      assert names[next..][1..] == names[next + 1..];
      assert files[next..][1..] == files[next + 1..];
      if names[next] in d.slots {
        if d.slots[names[next]] != files[next] {
          return Published(d, added, ConflictingFile);
        }
      } else if added == budget {
        return Published(d, added, Interrupted);
      } else {
        store.series := store.series.(checkpoints := d.(slots := d.slots[names[next] := files[next]]));
        added := added + 1;
      }
      next := next + 1;
    }
    return Published(store.series.checkpoints, added, Finished);
  }

  /** install_checkpoint_series_transfer; `budget` interrupts it after that many
      publications. */
  method InstallTransfer(h: Hashing, key: PublicKey, store: CheckpointStore, t: Transfer, budget: nat)
    returns (outcome: InstallOutcome)
    modifies store
    ensures (store.series, outcome) == Install(h, key, old(store.series), t, budget)
  {
    var passed := VerifyTransfer(h, key, t);
    if !passed {
      return TransferInvalid;
    }
    var currentReport := VerifyCheckpointSeries(h.Checkpoint(), key, store.series);
    if !currentReport.passed {
      return DestinationInvalid;
    }
    var current := Files(store.series.checkpoints);
    var incoming := Files(t.series.checkpoints);
    if |incoming| < |current| {
      return StaleTransfer;
    }
    var same := CompareDigests(h.Checkpoint(), current, incoming);
    if !same {
      return ForkedTransfer;
    }
    FilesLength(t.series.checkpoints);
    var names := SortedNats(t.series.checkpoints.slots.Keys);
    var published := PublishMissing(store, names[|current|..], incoming[|current|..], budget);
    if published.end == ConflictingFile {
      return PublishConflict(published.added);
    } else if published.end == Interrupted {
      return InstallInterrupted(published.added);
    }
    var finalReport := VerifyCheckpointSeries(h.Checkpoint(), key, store.series);
    if !finalReport.passed {
      return InstalledUnverified;
    }
    var installed := Files(store.series.checkpoints);
    if |installed| < |incoming| {
      return InstalledUnverified;
    }
    var contained := CompareDigests(h.Checkpoint(), incoming, installed);
    if !contained {
      return InstalledUnverified;
    }
    return Installed(published.added, published.added == 0 && |current| == |incoming|);
  }

  lemma ConsTake<F>(prefix: seq<F>, files: seq<F>, k: nat)
    requires files != [] && k <= |files| - 1
    ensures prefix + [files[0]] + files[1..][..k] == prefix + files[..k + 1]
  {
  }

  ghost predicate AllBelow(slots: set<nat>, names: seq<nat>) {
    names != [] ==> forall k :: k in slots ==> k < names[0]
  }

  /** Taking the first name keeps the others above all names in use. */
  lemma TakeFirstName(slots: set<nat>, names: seq<nat>)
    requires names != [] && Ascending(NatLess, names) && AllBelow(slots, names)
    ensures Ascending(NatLess, names[1..]) && AllBelow(slots + {names[0]}, names[1..])
  {
    if |names| > 1 {
      assert NatLess(names[0], names[1]);
    }
  }

  lemma PublishedName(d: Directory<CheckpointFile>, name: nat, file: CheckpointFile)
    requires forall k :: k in d.slots ==> k < name
    ensures var grown := d.(slots := d.slots[name := file]);
            && name !in d.slots && grown.slots.Keys == d.slots.Keys + {name}
            && Files(grown) == Files(d) + [file]
            && SortedNats(grown.slots.Keys) == SortedNats(d.slots.Keys) + [name]
  {
    var grown := d.(slots := d.slots[name := file]);
    LinkAtEnd(d, name, file);
    SortedNatsAppend(d.slots.Keys, name);
    assert grown.slots.Keys == d.slots.Keys + {name};
  }

  /** Nothing to publish, or the interruption comes before the first file. */
  lemma PublishNone(d: Directory<CheckpointFile>, names: seq<nat>, files: seq<CheckpointFile>, budget: nat)
    requires |names| == |files| && AllBelow(d.slots.Keys, names) && (files == [] || budget == 0)
    ensures PublishFrom(d, names, files, budget) == Published(d, 0, if files == [] then Finished else Interrupted)
    ensures Files(d) + files[..0] == Files(d) && SortedNats(d.slots.Keys) + names[..0] == SortedNats(d.slots.Keys)
  {
  }

  /** One file is published and the rest of the loop starts after it. */
  lemma PublishFirst(
    d: Directory<CheckpointFile>, names: seq<nat>, files: seq<CheckpointFile>, budget: nat, rest: Published)
    requires |names| == |files| > 0 && budget > 0 && Ascending(NatLess, names) && AllBelow(d.slots.Keys, names)
    requires rest == PublishFrom(d.(slots := d.slots[names[0] := files[0]]), names[1..], files[1..], budget - 1)
    ensures PublishFrom(d, names, files, budget) == rest.(added := rest.added + 1)
    ensures Ascending(NatLess, names[1..])
    ensures var grown := d.(slots := d.slots[names[0] := files[0]]);
            && AllBelow(grown.slots.Keys, names[1..])
            && Files(grown) == Files(d) + [files[0]]
            && SortedNats(grown.slots.Keys) == SortedNats(d.slots.Keys) + [names[0]]
  {
    TakeFirstName(d.slots.Keys, names);
    PublishedName(d, names[0], files[0]);
  }

  /** The directory took the next min(budget, |files|) files at its end. */
  ghost predicate TookFirst(
    d: Directory<CheckpointFile>, names: seq<nat>, files: seq<CheckpointFile>, budget: nat, p: Published)
    requires |names| == |files|
  {
    && p.added == (if budget < |files| then budget else |files|)
    && p.end == (if budget < |files| then Interrupted else Finished)
    && p.directory.others == d.others
    && Files(p.directory) == Files(d) + files[..p.added]
    && SortedNats(p.directory.slots.Keys) == SortedNats(d.slots.Keys) + names[..p.added]
  }

  /** Above all names in use, publishing creates the next min(budget, |files|) files
      in order and meets no conflict. */
  lemma {:induction false} PublishAppends(
    d: Directory<CheckpointFile>, names: seq<nat>, files: seq<CheckpointFile>, budget: nat)
    requires |names| == |files| && Ascending(NatLess, names) && AllBelow(d.slots.Keys, names)
    ensures TookFirst(d, names, files, budget, PublishFrom(d, names, files, budget))
    decreases |files|
  {
    if files == [] || budget == 0 {
      PublishNone(d, names, files, budget);
    } else {
      var grown := d.(slots := d.slots[names[0] := files[0]]);
      var rest := PublishFrom(grown, names[1..], files[1..], budget - 1);
      PublishFirst(d, names, files, budget, rest);
      PublishAppends(grown, names[1..], files[1..], budget - 1);
      TookOneMore(d, grown, names, files, budget, rest);
    }
  }

  lemma TookOneMore(
    d: Directory<CheckpointFile>, grown: Directory<CheckpointFile>, names: seq<nat>, files: seq<CheckpointFile>,
    budget: nat, rest: Published)
    requires |names| == |files| > 0 && budget > 0
    requires grown.others == d.others && Files(grown) == Files(d) + [files[0]]
    requires SortedNats(grown.slots.Keys) == SortedNats(d.slots.Keys) + [names[0]]
    requires TookFirst(grown, names[1..], files[1..], budget - 1, rest)
    ensures TookFirst(d, names, files, budget, rest.(added := rest.added + 1))
  {
    ConsTake(Files(d), files, rest.added);
    ConsTake(SortedNats(d.slots.Keys), names, rest.added);
  }

  /** Published files stay. */
  lemma {:induction false} PublishKeeps(
    d: Directory<CheckpointFile>, names: seq<nat>, files: seq<CheckpointFile>, budget: nat, k: nat)
    requires |names| == |files| && k in d.slots
    ensures var after := PublishFrom(d, names, files, budget).directory;
            k in after.slots && after.slots[k] == d.slots[k]
    decreases |files|
  {
    if files != [] {
      if names[0] in d.slots {
        PublishKeeps(d, names[1..], files[1..], budget, k);
      } else if budget > 0 {
        PublishKeeps(d.(slots := d.slots[names[0] := files[0]]), names[1..], files[1..], budget - 1, k);
      }
    }
  }

  /** What the digest comparison establishes about two series. */
  lemma SameDigestsMeansPrefix(hash: CheckpointHash, current: seq<CheckpointFile>, incoming: seq<CheckpointFile>)
    ensures current <= incoming ==> SameDigests(hash, current, incoming)
    ensures SameDigests(hash, current, incoming) ==>
              current <= incoming || CollisionBetween(hash, current, incoming)
  {
    if SameDigests(hash, current, incoming) && !CollisionBetween(hash, current, incoming) {
      forall g | 0 <= g < |current| ensures current[g] == incoming[g] {
        assert !Collide(hash, current[g], incoming[g]);
      }
    }
  }

  function Names(series: SeriesDirectory): seq<nat> {
    SortedNats(series.checkpoints.slots.Keys)
  }

  lemma NamesAscend(series: SeriesDirectory)
    ensures Ascending(NatLess, Names(series)) && |Names(series)| == |Files(series.checkpoints)|
  {
    SortedNatsFacts(series.checkpoints.slots.Keys);
  }

  /** Every name in use lies below the names of the missing files: always so among
      directories that are named 1..n, as init, append and build name them. */
  ghost predicate Fits(destination: SeriesDirectory, incoming: SeriesDirectory)
    requires |Names(destination)| <= |Names(incoming)|
  {
    AllBelow(destination.checkpoints.slots.Keys, Names(incoming)[|Names(destination)|..])
  }

  /** The names of a directory are the first ones of this list. */
  ghost predicate NamedBy(naming: seq<nat>, series: SeriesDirectory) {
    Names(series) <= naming
  }

  lemma NamedAlikeFits(naming: seq<nat>, destination: SeriesDirectory, incoming: SeriesDirectory)
    requires NamedBy(naming, destination) && NamedBy(naming, incoming)
    requires |Names(destination)| <= |Names(incoming)|
    ensures Fits(destination, incoming)
  {
    var n, names := |Names(destination)|, Names(incoming);
    SortedNatsFacts(destination.checkpoints.slots.Keys);
    SortedNatsFacts(incoming.checkpoints.slots.Keys);
    forall k | n < |names| && k in destination.checkpoints.slots ensures k < names[n..][0] {
      assert k in Names(destination);
      var i :| 0 <= i < n && Names(destination)[i] == k;
      assert names[i] == naming[i] == k;
    }
  }

  lemma {:induction false} IntervalsNest(m: nat, n: nat)
    requires m <= n
    ensures Interval(m) <= Interval(n)
  {
    if m < n {
      IntervalsNest(m, n - 1);
    }
  }

  lemma ContiguousNamedBy(series: SeriesDirectory, n: nat)
    requires Contiguous(series.checkpoints, |Names(series)|) && |Names(series)| <= n
    ensures NamedBy(Interval(n), series)
  {
    SortedInterval(series.checkpoints.slots.Keys, |Names(series)|);
    IntervalsNest(|Names(series)|, n);
  }

  /** What one install does to the destination chain. */
  function Join(current: seq<CheckpointFile>, incoming: seq<CheckpointFile>): seq<CheckpointFile> {
    if current <= incoming then incoming else current
  }

  function Lesser(a: nat, b: nat): nat {
    if a < b then a else b
  }

  /** An install of a verified transfer into a verified destination. If the transfer
      does not extend the destination, nothing is written. If it does, and the names
      in use lie below the missing ones, the install finishes with the joined chain
      or is interrupted at a prefix of it. If it does and they do not, it never
      succeeds, and once it has written a file the destination no longer verifies. */
  lemma InstallJoins(h: Hashing, key: PublicKey, destination: SeriesDirectory, t: Transfer, budget: nat)
    requires TransferPasses(h, key, t) && SeriesPasses(h.Checkpoint(), key, destination)
    requires !CollisionBetween(h.Checkpoint(), Files(destination.checkpoints), Files(t.series.checkpoints))
    ensures var (after, outcome) := Install(h, key, destination, t, budget);
            var current := Files(destination.checkpoints);
            var incoming := Files(t.series.checkpoints);
            var missing := |incoming| - |current|;
            if !(current <= incoming) then after == destination && (outcome.StaleTransfer? || outcome.ForkedTransfer?)
            else if Fits(destination, t.series) then
              && SeriesPasses(h.Checkpoint(), key, after)
              && (missing <= budget ==>
                    outcome == Installed(missing, missing == 0) && Files(after.checkpoints) == Join(current, incoming))
              && (budget < missing ==>
                    outcome == InstallInterrupted(budget) && Files(after.checkpoints) == incoming[..|current| + budget])
            else !outcome.Installed? && (SeriesPasses(h.Checkpoint(), key, after) <==> after == destination)
  {
    var current := Files(destination.checkpoints);
    var incoming := Files(t.series.checkpoints);
    SameDigestsMeansPrefix(h.Checkpoint(), current, incoming);
    if current <= incoming {
      if Fits(destination, t.series) {
        InstallExtends(
          h, key, destination, t, budget, |current|, Lesser(budget, |incoming| - |current|));
      } else {
        InstallMisfits(h, key, destination, t, budget);
      }
    }
  }

  /** What the publication loop does for a destination that holds a prefix. */
  function Publication(destination: SeriesDirectory, incoming: SeriesDirectory, budget: nat): Published
    requires |Files(destination.checkpoints)| <= |Files(incoming.checkpoints)|
  {
    var n := |Files(destination.checkpoints)|;
    FilesLength(incoming.checkpoints);
    PublishFrom(destination.checkpoints, Names(incoming)[n..], Files(incoming.checkpoints)[n..], budget)
  }

  /** An install that gets past the comparison is decided by the publication loop. */
  lemma InstallPublishes(h: Hashing, key: PublicKey, destination: SeriesDirectory, t: Transfer, budget: nat)
    requires TransferPasses(h, key, t) && SeriesPasses(h.Checkpoint(), key, destination)
    requires Files(destination.checkpoints) <= Files(t.series.checkpoints)
    ensures Install(h, key, destination, t, budget)
            == Conclude(
                 h, key, destination, |Files(destination.checkpoints)|, Files(t.series.checkpoints),
                 Publication(destination, t.series, budget))
  {
    SameDigestsMeansPrefix(h.Checkpoint(), Files(destination.checkpoints), Files(t.series.checkpoints));
  }

  /** The destination took `added` more of the incoming files, under their names. */
  ghost predicate Took(
    destination: Directory<CheckpointFile>, incoming: Directory<CheckpointFile>, added: nat,
    after: Directory<CheckpointFile>)
  {
    var n, names := |Files(destination)|, SortedNats(incoming.slots.Keys);
    && n + added <= |Files(incoming)| && n + added <= |names|
    && after.others == destination.others
    && Files(after) == Files(incoming)[..n + added]
    && SortedNats(after.slots.Keys) == SortedNats(destination.slots.Keys) + names[n..][..added]
  }

  lemma InstallExtends(
    h: Hashing, key: PublicKey, destination: SeriesDirectory, t: Transfer, budget: nat, n: nat, added: nat)
    requires TransferPasses(h, key, t) && SeriesPasses(h.Checkpoint(), key, destination)
    requires Files(destination.checkpoints) <= Files(t.series.checkpoints) && Fits(destination, t.series)
    requires n == |Files(destination.checkpoints)| && added == Lesser(budget, |Files(t.series.checkpoints)| - n)
    ensures var (after, outcome) := Install(h, key, destination, t, budget);
            && outcome == (if n + added < |Files(t.series.checkpoints)| then InstallInterrupted(added)
                           else Installed(added, n == |Files(t.series.checkpoints)|))
            && SeriesPasses(h.Checkpoint(), key, after)
            && Took(destination.checkpoints, t.series.checkpoints, added, after.checkpoints)
  {
    PublishedPrefix(destination, t.series, budget);
    InstallPublishes(h, key, destination, t, budget);
    ConcludeSound(
      h, key, destination, n, Files(t.series.checkpoints), Publication(destination, t.series, budget));
  }

  /** The publication loop, when the destination holds a prefix of the incoming
      files: it leaves a longer prefix, or all of them. */
  lemma PublishedPrefix(destination: SeriesDirectory, incoming: SeriesDirectory, budget: nat)
    requires Files(destination.checkpoints) <= Files(incoming.checkpoints) && Fits(destination, incoming)
    ensures var n, m := |Files(destination.checkpoints)|, |Files(incoming.checkpoints)|;
            var p := Publication(destination, incoming, budget);
            && p.added == Lesser(budget, m - n)
            && p.end == (if n + p.added < m then Interrupted else Finished)
            && Took(destination.checkpoints, incoming.checkpoints, p.added, p.directory)
  {
    NamesAscend(incoming);
    NamesAscend(destination);
    PublishRest(
      destination.checkpoints, Names(incoming), Files(incoming.checkpoints), budget,
      |Files(destination.checkpoints)|);
  }

  lemma PublishRest(
    d: Directory<CheckpointFile>, names: seq<nat>, files: seq<CheckpointFile>, budget: nat, n: nat)
    requires |names| == |files| && n == |Files(d)| && Files(d) <= files && Ascending(NatLess, names)
    requires AllBelow(d.slots.Keys, names[n..])
    ensures var p := PublishFrom(d, names[n..], files[n..], budget);
            && p.added == Lesser(budget, |files| - n)
            && p.end == (if n + p.added < |files| then Interrupted else Finished)
            && p.directory.others == d.others
            && Files(p.directory) == files[..n + p.added]
            && SortedNats(p.directory.slots.Keys) == SortedNats(d.slots.Keys) + names[n..][..p.added]
  {
    PublishAppends(d, names[n..], files[n..], budget);
    TakeAfter(files, n, Lesser(budget, |files| - n));
    assert files[..n] == Files(d);
  }

  lemma TakeAfter<F>(files: seq<F>, n: nat, k: nat)
    requires n + k <= |files|
    ensures files[..n + k] == files[..n] + files[n..][..k]
  {
  }

  /** A prefix of a valid series is left behind, whole if the loop finished. */
  lemma ConcludeSound(
    h: Hashing, key: PublicKey, destination: SeriesDirectory, n: nat, incoming: seq<CheckpointFile>,
    published: Published)
    requires SeriesHeaderPasses(key, destination) && destination.checkpoints.others == {}
    requires ValidCheckpoints(h.Checkpoint(), key, incoming) && n + published.added <= |incoming|
    requires published.end == (if n + published.added < |incoming| then Interrupted else Finished)
    requires published.directory.others == {}
    requires Files(published.directory) == incoming[..n + published.added]
    ensures var (after, outcome) := Conclude(h, key, destination, n, incoming, published);
            && outcome == (if n + published.added < |incoming| then InstallInterrupted(published.added)
                           else Installed(published.added, n == |incoming|))
            && after == destination.(checkpoints := published.directory)
            && SeriesPasses(h.Checkpoint(), key, after)
  {
    ValidCheckpointsPrefix(h.Checkpoint(), key, incoming, n + published.added);
    SameDigestsMeansPrefix(h.Checkpoint(), incoming, incoming);
    assert published.end.Finished? ==> incoming[..n + published.added] == incoming;
  }

  /** A file published below a name in use breaks the series for good. */
  lemma InstallMisfits(h: Hashing, key: PublicKey, destination: SeriesDirectory, t: Transfer, budget: nat)
    requires TransferPasses(h, key, t) && SeriesPasses(h.Checkpoint(), key, destination)
    requires Files(destination.checkpoints) <= Files(t.series.checkpoints) && !Fits(destination, t.series)
    ensures var (after, outcome) := Install(h, key, destination, t, budget);
            !outcome.Installed? && (SeriesPasses(h.Checkpoint(), key, after) <==> after == destination)
  {
    var n := |Files(destination.checkpoints)|;
    InstallPublishes(h, key, destination, t, budget);
    PublishMisfits(
      h.Checkpoint(), key, destination.checkpoints, Names(t.series)[n..], Files(t.series.checkpoints), budget);
  }

  lemma PublishMisfits(
    hash: CheckpointHash, key: PublicKey, d: Directory<CheckpointFile>, names: seq<nat>,
    incoming: seq<CheckpointFile>, budget: nat)
    requires ValidCheckpoints(hash, key, Files(d)) && ValidCheckpoints(hash, key, incoming)
    requires Files(d) <= incoming && |names| == |incoming| - |Files(d)| && !AllBelow(d.slots.Keys, names)
    ensures var p := PublishFrom(d, names, incoming[|Files(d)|..], budget);
            if p.directory == d then !p.end.Finished? else !ValidCheckpoints(hash, key, Files(p.directory))
  {
    var n, name := |Files(d)|, names[0];
    var file := incoming[n];
    assert incoming[n..][0] == file;
    assert CheckpointPassesAt(hash, key, incoming, n);
    var k :| k in d.slots && k >= name;
    if name in d.slots {
      GenerationWithin(hash, key, d, name);
    } else if budget > 0 {
      PublishBelow(hash, key, d, names, incoming[n..], budget, k);
    }
  }

  lemma PublishBelow(
    hash: CheckpointHash, key: PublicKey, d: Directory<CheckpointFile>, names: seq<nat>,
    files: seq<CheckpointFile>, budget: nat, k: nat)
    requires ValidCheckpoints(hash, key, Files(d)) && |names| == |files| != 0 && budget > 0
    requires names[0] !in d.slots && k in d.slots && k > names[0] && files[0].Generation() == |Files(d)| + 1
    ensures var p := PublishFrom(d, names, files, budget);
            p.directory != d && !ValidCheckpoints(hash, key, Files(p.directory))
  {
    var grown := d.(slots := d.slots[names[0] := files[0]]);
    var after := PublishFrom(grown, names[1..], files[1..], budget - 1).directory;
    forall m | m in grown.slots ensures m in after.slots && after.slots[m] == grown.slots[m] {
      PublishKeeps(grown, names[1..], files[1..], budget - 1, m);
    }
    LinkedBelowNeverPasses(hash, key, d, after, names[0], k);
  }

  /** Uninterrupted, an install of a longer or equal history succeeds exactly when
      the names in use lie below the missing ones, and then ends with all of it. */
  lemma InstallCompletes(h: Hashing, key: PublicKey, destination: SeriesDirectory, t: Transfer, budget: nat)
    requires TransferPasses(h, key, t) && SeriesPasses(h.Checkpoint(), key, destination)
    requires Files(destination.checkpoints) <= Files(t.series.checkpoints)
    requires |Files(t.series.checkpoints)| <= budget
    ensures var (after, outcome) := Install(h, key, destination, t, budget);
            && (outcome.Installed? <==> Fits(destination, t.series))
            && (outcome.Installed? ==>
                  && SeriesPasses(h.Checkpoint(), key, after)
                  && Files(after.checkpoints) == Files(t.series.checkpoints)
                  && Names(after) == Names(destination) + Names(t.series)[|Files(destination.checkpoints)|..])
            && (Files(destination.checkpoints) == Files(t.series.checkpoints) ==> outcome == Installed(0, true))
  {
    var n, m := |Files(destination.checkpoints)|, |Files(t.series.checkpoints)|;
    if Fits(destination, t.series) {
      InstallExtends(h, key, destination, t, budget, n, m - n);
    } else {
      InstallMisfits(h, key, destination, t, budget);
    }
  }

  lemma InterruptedFits(h: Hashing, key: PublicKey, destination: SeriesDirectory, t: Transfer, stop: nat)
    requires TransferPasses(h, key, t) && SeriesPasses(h.Checkpoint(), key, destination)
    requires Files(destination.checkpoints) <= Files(t.series.checkpoints) && Fits(destination, t.series)
    ensures var partial := Install(h, key, destination, t, stop).0;
            && SeriesPasses(h.Checkpoint(), key, partial)
            && Files(partial.checkpoints) <= Files(t.series.checkpoints) && Fits(partial, t.series)
  {
    var n, m := |Files(destination.checkpoints)|, |Files(t.series.checkpoints)|;
    var added := Lesser(stop, m - n);
    InstallExtends(h, key, destination, t, stop, n, added);
    TookFits(destination, t.series, added, Install(h, key, destination, t, stop).0);
  }

  lemma TookFits(destination: SeriesDirectory, incoming: SeriesDirectory, added: nat, after: SeriesDirectory)
    requires |Files(destination.checkpoints)| <= |Files(incoming.checkpoints)| && Fits(destination, incoming)
    requires Took(destination.checkpoints, incoming.checkpoints, added, after.checkpoints)
    ensures |Names(after)| <= |Names(incoming)| && Fits(after, incoming)
  {
    SortedNatsFacts(incoming.checkpoints.slots.Keys);
    TakenNamesBelow(
      destination.checkpoints.slots.Keys, after.checkpoints.slots.Keys, Names(incoming), added);
  }

  lemma TakenNamesBelow(before: set<nat>, after: set<nat>, names: seq<nat>, added: nat)
    requires |SortedNats(before)| + added <= |names| && Ascending(NatLess, names)
    requires SortedNats(after) == SortedNats(before) + names[|SortedNats(before)|..][..added]
    requires AllBelow(before, names[|SortedNats(before)|..])
    ensures AllBelow(after, names[|SortedNats(after)|..])
  {
    var n, taken := |SortedNats(before)|, SortedNats(after);
    SortedNatsFacts(before);
    SortedNatsFacts(after);
    forall k | |taken| < |names| && k in after ensures k < names[|taken|] {
      assert k in taken;
      var i :| 0 <= i < |taken| && taken[i] == k;
      if i < n {
        assert taken[i] in SortedNats(before) && taken[i] < names[n..][0];
        assert n < |taken| ==> NatLess(names[n], names[|taken|]);
      } else {
        assert taken[i] == names[n..][i - n] == names[i];
        assert NatLess(names[i], names[|taken|]);
      }
    }
  }

  /** Stopping an install after any publication and running it again ends with the
      files the uninterrupted install ends with, and running it once more adds
      nothing. */
  lemma InstallResumes(
    h: Hashing, key: PublicKey, destination: SeriesDirectory, t: Transfer, stop: nat, budget: nat)
    requires TransferPasses(h, key, t) && SeriesPasses(h.Checkpoint(), key, destination)
    requires Files(destination.checkpoints) <= Files(t.series.checkpoints) && Fits(destination, t.series)
    requires |Files(t.series.checkpoints)| <= budget
    ensures var partial := Install(h, key, destination, t, stop).0;
            var resumed := Install(h, key, partial, t, budget).0;
            && Files(resumed.checkpoints) == Files(Install(h, key, destination, t, budget).0.checkpoints)
            && Install(h, key, resumed, t, budget).1 == Installed(0, true)
  {
    InterruptedFits(h, key, destination, t, stop);
    var partial := Install(h, key, destination, t, stop).0;
    InstallCompletes(h, key, destination, t, budget);
    InstallCompletes(h, key, partial, t, budget);
    InstallCompletes(h, key, Install(h, key, partial, t, budget).0, t, budget);
  }

  /** Installing a list of bundles one after another. */
  function JoinAll(current: seq<CheckpointFile>, bundles: seq<seq<CheckpointFile>>): seq<CheckpointFile>
    decreases |bundles|
  {
    if bundles == [] then current else JoinAll(Join(current, bundles[0]), bundles[1..])
  }

  /** The destination only ever grows, and ends at its old chain or at a bundle. */
  lemma {:induction false} JoinAllGrows(current: seq<CheckpointFile>, bundles: seq<seq<CheckpointFile>>)
    ensures current <= JoinAll(current, bundles)
    ensures JoinAll(current, bundles) == current || JoinAll(current, bundles) in bundles
    decreases |bundles|
  {
    if bundles != [] {
      JoinAllGrows(Join(current, bundles[0]), bundles[1..]);
      assert bundles[0] in bundles;
      assert forall b :: b in bundles[1..] ==> b in bundles;
    }
  }

  ghost predicate Comparable(a: seq<CheckpointFile>, b: seq<CheckpointFile>) {
    a <= b || b <= a
  }

  ghost predicate OneHistory(current: seq<CheckpointFile>, bundles: seq<seq<CheckpointFile>>) {
    forall i, j :: 0 <= i < |bundles| && 0 <= j < |bundles| ==>
      Comparable(bundles[i], bundles[j]) && Comparable(current, bundles[i])
  }

  /** When no bundle forks, the result contains every bundle. */
  lemma {:induction false} JoinAllIsUpperBound(current: seq<CheckpointFile>, bundles: seq<seq<CheckpointFile>>, i: nat)
    requires OneHistory(current, bundles) && i < |bundles|
    ensures bundles[i] <= JoinAll(current, bundles)
    decreases |bundles|
  {
    var joined := Join(current, bundles[0]);
    assert OneHistory(joined, bundles[1..]) by {
      forall p, q | 0 <= p < |bundles| - 1 && 0 <= q < |bundles| - 1
        ensures Comparable(bundles[1..][p], bundles[1..][q]) && Comparable(joined, bundles[1..][p])
      {
        assert Comparable(bundles[p + 1], bundles[q + 1]) && Comparable(current, bundles[p + 1]);
        assert Comparable(bundles[0], bundles[p + 1]);
      }
    }
    if i == 0 {
      assert Comparable(bundles[0], bundles[0]) && Comparable(current, bundles[0]);
      JoinAllGrows(joined, bundles[1..]);
    } else {
      JoinAllIsUpperBound(joined, bundles[1..], i - 1);
    }
  }

  /** The order in which bundles of one history arrive, and how often, does not
      change the final chain: it is always the longest of them. */
  lemma JoinAllIgnoresOrder(
    current: seq<CheckpointFile>, bundles: seq<seq<CheckpointFile>>, others: seq<seq<CheckpointFile>>)
    requires OneHistory(current, bundles) && OneHistory(current, others)
    requires forall b :: b in bundles <==> b in others
    ensures JoinAll(current, bundles) == JoinAll(current, others)
  {
    var a, b := JoinAll(current, bundles), JoinAll(current, others);
    JoinAllGrows(current, bundles);
    JoinAllGrows(current, others);
    if a in others {
      var i :| 0 <= i < |others| && others[i] == a;
      JoinAllIsUpperBound(current, others, i);
    }
    if b in bundles {
      var i :| 0 <= i < |bundles| && bundles[i] == b;
      JoinAllIsUpperBound(current, bundles, i);
    }
    assert a <= b && b <= a;
  }

  /** Uninterrupted installs of several transfers into one directory. */
  ghost function InstallAll(
    h: Hashing, key: PublicKey, destination: SeriesDirectory, transfers: seq<Transfer>, budget: nat)
    : SeriesDirectory
    decreases |transfers|
  {
    if transfers == [] then destination
    else InstallAll(h, key, Install(h, key, destination, transfers[0], budget).0, transfers[1..], budget)
  }

  function Bundles(transfers: seq<Transfer>): seq<seq<CheckpointFile>>
    decreases |transfers|
  {
    if transfers == [] then [] else [Files(transfers[0].series.checkpoints)] + Bundles(transfers[1..])
  }

  ghost predicate Installable(
    h: Hashing, key: PublicKey, naming: seq<nat>, transfers: seq<Transfer>, budget: nat)
  {
    forall t :: t in transfers ==>
      TransferPasses(h, key, t) && NamedBy(naming, t.series) && |Files(t.series.checkpoints)| <= budget
  }

  /** Two of these chains hold colliding files at one position. */
  ghost predicate TwoCollide(hash: CheckpointHash, chains: seq<seq<CheckpointFile>>) {
    exists a, b :: a in chains && b in chains && CollisionBetween(hash, a, b)
  }

  lemma InstallNamedBy(
    h: Hashing, key: PublicKey, naming: seq<nat>, destination: SeriesDirectory, t: Transfer, budget: nat)
    requires TransferPasses(h, key, t) && SeriesPasses(h.Checkpoint(), key, destination)
    requires NamedBy(naming, destination) && NamedBy(naming, t.series) && |Files(t.series.checkpoints)| <= budget
    requires !CollisionBetween(h.Checkpoint(), Files(destination.checkpoints), Files(t.series.checkpoints))
    ensures var after := Install(h, key, destination, t, budget).0;
            && SeriesPasses(h.Checkpoint(), key, after) && NamedBy(naming, after)
            && Files(after.checkpoints) == Join(Files(destination.checkpoints), Files(t.series.checkpoints))
  {
    InstallJoins(h, key, destination, t, budget);
    if Files(destination.checkpoints) <= Files(t.series.checkpoints) {
      NamedAlikeFits(naming, destination, t.series);
      InstallCompletes(h, key, destination, t, budget);
      NamesJoin(naming, Names(destination), Names(t.series));
    }
  }

  lemma NamesJoin(naming: seq<nat>, a: seq<nat>, b: seq<nat>)
    requires a <= naming && b <= naming && |a| <= |b|
    ensures a + b[|a|..] <= naming
  {
    assert a + b[|a|..] == b;
  }

  /** Installs act on the destination chain as the join - or two of the chains at
      hand collide. All directories follow one naming, for instance 1, 2, 3 and on. */
  lemma {:induction false} InstallAllJoins(
    h: Hashing, key: PublicKey, naming: seq<nat>, destination: SeriesDirectory, transfers: seq<Transfer>,
    budget: nat)
    requires SeriesPasses(h.Checkpoint(), key, destination) && NamedBy(naming, destination)
    requires Installable(h, key, naming, transfers, budget)
    ensures || TwoCollide(h.Checkpoint(), [Files(destination.checkpoints)] + Bundles(transfers))
            || Files(InstallAll(h, key, destination, transfers, budget).checkpoints)
               == JoinAll(Files(destination.checkpoints), Bundles(transfers))
    decreases |transfers|
  {
    if transfers != [] {
      var t := transfers[0];
      assert t in transfers;
      var current, incoming := Files(destination.checkpoints), Files(t.series.checkpoints);
      var chains := [current] + Bundles(transfers);
      assert chains[0] == current && chains[1] == incoming;
      if !CollisionBetween(h.Checkpoint(), current, incoming) {
        InstallNamedBy(h, key, naming, destination, t, budget);
        var after := Install(h, key, destination, t, budget).0;
        InstallAllJoins(h, key, naming, after, transfers[1..], budget);
        var rest := Bundles(transfers[1..]);
        if TwoCollide(h.Checkpoint(), [Join(current, incoming)] + rest) {
          FewerChains(h.Checkpoint(), current, incoming, rest);
        }
      }
    }
  }

  /** Among directories that are named 1..n, as init, append and build name them,
      installs act as the join - or two of the chains at hand collide. */
  lemma InstallAllNumbered(
    h: Hashing, key: PublicKey, destination: SeriesDirectory, transfers: seq<Transfer>, budget: nat)
    requires SeriesPasses(h.Checkpoint(), key, destination)
    requires Contiguous(destination.checkpoints, |Names(destination)|)
    requires forall t :: t in transfers ==>
               && TransferPasses(h, key, t) && Contiguous(t.series.checkpoints, |Names(t.series)|)
               && |Files(t.series.checkpoints)| <= budget
    ensures || TwoCollide(h.Checkpoint(), [Files(destination.checkpoints)] + Bundles(transfers))
            || Files(InstallAll(h, key, destination, transfers, budget).checkpoints)
               == JoinAll(Files(destination.checkpoints), Bundles(transfers))
  {
    var n := budget + |Names(destination)|;
    ContiguousNamedBy(destination, n);
    forall t | t in transfers ensures NamedBy(Interval(n), t.series) {
      FilesLength(t.series.checkpoints);
      ContiguousNamedBy(t.series, n);
    }
    InstallAllJoins(h, key, Interval(n), destination, transfers, budget);
  }

  lemma FewerChains(
    hash: CheckpointHash, current: seq<CheckpointFile>, incoming: seq<CheckpointFile>,
    rest: seq<seq<CheckpointFile>>)
    requires TwoCollide(hash, [Join(current, incoming)] + rest)
    ensures TwoCollide(hash, [current] + ([incoming] + rest))
  {
    var fewer, more := [Join(current, incoming)] + rest, [current] + ([incoming] + rest);
    var a, b :| a in fewer && b in fewer && CollisionBetween(hash, a, b);
    assert more[0] == current && more[1] == incoming && forall c :: c in rest ==> c in more;
    assert a in more && b in more;
  }
}
