/** The append-only, HMAC-chained audit log of deployment operations, with its
    newest checkpoint in the keyring. */
module AuditLog {
  import opened Prelude
  import opened HashChain
  import opened HistoryKeyring
  import opened TextLines

  const MAX_AUDIT_BYTES: nat := 64 * 1024 * 1024
  const MAX_AUDIT_LINE_BYTES: nat := 1024 * 1024
  const MAX_AUDIT_EVENTS: nat := 100_000

  datatype AuditPayload = AuditPayload(
    formatKnown: bool,
    sequence: int,
    previous: Token,
    keyId: Token,
    keyFingerprint: Token,
    details: string)

  /** Ideal HMAC-SHA-256. */
  datatype AuditMac = AuditMac(key: Token, payload: AuditPayload) | NoAuditMac(text: string)

  datatype AuditRecord = AuditRecord(payload: AuditPayload, mac: AuditMac)

  /** JSON printing and parsing of one record, and the entry digest. */
  datatype Codec = Codec(
    render: AuditRecord -> string,
    parse: string -> Option<AuditRecord>,
    hash: AuditRecord -> Token)

  /** Canonical JSON parses back, has no raw line break, is not empty, and never
      completes another JSON text. */
  ghost predicate LawfulCodec(c: Codec) {
    && (forall r :: c.parse(c.render(r)) == Some(r) && NoBreak(ByteSplitting, c.render(r)) && c.render(r) != "")
    && (forall x: string, r :: x != "" && c.parse(x).Some? ==> c.parse(x + c.render(r)).None?)
    && ProducesSha256(c.hash)
  }

  /** The checks on one record at its position. */
  predicate AuditPasses(d: Derivation, ring: Option<Keyring>, record: AuditRecord, position: int, previous: Token) {
    && ring.Some?
    && record.payload.formatKnown
    && record.payload.sequence == position
    && record.payload.previous == previous
    && var key := Resolve(d, ring.value, record.payload.keyId, record.payload.keyFingerprint);
    && key.Some?
    && record.mac == AuditMac(key.value.material, record.payload)
  }

  predicate AuditPassesAt(c: Codec, d: Derivation, ring: Option<Keyring>, records: seq<AuditRecord>, i: nat)
    requires i < |records|
  {
    AuditPasses(d, ring, records[i], i + 1, LinkAt(c.hash, records, i))
  }

  /** A contiguous, hash-chained, authenticated run of records. */
  ghost predicate ValidRecords(c: Codec, d: Derivation, ring: Option<Keyring>, records: seq<AuditRecord>) {
    forall i {:trigger AuditPassesAt(c, d, ring, records, i)} :: 0 <= i < |records| ==>
      AuditPassesAt(c, d, ring, records, i)
  }

  ghost predicate Decodes(c: Codec, lines: seq<string>, records: seq<AuditRecord>) {
    |records| == |lines| && forall i :: 0 <= i < |lines| ==> c.parse(lines[i]) == Some(records[i])
  }

  /** The keyring checkpoint; a missing keyring counts as the empty checkpoint. */
  predicate MeetsCheckpoint(c: Codec, ring: Option<Keyring>, records: seq<AuditRecord>) {
    ring.Some? ==>
      && ring.value.sequence <= |records|
      && (ring.value.sequence > 0 ==> c.hash(records[ring.value.sequence - 1]) == ring.value.head)
  }

  predicate WithinBoundary(lines: seq<string>) {
    |lines| <= MAX_AUDIT_EVENTS && forall i :: 0 <= i < |lines| ==> |lines[i]| <= MAX_AUDIT_LINE_BYTES
  }

  /** The log's lines are exactly these records, and they verify. */
  ghost predicate LogHolds(c: Codec, d: Derivation, ring: Option<Keyring>, raw: string, records: seq<AuditRecord>) {
    && (ring.Some? ==> Readable(d, ring.value))
    && WithinBoundary(SplitLines(ByteSplitting, raw))
    && Decodes(c, SplitLines(ByteSplitting, raw), records)
    && ValidRecords(c, d, ring, records)
    && MeetsCheckpoint(c, ring, records)
  }

  ghost predicate LogPasses(c: Codec, d: Derivation, ring: Option<Keyring>, raw: string) {
    exists records :: LogHolds(c, d, ring, raw, records)
  }

  lemma ValidRecordsExtend(
    c: Codec, d: Derivation, ring: Option<Keyring>, records: seq<AuditRecord>, record: AuditRecord)
    requires ValidRecords(c, d, ring, records)
    requires AuditPasses(d, ring, record, |records| + 1, HeadHash(c.hash, records))
    ensures ValidRecords(c, d, ring, records + [record])
  {
    var longer := records + [record];
    forall i: nat | i < |longer| ensures AuditPassesAt(c, d, ring, longer, i) {
      if i < |records| {
        assert AuditPassesAt(c, d, ring, records, i);
        assert longer[i] == records[i] && LinkAt(c.hash, longer, i) == LinkAt(c.hash, records, i);
      }
    }
  }

  /** No truncated, edited or forked log passes a checkpoint issued for an authentic
      one: if the keyring pins entry n of `issued`, a log that verifies against it
      starts with the first n records of `issued`, or the two logs collide. */
  lemma CheckpointPinsLog(
    c: Codec, d: Derivation, ring: Keyring, before: Option<Keyring>,
    issued: seq<AuditRecord>, current: seq<AuditRecord>)
    requires ValidRecords(c, d, before, issued) && ValidRecords(c, d, Some(ring), current)
    requires issued != [] && ring.sequence == |issued| && ring.head == HeadHash(c.hash, issued)
    ensures issued <= current ==> MeetsCheckpoint(c, Some(ring), current)
    ensures MeetsCheckpoint(c, Some(ring), current) ==>
              |issued| <= |current| && (issued <= current || CollisionBetween(c.hash, issued, current))
  {
    if MeetsCheckpoint(c, Some(ring), current) {
      var previous := (r: AuditRecord) => r.payload.previous;
      forall i | 0 <= i < |issued| ensures previous(issued[i]) == LinkAt(c.hash, issued, i) {
        assert AuditPassesAt(c, d, before, issued, i);
      }
      forall i | 0 <= i < |current| ensures previous(current[i]) == LinkAt(c.hash, current, i) {
        assert AuditPassesAt(c, d, Some(ring), current, i);
      }
      SameDigestSamePrefix(c.hash, previous, issued, current, |issued|);
    }
  }

  datatype AuditState = AuditState(events: nat, head: Token)

  /** _verify_lines. */
  method VerifyLines(c: Codec, d: Derivation, ring: Option<Keyring>, raw: string) returns (state: Option<AuditState>)
    ensures state.Some? <==> LogPasses(c, d, ring, raw)
    ensures forall records :: LogHolds(c, d, ring, raw, records) ==>
              state == Some(AuditState(|records|, HeadHash(c.hash, records)))
  {
    var lines := SplitLines(ByteSplitting, raw);
    if !WithinBoundary(lines) || (ring.Some? && !Readable(d, ring.value)) {
      return None;
    }
    var records: seq<AuditRecord> := [];
    var previous := ZERO_HASH;
    while |records| < |lines|
      invariant |records| <= |lines|
      invariant Decodes(c, lines[..|records|], records)
      invariant ValidRecords(c, d, ring, records)
      invariant previous == HeadHash(c.hash, records)
      decreases |lines| - |records|
    {
      var k := |records|;
      var parsed := c.parse(lines[k]);
      if parsed.None? || !AuditPasses(d, ring, parsed.value, k + 1, previous) {
        forall others | LogHolds(c, d, ring, raw, others) ensures false {
          HeldRecordPasses(c, d, ring, raw, others, records);
        }
        return None;
      }
      ValidRecordsExtend(c, d, ring, records, parsed.value);
      previous := c.hash(parsed.value);
      records := records + [parsed.value];
    }
    assert lines[..|records|] == lines;
    forall others | LogHolds(c, d, ring, raw, others) ensures others == records {
      DecodesUnique(c, lines, others, records);
    }
    if !MeetsCheckpoint(c, ring, records) {
      return None;
    }
    assert LogHolds(c, d, ring, raw, records);
    return Some(AuditState(|records|, previous));
  }

  /** In a log that verifies, the line after any decoded run passes its checks. */
  lemma HeldRecordPasses(
    c: Codec, d: Derivation, ring: Option<Keyring>, raw: string, records: seq<AuditRecord>, firsts: seq<AuditRecord>)
    requires LogHolds(c, d, ring, raw, records) && |firsts| < |SplitLines(ByteSplitting, raw)|
    requires Decodes(c, SplitLines(ByteSplitting, raw)[..|firsts|], firsts)
    ensures c.parse(SplitLines(ByteSplitting, raw)[|firsts|]) == Some(records[|firsts|])
    ensures AuditPasses(d, ring, records[|firsts|], |firsts| + 1, HeadHash(c.hash, firsts))
  {
    DecodesUnique(c, SplitLines(ByteSplitting, raw), records, firsts);
    assert AuditPassesAt(c, d, ring, records, |firsts|);
  }

  lemma DecodesUnique(c: Codec, lines: seq<string>, records: seq<AuditRecord>, firsts: seq<AuditRecord>)
    requires Decodes(c, lines, records) && |firsts| <= |lines| && Decodes(c, lines[..|firsts|], firsts)
    ensures firsts == records[..|firsts|]
    ensures |firsts| > 0 ==> HeadHash(c.hash, firsts) == c.hash(records[|firsts| - 1])
  {
    forall i | 0 <= i < |firsts| ensures firsts[i] == records[i] {
      assert c.parse(lines[..|firsts|][i]) == Some(firsts[i]);
      assert c.parse(lines[i]) == Some(records[i]);
    }
  }

  /** The record append builds on a verified log. */
  function NextRecord(d: Derivation, key: Token, events: nat, head: Token, details: string): AuditRecord {
    var payload := AuditPayload(true, events + 1, head, d.keyId(key), d.fingerprint(key), details);
    AuditRecord(payload, AuditMac(key, payload))
  }

  /** The verifier takes no record at a position but one that append makes there with
      a key of the keyring, current or retired. */
  lemma OnlyOwnRecordPasses(d: Derivation, ring: Keyring, record: AuditRecord, position: nat, previous: Token)
    requires Readable(d, ring)
    ensures AuditPasses(d, Some(ring), record, position + 1, previous) <==>
              exists i: nat, details: string ::
                && i < |ring.keys|
                && record == NextRecord(d, ring.keys[i].material, position, previous, details)
  {
    if AuditPasses(d, Some(ring), record, position + 1, previous) {
      var i := Position(d, ring.keys, record.payload.keyId);
      assert record == NextRecord(d, ring.keys[i].material, position, previous, record.payload.details);
    }
    if i: nat, details: string :|
       && i < |ring.keys|
       && record == NextRecord(d, ring.keys[i].material, position, previous, details)
    {
      PositionUnique(d, ring.keys, i, record.payload.keyId);
    }
  }

  /** Rotation keeps the log: what verified still does, against the same checkpoint. */
  lemma RotatedLogHolds(
    c: Codec, d: Derivation, ring: Keyring, material: Token, raw: string, records: seq<AuditRecord>)
    requires Readable(d, ring) && |ring.keys| < MAX_KEYS && FreshKey(d, ring, material)
    ensures var rotated := Rotated(d, ring, material);
            && (MeetsCheckpoint(c, Some(rotated), records) <==> MeetsCheckpoint(c, Some(ring), records))
            && (LogHolds(c, d, Some(ring), raw, records) ==> LogHolds(c, d, Some(rotated), raw, records))
  {
    var rotated := Rotated(d, ring, material);
    RotatedResolves(d, ring, material, Token(""), Token(""));
    if LogHolds(c, d, Some(ring), raw, records) {
      forall i: nat | i < |records| ensures AuditPassesAt(c, d, Some(rotated), records, i) {
        assert AuditPassesAt(c, d, Some(ring), records, i);
        RotatedResolves(d, ring, material, records[i].payload.keyId, records[i].payload.keyFingerprint);
      }
    }
  }

  /** Writing the next record to a verified log leaves a verified log of one more
      event - before the checkpoint moves and after - exactly when the log was
      below its event limit and its last line was terminated. */
  lemma AppendedLogVerifies(
    c: Codec, d: Derivation, ring: Keyring, raw: string, records: seq<AuditRecord>, details: string)
    requires LawfulCodec(c) && Readable(d, ring)
    requires LogHolds(c, d, Some(ring), raw, records)
    requires var record := NextRecord(
               d, Current(d, ring).value.material, |records|, HeadHash(c.hash, records), details);
             Current(d, ring).Some? && |c.render(record)| <= MAX_AUDIT_LINE_BYTES
    ensures var record := NextRecord(d, Current(d, ring).value.material, |records|, HeadHash(c.hash, records), details);
            var written := raw + (c.render(record) + "\n");
            && (LogPasses(c, d, Some(ring), written) <==> HasRoom(raw))
            && (LogPasses(c, d, Some(ring), written) ==>
                  && LogHolds(c, d, Some(ring), written, records + [record])
                  && LogHolds(
                       c, d, Some(WithCheckpoint(ring, |records| + 1, c.hash(record))), written, records + [record]))
  {
    CurrentResolves(d, ring);
    var record := NextRecord(d, Current(d, ring).value.material, |records|, HeadHash(c.hash, records), details);
    var line := c.render(record);
    var written := raw + (line + "\n");
    var lines := SplitLines(ByteSplitting, raw);
    if !HasRoom(raw) {
      OverrunNeverPasses(c, d, Some(ring), Some(ring), raw, records, record);
    } else {
      SplitAppend(ByteSplitting, raw, line);
      var longer := records + [record];
      ValidRecordsExtend(c, d, Some(ring), records, record);
      assert SplitLines(ByteSplitting, written) == lines + [line];
      assert Decodes(c, SplitLines(ByteSplitting, written), longer);
      assert LogHolds(c, d, Some(ring), written, longer);
      var moved := WithCheckpoint(ring, |records| + 1, c.hash(record));
      assert IsSha256(moved.head) && Readable(d, moved);
      forall i: nat | i < |longer| ensures AuditPassesAt(c, d, Some(moved), longer, i) {
        assert AuditPassesAt(c, d, Some(ring), longer, i);
      }
    }
  }

  /** A record written to a full or unterminated log stays on disk, and under no
      keyring does that log ever verify again. */
  lemma OverrunNeverPasses(
    c: Codec, d: Derivation, ring: Option<Keyring>, other: Option<Keyring>, raw: string,
    records: seq<AuditRecord>, record: AuditRecord)
    requires LawfulCodec(c) && LogHolds(c, d, ring, raw, records)
    requires !HasRoom(raw)
    ensures !LogPasses(c, d, other, raw + (c.render(record) + "\n"))
  {
    var lines := SplitLines(ByteSplitting, raw);
    var written := SplitLines(ByteSplitting, raw + (c.render(record) + "\n"));
    if !EndsLine(ByteSplitting, raw) {
      SplitGlue(ByteSplitting, raw, c.render(record));
      var last := |lines| - 1;
      assert written[last] == lines[last] + c.render(record);
      assert c.parse(lines[last]) == Some(records[last]);
      assert c.parse(written[last]).None?;
    } else {
      SplitAppend(ByteSplitting, raw, c.render(record));
      assert |written| == MAX_AUDIT_EVENTS + 1;
    }
    forall others ensures !LogHolds(c, d, other, raw + (c.render(record) + "\n"), others) {
    }
  }

  /** verify_deployment_audit_checkpoint: the log contains the prefix an external
      witness recorded. */
  predicate WitnessMet(c: Codec, records: seq<AuditRecord>, sequence: nat, head: Token) {
    sequence <= |records| && LinkAt(c.hash, records, sequence) == head
  }

  /** A log meets a witness of an older authentic log exactly when it extends that
      log, or the two logs collide. */
  lemma WitnessPinsLog(
    c: Codec, d: Derivation, before: Option<Keyring>, now: Option<Keyring>,
    witnessed: seq<AuditRecord>, current: seq<AuditRecord>)
    requires ValidRecords(c, d, before, witnessed) && ValidRecords(c, d, now, current)
    ensures witnessed <= current ==> WitnessMet(c, current, |witnessed|, HeadHash(c.hash, witnessed))
    ensures WitnessMet(c, current, |witnessed|, HeadHash(c.hash, witnessed)) ==>
              witnessed <= current || CollisionBetween(c.hash, witnessed, current)
  {
    if WitnessMet(c, current, |witnessed|, HeadHash(c.hash, witnessed)) && witnessed != [] {
      var previous := (r: AuditRecord) => r.payload.previous;
      forall i | 0 <= i < |witnessed| ensures previous(witnessed[i]) == LinkAt(c.hash, witnessed, i) {
        assert AuditPassesAt(c, d, before, witnessed, i);
      }
      forall i | 0 <= i < |current| ensures previous(current[i]) == LinkAt(c.hash, current, i) {
        assert AuditPassesAt(c, d, now, current, i);
      }
      SameDigestSamePrefix(c.hash, previous, witnessed, current, |witnessed|);
    }
  }

  datatype AppendOutcome =
    | Appended
    | ActionRejected
    | KeyUnavailable
    | LogUnavailable
    | LogRejected
    | RecordTooLarge
    | WriteInterrupted(written: nat)
    | UnverifiedAfterWrite
    | CheckpointFailed
    | PermissionsFailed

  /** Outcomes before the first byte is written. */
  predicate Refused(outcome: AppendOutcome) {
    outcome in {ActionRejected, KeyUnavailable, LogUnavailable, LogRejected, RecordTooLarge}
  }

  /** How far a write got, the operation after it, and whether it succeeded. */
  datatype WriteEnd = WriteEnd(written: nat, operations: nat, ok: bool)

  /** os.write takes at least one byte and at most all that are left. */
  function Taken(wanted: nat, rest: nat): nat {
    if wanted == 0 && rest > 0 then 1 else if wanted > rest then rest else wanted
  }

  /** The write loop from this operation on. */
  function WriteSteps(fails: nat -> bool, chunks: nat -> nat, operation: nat, length: nat): (end: WriteEnd)
    ensures end.written <= length && (end.ok ==> end.written == length)
    decreases length
  {
    if length == 0 then WriteEnd(0, operation, true)
    else if fails(operation) then WriteEnd(0, operation + 1, false)
    else
      var taken := Taken(chunks(operation), length);
      var rest := WriteSteps(fails, chunks, operation + 1, length - taken);
      rest.(written := taken + rest.written)
  }

  /** The write loop and the fsync after it. */
  function SyncedSteps(fails: nat -> bool, chunks: nat -> nat, operation: nat, length: nat): WriteEnd {
    var end := WriteSteps(fails, chunks, operation, length);
    if end.ok then WriteEnd(length, end.operations + 1, !fails(end.operations)) else end
  }

  /** The outcome of an append, and the operations after it on keyring and log. */
  datatype AppendEnd = AppendEnd(outcome: AppendOutcome, keyringOperations: nat, operations: nat)

  /** An append whose record is on disk, by the operations that fail. */
  function SettleSteps(
    room: bool, keyringFails: nat -> bool, keyringOperation: nat, fails: nat -> bool, operation: nat): AppendEnd
  {
    if !room then AppendEnd(UnverifiedAfterWrite, keyringOperation, operation)
    else if !WritesThrough(keyringFails, keyringOperation) then
      AppendEnd(CheckpointFailed, keyringOperation + 4, operation)
    else
      AppendEnd(
        if fails(operation) then PermissionsFailed else Appended, keyringOperation + 4, operation + 1)
  }

  /** The record that append builds for this log. */
  ghost function RecordFor(c: Codec, d: Derivation, ring: Keyring, raw: string, details: string): AuditRecord
    requires LogPasses(c, d, Some(ring), raw) && Current(d, ring).Some?
  {
    var records :| LogHolds(c, d, Some(ring), raw, records);
    NextRecord(d, Current(d, ring).value.material, |records|, HeadHash(c.hash, records), details)
  }

  predicate Fits(c: Codec, raw: string, record: AuditRecord) {
    |c.render(record)| + 1 <= MAX_AUDIT_LINE_BYTES && |raw| + |c.render(record)| + 1 <= MAX_AUDIT_BYTES
  }

  /** The log can be read and verifies under this keyring. */
  ghost predicate Acceptable(c: Codec, d: Derivation, ring: Keyring, raw: string) {
    Readable(d, ring) && Current(d, ring).Some? && |raw| <= MAX_AUDIT_BYTES && LogPasses(c, d, Some(ring), raw)
  }

  /** An append once key and log are at hand. */
  ghost function CommitSteps(
    c: Codec, d: Derivation, ring: Keyring, raw: string, details: string,
    keyringFails: nat -> bool, keyringOperation: nat, fails: nat -> bool, chunks: nat -> nat, operation: nat)
    : AppendEnd
  {
    if !Acceptable(c, d, ring, raw) then AppendEnd(LogRejected, keyringOperation, operation)
    else
      var record := RecordFor(c, d, ring, raw, details);
      if !Fits(c, raw, record) then AppendEnd(RecordTooLarge, keyringOperation, operation)
      else WrittenSteps(c, raw, record, keyringFails, keyringOperation, fails, chunks, operation)
  }

  /** An append from the first written byte on. */
  function WrittenSteps(
    c: Codec, raw: string, record: AuditRecord, keyringFails: nat -> bool, keyringOperation: nat,
    fails: nat -> bool, chunks: nat -> nat, operation: nat): AppendEnd
  {
    var end := SyncedSteps(fails, chunks, operation, |c.render(record)| + 1);
    if !end.ok then AppendEnd(WriteInterrupted(end.written), keyringOperation, end.operations)
    else SettleSteps(HasRoom(raw), keyringFails, keyringOperation, fails, end.operations)
  }

  /** The end of the write loop, seen after some of it. */
  function Continued(
    fails: nat -> bool, chunks: nat -> nat, ok: bool, written: nat, operation: nat, length: nat): WriteEnd
    requires written <= length
  {
    if !ok then WriteEnd(written, operation, false)
    else
      var rest := WriteSteps(fails, chunks, operation, length - written);
      rest.(written := written + rest.written)
  }

  lemma ContinuedStep(fails: nat -> bool, chunks: nat -> nat, written: nat, operation: nat, length: nat)
    requires written < length
    ensures Continued(fails, chunks, true, written, operation, length)
            == if fails(operation) then Continued(fails, chunks, false, written, operation + 1, length)
               else
                 var taken := Taken(chunks(operation), length - written);
                 Continued(fails, chunks, true, written + taken, operation + 1, length)
  {
    var taken := Taken(chunks(operation), length - written);
    assert length - written - taken == length - (written + taken);
  }

  lemma TakeMore(prefix: string, encoded: string, written: nat, taken: nat)
    requires written + taken <= |encoded|
    ensures prefix + encoded[..written] + encoded[written..written + taken] == prefix + encoded[..written + taken]
  {
    assert encoded[..written] + encoded[written..written + taken] == encoded[..written + taken];
  }

  /** Every step of rewriting the log's previous bytes, or of unlinking it, succeeds. */
  predicate RewritesLog(fails: nat -> bool, operation: nat, previous: Option<string>) {
    !fails(operation) && (previous.Some? ==> !fails(operation + 1))
  }

  /** The whole append, by what can be known before it: log, keyring and the
      operations that fail. */
  ghost function AppendSteps(
    c: Codec, d: Derivation, content: Option<Keyring>, newKey: Token, raw: string, actionValid: bool,
    details: string, keyringFails: nat -> bool, keyringOperation: nat, fails: nat -> bool, chunks: nat -> nat,
    operation: nat): AppendEnd
  {
    var ready := keyringOperation + if content.Some? then 0 else 3;
    if !actionValid then AppendEnd(ActionRejected, keyringOperation, operation)
    else if !KeyAvailable(d, content, keyringFails, keyringOperation) then
      AppendEnd(KeyUnavailable, ready, operation)
    else if fails(operation) then AppendEnd(LogUnavailable, ready, operation + 1)
    else
      CommitSteps(
        c, d, KeyringFor(d, content, newKey), raw, details, keyringFails, ready, fails, chunks, operation + 1)
  }

  function KeyringFor(d: Derivation, content: Option<Keyring>, newKey: Token): Keyring {
    if content.Some? then content.value else NewKeyring(d, newKey)
  }

  lemma RecordForHeld(
    c: Codec, d: Derivation, ring: Keyring, raw: string, details: string, records: seq<AuditRecord>)
    requires LogHolds(c, d, Some(ring), raw, records) && Current(d, ring).Some?
    ensures RecordFor(c, d, ring, raw, details)
            == NextRecord(d, Current(d, ring).value.material, |records|, HeadHash(c.hash, records), details)
  {
    HeldUnique(c, d, Some(ring), raw, records);
  }

  lemma AppendableMeans(c: Codec, d: Derivation, ring: Keyring, raw: string, details: string)
    ensures Appendable(c, d, ring, raw, details) <==>
              Acceptable(c, d, ring, raw) && Fits(c, raw, RecordFor(c, d, ring, raw, details))
  {
    if Acceptable(c, d, ring, raw) {
      var records :| LogHolds(c, d, Some(ring), raw, records);
      RecordForHeld(c, d, ring, raw, details, records);
      HeldUnique(c, d, Some(ring), raw, records);
    }
  }

  lemma {:induction false} ReliableWrites(fails: nat -> bool, chunks: nat -> nat, operation: nat, length: nat)
    requires Reliable(fails)
    ensures WriteSteps(fails, chunks, operation, length).ok && SyncedSteps(fails, chunks, operation, length).ok
    decreases length
  {
    if length > 0 {
      var taken := Taken(chunks(operation), length);
      ReliableWrites(fails, chunks, operation + 1, length - taken);
    }
  }

  /** When nothing fails, the limits alone decide. */
  lemma ReliableAppend(
    c: Codec, d: Derivation, content: Option<Keyring>, newKey: Token, raw: string, actionValid: bool,
    details: string, keyringFails: nat -> bool, keyringOperation: nat, fails: nat -> bool, chunks: nat -> nat,
    operation: nat)
    requires Reliable(fails) && Reliable(keyringFails) && content.Some?
    ensures var end := AppendSteps(
              c, d, content, newKey, raw, actionValid, details, keyringFails, keyringOperation, fails, chunks,
              operation);
            && (Refused(end.outcome) <==> !(actionValid && Appendable(c, d, content.value, raw, details)))
            && (end.outcome.Appended? <==> !Refused(end.outcome) && HasRoom(raw))
  {
    AppendableMeans(c, d, content.value, raw, details);
    if Appendable(c, d, content.value, raw, details) {
      ReliableWrites(
        fails, chunks, operation + 1, |c.render(RecordFor(c, d, content.value, raw, details))| + 1);
    }
  }

  class AuditTrail {
    var log: Option<string>
    var operations: nat
    const fails: nat -> bool
    const chunks: nat -> nat

    constructor (log: Option<string>, fails: nat -> bool, chunks: nat -> nat)
      ensures this.log == log && operations == 0 && this.fails == fails && this.chunks == chunks
    {
      this.log := log;
      this.fails := fails;
      this.chunks := chunks;
      operations := 0;
    }

    function Text(): string
      reads this
    {
      if log.Some? then log.value else ""
    }

    method Attempt() returns (ok: bool)
      modifies this`operations
      ensures operations == old(operations) + 1
      ensures ok <==> !fails(old(operations))
    {
      ok := !fails(operations);
      operations := operations + 1;
    }

    /** An append to this log, from these operations of log and keyring on. */
    ghost function StepsFrom(
      c: Codec, d: Derivation, keyring: KeyringFile, content: Option<Keyring>, newKey: Token, raw: string,
      actionValid: bool, details: string, keyringOperation: nat, operation: nat): AppendEnd
    {
      AppendSteps(
        c, d, content, newKey, raw, actionValid, details, keyring.fails, keyringOperation, fails, chunks, operation)
    }

    /** _restore_raw_file. */
    method RestoreRaw(previous: Option<string>) returns (ok: bool)
      modifies this
      ensures ok <==> RestoresRaw(fails, old(operations), previous.Some?)
      ensures log == if ok then previous else old(log)
    {
      ok := Attempt();
      if ok && previous.Some? {
        ok := Attempt();
        if ok {
          ok := Attempt();
        }
      }
      if ok {
        log := previous;
      }
    }

    /** Undoing a change: unlink the log, or rewrite its previous bytes. */
    method PutBack(previous: Option<string>) returns (ok: bool)
      modifies this
      ensures ok ==> log == previous
      ensures !ok ==> log == old(log) || log == previous
      ensures ok <==> RewritesLog(fails, old(operations), previous)
    {
      ok := Attempt();
      if ok {
        log := previous;
        if previous.Some? {
          ok := Attempt();
        }
      }
    }

    /** One os.write of bytes not yet written. */
    method WriteSome(encoded: string, ghost prefix: string, written: nat) returns (ok: bool, next: nat)
      requires written < |encoded| && log == Some(prefix + encoded[..written])
      modifies this
      ensures written <= next <= |encoded| && (ok ==> written < next) && log == Some(prefix + encoded[..next])
      ensures Continued(fails, chunks, true, written, old(operations), |encoded|)
              == Continued(fails, chunks, ok, next, operations, |encoded|)
    {
      ContinuedStep(fails, chunks, written, operations, |encoded|);
      var wanted := chunks(operations);
      next := written;
      ok := Attempt();
      if ok {
        var taken := Taken(wanted, |encoded| - written);
        TakeMore(prefix, encoded, written, taken);
        log := Some(log.value + encoded[written..written + taken]);
        next := written + taken;
      }
    }

    /** The write loop: os.write takes at least one byte at a time, and a failure
        leaves the bytes already taken. */
    method WriteAll(encoded: string) returns (ok: bool, written: nat)
      requires log.Some?
      modifies this
      ensures written <= |encoded| && log == Some(old(log).value + encoded[..written])
      ensures ok ==> written == |encoded|
      ensures WriteEnd(written, operations, ok) == WriteSteps(fails, chunks, old(operations), |encoded|)
    {
      written := 0;
      ok := true;
      assert encoded[..0] == "" && log.value + "" == log.value;
      while ok && written < |encoded|
        invariant written <= |encoded| && log == Some(old(log).value + encoded[..written])
        invariant WriteSteps(fails, chunks, old(operations), |encoded|)
                  == Continued(fails, chunks, ok, written, operations, |encoded|)
        decreases |encoded| - written, ok
      {
        ok, written := WriteSome(encoded, old(log).value, written);
      }
    }

    /** The record's bytes, then fsync. */
    method WriteRecord(encoded: string) returns (ok: bool, written: nat)
      requires log.Some?
      modifies this
      ensures written <= |encoded| && log == Some(old(log).value + encoded[..written])
      ensures ok ==> written == |encoded|
      ensures WriteEnd(written, operations, ok) == SyncedSteps(fails, chunks, old(operations), |encoded|)
    {
      ok, written := WriteAll(encoded);
      if ok {
        ok := Attempt();
      }
    }

    /** Verify the written log: it passes exactly if there was room, and then ends
        with the new record. */
    static method ReadBack(
      c: Codec, d: Derivation, content: Option<Keyring>, text: string, ghost ring: Keyring, ghost raw: string,
      ghost records: seq<AuditRecord>, ghost details: string, ghost record: AuditRecord)
      returns (verified: Option<AuditState>)
      requires Builds(c, d, ring, raw, records, details, record)
      requires content == Some(ring) && |c.render(record)| <= MAX_AUDIT_LINE_BYTES
      requires text == raw + (c.render(record) + "\n")
      ensures verified == if HasRoom(raw) then Some(AuditState(|records| + 1, c.hash(record))) else None
    {
      AppendedLogVerifies(c, d, ring, raw, records, details);
      verified := VerifyLines(c, d, content, text);
      if HasRoom(raw) {
        assert LogHolds(c, d, Some(ring), text, records + [record]);
      }
    }

    /** Move the checkpoint and restrict the file, if the log reads back. */
    method Settle(
      c: Codec, d: Derivation, keyring: KeyringFile, ghost ring: Keyring, ghost raw: string,
      ghost records: seq<AuditRecord>, details: string, ghost record: AuditRecord)
      returns (outcome: AppendOutcome)
      requires Builds(c, d, ring, raw, records, details, record)
      requires keyring.content == Some(ring) && |c.render(record)| <= MAX_AUDIT_LINE_BYTES
      requires log == Some(raw + (c.render(record) + "\n"))
      modifies this, keyring
      ensures log == old(log)
      ensures CommitEffect(c, d, ring, raw, records, record, outcome, keyring.content, Text())
      ensures !outcome.WriteInterrupted?
      ensures AppendEnd(outcome, keyring.operations, operations)
              == SettleSteps(HasRoom(raw), keyring.fails, old(keyring.operations), fails, old(operations))
    {
      var verified := ReadBack(c, d, keyring.content, log.value, ring, raw, records, details, record);
      outcome := UnverifiedAfterWrite;
      if verified.Some? {
        var moved := keyring.UpdateCheckpoint(verified.value.events, verified.value.head);
        outcome := CheckpointFailed;
        if moved {
          var restricted := Attempt();
          outcome := if restricted then Appended else PermissionsFailed;
        }
      }
      SettledEffect(c, d, ring, raw, records, details, record, outcome, keyring.content);
    }

    /** The record that continues the log, if the log verifies and has room for it. */
    static method Extend(
      c: Codec, d: Derivation, content: Option<Keyring>, ghost ring: Keyring, key: Token, raw: string, details: string)
      returns (refusal: AppendOutcome, next: Option<AuditRecord>, ghost records: seq<AuditRecord>)
      requires LawfulCodec(c)
      requires content == Some(ring) && Readable(d, ring) && Current(d, ring) == Some(HistoryKey(key, false))
      ensures next.None? ==> refusal == if Acceptable(c, d, ring, raw) then RecordTooLarge else LogRejected
      ensures next.Some? <==> Acceptable(c, d, ring, raw) && Fits(c, raw, RecordFor(c, d, ring, raw, details))
      ensures next.Some? ==>
                && next.value == RecordFor(c, d, ring, raw, details)
                && Builds(c, d, ring, raw, records, details, next.value)
    {
      refusal, next, records := LogRejected, None, [];
      if |raw| > MAX_AUDIT_BYTES {
        return;
      }
      var state := VerifyLines(c, d, content, raw);
      if state.None? {
        return;
      }
      records :| LogHolds(c, d, content, raw, records);
      RecordForHeld(c, d, ring, raw, details, records);
      var record := NextRecord(d, key, state.value.events, state.value.head, details);
      refusal := RecordTooLarge;
      if Fits(c, raw, record) {
        next := Some(record);
      }
    }

    /** Everything before the first written byte. */
    method Prepare(
      c: Codec, d: Derivation, keyring: KeyringFile, newKey: Token, actionValid: bool, details: string)
      returns (refusal: AppendOutcome, next: Option<AuditRecord>, ghost records: seq<AuditRecord>, ghost ring: Keyring)
      requires LawfulCodec(c)
      modifies this, keyring
      ensures Text() == old(Text())
      ensures KeptOrCreated(d, old(keyring.content), keyring.content, newKey)
      ensures next.None? ==> Refused(refusal)
      ensures next.Some? ==>
                && log.Some?
                && ring == KeyringFor(d, old(keyring.content), newKey)
                && keyring.content == Some(ring)
                && Builds(c, d, ring, Text(), records, details, next.value)
                && |c.render(next.value)| <= MAX_AUDIT_LINE_BYTES
      // Which check refuses, and when none does.
      ensures var end := AppendSteps(
                c, d, old(keyring.content), newKey, old(Text()), actionValid, details, keyring.fails,
                old(keyring.operations), fails, chunks, old(operations));
              if next.None? then end == AppendEnd(refusal, keyring.operations, operations)
              else end == WrittenSteps(
                            c, Text(), next.value, keyring.fails, keyring.operations, fails, chunks, operations)
    {
      refusal, next, records, ring := ActionRejected, None, [], NewKeyring(d, newKey);
      if actionValid {
        var key := keyring.EnsureKey(d, newKey);
        refusal := KeyUnavailable;
        if key.Some? {
          ring := keyring.content.value;
          var available := Attempt();
          refusal := LogUnavailable;
          if available {
            log := Some(Text());
            refusal, next, records := Extend(c, d, keyring.content, ring, key.value, Text(), details);
          }
        }
      }
    }

    /** Write the record, read the log back and settle. */
    method Commit(
      c: Codec, d: Derivation, keyring: KeyringFile, ghost ring: Keyring, ghost raw: string,
      ghost records: seq<AuditRecord>, details: string, record: AuditRecord)
      returns (outcome: AppendOutcome)
      requires Builds(c, d, ring, raw, records, details, record)
      requires keyring.content == Some(ring) && |c.render(record)| <= MAX_AUDIT_LINE_BYTES
      requires log == Some(raw)
      modifies this, keyring
      ensures !Refused(outcome)
      ensures CommitEffect(c, d, ring, raw, records, record, outcome, keyring.content, Text())
      ensures AppendEnd(outcome, keyring.operations, operations)
              == WrittenSteps(
                   c, raw, record, keyring.fails, old(keyring.operations), fails, chunks, old(operations))
    {
      var encoded := c.render(record) + "\n";
      var ok, written := WriteRecord(encoded);
      assert encoded[..|encoded|] == encoded;
      assert log == Some(raw + encoded[..written]);
      if ok {
        outcome := Settle(c, d, keyring, ring, raw, records, details, record);
      } else {
        outcome := WriteInterrupted(written);
      }
    }

    /** append_deployment_audit_event. A refusal leaves the log's bytes alone. Once
        the record is on disk the log verifies, whether or not the checkpoint has
        moved; on success the checkpoint is (n + 1, digest of the new record). When
        nothing fails, it succeeds exactly within the limits. */
    method Append(
      c: Codec, d: Derivation, keyring: KeyringFile, newKey: Token, actionValid: bool, details: string)
      returns (outcome: AppendOutcome, ghost records: seq<AuditRecord>, ghost ring: Keyring, ghost record: AuditRecord)
      requires LawfulCodec(c)
      modifies this, keyring
      ensures Refused(outcome) ==> Text() == old(Text())
      ensures Refused(outcome) ==> KeptOrCreated(d, old(keyring.content), keyring.content, newKey)
      ensures !Refused(outcome) ==>
                && ring == KeyringFor(d, old(keyring.content), newKey)
                && Builds(c, d, ring, old(Text()), records, details, record)
                && CommitEffect(c, d, ring, old(Text()), records, record, outcome, keyring.content, Text())
      // The outcome is decided by what can be known before the call.
      ensures AppendEnd(outcome, keyring.operations, operations)
              == StepsFrom(
                   c, d, keyring, old(keyring.content), newKey, old(Text()), actionValid, details,
                   old(keyring.operations), old(operations))
    {
      var next;
      outcome, next, records, ring := Prepare(c, d, keyring, newKey, actionValid, details);
      record := NextRecord(d, newKey, 0, ZERO_HASH, details);
      if next.Some? {
        record := next.value;
        outcome := Commit(c, d, keyring, ring, Text(), records, details, next.value);
      }
    }
  }

  lemma HeldUnique(c: Codec, d: Derivation, ring: Option<Keyring>, raw: string, records: seq<AuditRecord>)
    requires LogHolds(c, d, ring, raw, records)
    ensures forall others :: LogHolds(c, d, ring, raw, others) ==> others == records
  {
    forall others | LogHolds(c, d, ring, raw, others) ensures others == records {
      var lines := SplitLines(ByteSplitting, raw);
      assert lines[..|records|] == lines;
      DecodesUnique(c, lines, others, records);
    }
  }

  /** Below the event limit, and the last line terminated. */
  predicate HasRoom(raw: string) {
    |SplitLines(ByteSplitting, raw)| < MAX_AUDIT_EVENTS && EndsLine(ByteSplitting, raw)
  }

  /** The checks before the first byte is written. */
  ghost predicate Appendable(c: Codec, d: Derivation, ring: Keyring, raw: string, details: string) {
    && Readable(d, ring) && Current(d, ring).Some?
    && |raw| <= MAX_AUDIT_BYTES
    && exists records ::
         && LogHolds(c, d, Some(ring), raw, records)
         && var record := NextRecord(d, Current(d, ring).value.material, |records|, HeadHash(c.hash, records), details);
            && |c.render(record)| + 1 <= MAX_AUDIT_LINE_BYTES
            && |raw| + |c.render(record)| + 1 <= MAX_AUDIT_BYTES
  }

  /** What an append that began to write leaves behind. */
  ghost predicate CommitEffect(
    c: Codec, d: Derivation, ring: Keyring, raw: string, records: seq<AuditRecord>, record: AuditRecord,
    outcome: AppendOutcome, after: Option<Keyring>, text: string)
  {
    var encoded := c.render(record) + "\n";
    var moved := Some(WithCheckpoint(ring, |records| + 1, c.hash(record)));
    match outcome
    case WriteInterrupted(written) => after == Some(ring) && written <= |encoded| && text == raw + encoded[..written]
    case UnverifiedAfterWrite =>
      after == Some(ring) && text == raw + encoded && !HasRoom(raw)
    case CheckpointFailed =>
      && (after == Some(ring) || after == moved)
      && text == raw + encoded && LogHolds(c, d, after, text, records + [record])
    case PermissionsFailed => after == moved && text == raw + encoded && LogHolds(c, d, after, text, records + [record])
    case Appended => after == moved && text == raw + encoded && LogHolds(c, d, after, text, records + [record])
    case _ => false
  }

  lemma SettledEffect(
    c: Codec, d: Derivation, ring: Keyring, raw: string, records: seq<AuditRecord>, details: string,
    record: AuditRecord, outcome: AppendOutcome, after: Option<Keyring>)
    requires Builds(c, d, ring, raw, records, details, record) && |c.render(record)| <= MAX_AUDIT_LINE_BYTES
    requires outcome in {UnverifiedAfterWrite, CheckpointFailed, PermissionsFailed, Appended}
    requires outcome.UnverifiedAfterWrite? ==> !HasRoom(raw)
    requires !outcome.UnverifiedAfterWrite? ==> HasRoom(raw)
    requires || after == Some(WithCheckpoint(ring, |records| + 1, c.hash(record)))
             || (after == Some(ring) && (outcome.UnverifiedAfterWrite? || outcome.CheckpointFailed?))
    requires outcome.UnverifiedAfterWrite? ==> after == Some(ring)
    ensures CommitEffect(c, d, ring, raw, records, record, outcome, after, raw + (c.render(record) + "\n"))
  {
    AppendedLogVerifies(c, d, ring, raw, records, details);
  }

  /** The record append builds on a log that verifies against this keyring. */
  ghost predicate Builds(
    c: Codec, d: Derivation, ring: Keyring, raw: string, records: seq<AuditRecord>, details: string,
    record: AuditRecord)
  {
    && LawfulCodec(c) && Readable(d, ring)
    && Current(d, ring).Some?
    && LogHolds(c, d, Some(ring), raw, records)
    && record == NextRecord(d, Current(d, ring).value.material, |records|, HeadHash(c.hash, records), details)
  }
}
