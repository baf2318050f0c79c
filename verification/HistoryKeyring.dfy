/** The private keyring beside a deployment: one current HMAC key, retired keys
    kept for old audit records, and the newest audit checkpoint. */
module HistoryKeyring {
  import opened Prelude
  import opened HashChain

  const MAX_KEYS: nat := 32

  datatype HistoryKey = HistoryKey(material: Token, retired: bool)

  datatype Keyring = Keyring(keys: seq<HistoryKey>, currentId: Token, sequence: nat, head: Token)

  /** How a key's id and fingerprint follow from its bytes. */
  datatype Derivation = Derivation(keyId: Token -> Token, fingerprint: Token -> Token)

  predicate DistinctIds(d: Derivation, keys: seq<HistoryKey>) {
    forall i, j :: 0 <= i < j < |keys| ==> d.keyId(keys[i].material) != d.keyId(keys[j].material)
  }

  /** The checks the keyring parser makes. */
  predicate Readable(d: Derivation, ring: Keyring) {
    && 1 <= |ring.keys| <= MAX_KEYS
    && DistinctIds(d, ring.keys)
    && (exists i :: 0 <= i < |ring.keys| && !ring.keys[i].retired)
    && (forall i :: 0 <= i < |ring.keys| ==>
          (!ring.keys[i].retired <==> d.keyId(ring.keys[i].material) == ring.currentId))
    && IsSha256(ring.head)
    && (ring.sequence == 0 ==> ring.head == ZERO_HASH)
  }

  /** The position of the first key with this id. */
  function Position(d: Derivation, keys: seq<HistoryKey>, keyId: Token): (i: nat)
    ensures i <= |keys|
    ensures i < |keys| ==> d.keyId(keys[i].material) == keyId
    ensures i == |keys| ==> forall j :: 0 <= j < |keys| ==> d.keyId(keys[j].material) != keyId
    decreases |keys|
  {
    if keys == [] then 0
    else if d.keyId(keys[0].material) == keyId then 0
    else
      var rest := Position(d, keys[1..], keyId);
      assert forall j :: 1 <= j < |keys| ==> keys[j] == keys[1..][j - 1];
      1 + rest
  }

  /** resolve_history_key: the one key with this id and fingerprint. */
  function Resolve(d: Derivation, ring: Keyring, keyId: Token, fingerprint: Token): Option<HistoryKey> {
    var i := Position(d, ring.keys, keyId);
    if i < |ring.keys| && d.fingerprint(ring.keys[i].material) == fingerprint then Some(ring.keys[i]) else None
  }

  /** resolve_history_key(require_current=True). */
  function ResolveCurrent(d: Derivation, ring: Keyring, keyId: Token, fingerprint: Token): Option<HistoryKey> {
    if keyId == ring.currentId then Resolve(d, ring, keyId, fingerprint) else None
  }

  function Current(d: Derivation, ring: Keyring): Option<HistoryKey> {
    var i := Position(d, ring.keys, ring.currentId);
    if i < |ring.keys| then Some(ring.keys[i]) else None
  }

  /** The current key resolves from its own id and fingerprint. */
  lemma CurrentResolves(d: Derivation, ring: Keyring)
    requires Readable(d, ring)
    ensures Current(d, ring).Some? && !Current(d, ring).value.retired
    ensures var key := Current(d, ring).value.material;
            && d.keyId(key) == ring.currentId
            && ResolveCurrent(d, ring, d.keyId(key), d.fingerprint(key)) == Current(d, ring)
            && Resolve(d, ring, d.keyId(key), d.fingerprint(key)) == Current(d, ring)
  {
    var i :| 0 <= i < |ring.keys| && !ring.keys[i].retired;
    assert d.keyId(ring.keys[i].material) == ring.currentId;
  }

  function WithCheckpoint(ring: Keyring, sequence: nat, head: Token): Keyring {
    ring.(sequence := sequence, head := head)
  }

  function Retire(keys: seq<HistoryKey>): (retired: seq<HistoryKey>)
    ensures |retired| == |keys|
    ensures forall i :: 0 <= i < |keys| ==> retired[i] == HistoryKey(keys[i].material, true)
  {
    if keys == [] then [] else [HistoryKey(keys[0].material, true)] + Retire(keys[1..])
  }

  /** rotate_history_keyring: every key retired, a new current one appended, the
      audit checkpoint kept. */
  function Rotated(d: Derivation, ring: Keyring, material: Token): Keyring {
    Keyring(Retire(ring.keys) + [HistoryKey(material, false)], d.keyId(material), ring.sequence, ring.head)
  }

  function NewKeyring(d: Derivation, material: Token): Keyring {
    Keyring([HistoryKey(material, false)], d.keyId(material), 0, ZERO_HASH)
  }

  /** What an interrupted creation leaves: no parser accepts it. */
  const TORN_KEYRING: Keyring := Keyring([], Token(""), 0, Token(""))

  /** The keyring is as it was, or a missing one was created, perhaps not to the end. */
  predicate KeptOrCreated(d: Derivation, before: Option<Keyring>, after: Option<Keyring>, material: Token) {
    || after == before
    || (before.None? && (after == Some(TORN_KEYRING) || after == Some(NewKeyring(d, material))))
  }

  /** A current key can be had: the keyring reads, or none of the three steps that
      create a missing one fails. */
  predicate KeyAvailable(d: Derivation, content: Option<Keyring>, fails: nat -> bool, operations: nat) {
    if content.Some? then Readable(d, content.value)
    else !fails(operations) && !fails(operations + 1) && !fails(operations + 2)
  }

  ghost predicate FreshKey(d: Derivation, ring: Keyring, material: Token) {
    forall i :: 0 <= i < |ring.keys| ==> d.keyId(ring.keys[i].material) != d.keyId(material)
  }

  lemma NewKeyringReadable(d: Derivation, material: Token)
    ensures Readable(d, NewKeyring(d, material))
  {
    var ring := NewKeyring(d, material);
    assert !ring.keys[0].retired;
  }

  /** Rotation keeps the keyring readable and every old record's key resolvable;
      the old current key no longer resolves as current. */
  lemma RotatedResolves(d: Derivation, ring: Keyring, material: Token, keyId: Token, fingerprint: Token)
    requires Readable(d, ring) && |ring.keys| < MAX_KEYS && FreshKey(d, ring, material)
    ensures var rotated := Rotated(d, ring, material);
            && Readable(d, rotated)
            && Current(d, rotated) == Some(HistoryKey(material, false))
            && (Resolve(d, ring, keyId, fingerprint).Some? ==>
                  && Resolve(d, rotated, keyId, fingerprint)
                     == Some(HistoryKey(Resolve(d, ring, keyId, fingerprint).value.material, true))
                  && ResolveCurrent(d, rotated, keyId, fingerprint) == None)
  {
    var rotated := Rotated(d, ring, material);
    var n := |ring.keys|;
    assert rotated.keys[n] == HistoryKey(material, false);
    assert forall i :: 0 <= i < n ==> rotated.keys[i] == HistoryKey(ring.keys[i].material, true);
    PositionUnique(d, rotated.keys, n, d.keyId(material));
    var i := Position(d, ring.keys, keyId);
    if i < n {
      PositionUnique(d, rotated.keys, i, keyId);
    }
  }

  lemma {:induction false} PositionUnique(d: Derivation, keys: seq<HistoryKey>, i: nat, keyId: Token)
    requires DistinctIds(d, keys) && i < |keys| && d.keyId(keys[i].material) == keyId
    ensures Position(d, keys, keyId) == i
  {
    var p := Position(d, keys, keyId);
    assert p < |keys| && d.keyId(keys[p].material) == d.keyId(keys[i].material);
  }

  /** All four steps of an atomic replacement succeed. */
  predicate WritesThrough(fails: nat -> bool, operation: nat) {
    !fails(operation) && !fails(operation + 1) && !fails(operation + 2) && !fails(operation + 3)
  }

  /** Every step of undoing a change to the keyring succeeds. */
  predicate PutsBack(fails: nat -> bool, operation: nat, previous: Option<Keyring>) {
    if previous.Some? then WritesThrough(fails, operation) else !fails(operation)
  }

  /** A raw file is put back: the three steps of replacing it, or the one of
      removing it, succeed. */
  predicate RestoresRaw(fails: nat -> bool, operation: nat, present: bool) {
    !fails(operation) && (present ==> !fails(operation + 1) && !fails(operation + 2))
  }

  /** The keyring file, replaced atomically by a temporary file and a rename. */
  class KeyringFile {
    var content: Option<Keyring>
    var operations: nat
    const fails: nat -> bool

    constructor (content: Option<Keyring>, fails: nat -> bool)
      ensures this.content == content && operations == 0 && this.fails == fails
    {
      this.content := content;
      this.fails := fails;
      operations := 0;
    }

    /** _write_private_atomic: write, rename, chmod, sync. After the rename the new
        content is in place even if the call then fails. */
    method WriteAtomic(ring: Keyring) returns (ok: bool)
      modifies this
      ensures operations == old(operations) + 4
      ensures content == if fails(old(operations)) || fails(old(operations) + 1) then old(content) else Some(ring)
      ensures ok <==> WritesThrough(fails, old(operations))
    {
      var written := !fails(operations);
      var renamed := written && !fails(operations + 1);
      if renamed {
        content := Some(ring);
      }
      ok := renamed && !fails(operations + 2) && !fails(operations + 3);
      operations := operations + 4;
    }

    /** Creating a missing keyring in place, with O_EXCL: open, write, sync. Nothing
        undoes a failure: an interrupted write leaves an unreadable file. */
    method Create(ring: Keyring) returns (ok: bool)
      requires content.None?
      modifies this
      ensures operations == old(operations) + 3
      ensures content == if fails(old(operations)) then None
                         else if fails(old(operations) + 1) then Some(TORN_KEYRING)
                         else Some(ring)
      ensures ok <==> !fails(old(operations)) && !fails(old(operations) + 1) && !fails(old(operations) + 2)
    {
      var made := !fails(operations);
      var written := made && !fails(operations + 1);
      if made {
        content := Some(if written then ring else TORN_KEYRING);
      }
      ok := written && !fails(operations + 2);
      operations := operations + 3;
    }

    /** current_history_key(create=True): a missing keyring is created with one new
        key, an unreadable one is an error. */
    method EnsureKey(d: Derivation, material: Token) returns (key: Option<Token>)
      modifies this
      ensures key.Some? <==> KeyAvailable(d, old(content), fails, old(operations))
      ensures KeptOrCreated(d, old(content), content, material)
      ensures operations == old(operations) + (if old(content).Some? then 0 else 3)
      ensures old(content).None? && key.Some? ==> content == Some(NewKeyring(d, material))
      // The write alone decides whether the next call finds an unreadable keyring.
      ensures old(content).None? ==>
                (content.Some? && !Readable(d, content.value) <==>
                   !fails(old(operations)) && fails(old(operations) + 1))
      ensures key.Some? ==> content.Some? && Readable(d, content.value)
                            && Current(d, content.value) == Some(HistoryKey(key.value, false))
    {
      NewKeyringReadable(d, material);
      if content.None? {
        var created := Create(NewKeyring(d, material));
        if !created {
          return None;
        }
      }
      if !Readable(d, content.value) {
        return None;
      }
      CurrentResolves(d, content.value);
      return Some(Current(d, content.value).value.material);
    }

    /** update_history_audit_checkpoint: never backwards, never a different head at
        the same sequence. */
    method UpdateCheckpoint(sequence: nat, head: Token) returns (ok: bool)
      requires content.Some?
      modifies this
      ensures content == old(content) || content == Some(WithCheckpoint(old(content).value, sequence, head))
      ensures ok ==> content == Some(WithCheckpoint(old(content).value, sequence, head))
      ensures sequence < old(content).value.sequence ==> !ok && content == old(content)
      ensures sequence == old(content).value.sequence && head != old(content).value.head ==>
                !ok && content == old(content)
      ensures sequence > old(content).value.sequence ||
                (sequence == old(content).value.sequence && head == old(content).value.head) ==>
                (ok <==> WritesThrough(fails, old(operations))) && operations == old(operations) + 4
      ensures sequence > old(content).value.sequence ==>
                (content == old(content) <==> fails(old(operations)) || fails(old(operations) + 1))
    {
      var ring := content.value;
      if sequence < ring.sequence || (sequence == ring.sequence && head != ring.head) {
        return false;
      }
      ok := WriteAtomic(WithCheckpoint(ring, sequence, head));
    }

    /** Undoing a change: unlink the file, or replace it with its previous bytes. */
    method PutBack(previous: Option<Keyring>) returns (ok: bool)
      modifies this
      ensures ok ==> content == previous
      ensures !ok ==> content == old(content) || content == previous
      ensures ok <==> PutsBack(fails, old(operations), previous)
      ensures operations == old(operations) + (if previous.Some? then 4 else 1)
    {
      if previous.Some? {
        ok := WriteAtomic(previous.value);
      } else {
        ok := !fails(operations);
        operations := operations + 1;
        if ok {
          content := None;
        }
      }
    }

    /** _restore_raw_file: remove the file, or replace it by a restricted temporary
        file, without reading it or syncing the directory. */
    method RestoreRaw(previous: Option<Keyring>) returns (ok: bool)
      modifies this
      ensures ok <==> RestoresRaw(fails, old(operations), previous.Some?)
      ensures content == if ok then previous else old(content)
    {
      ok := !fails(operations) && (previous.Some? ==> !fails(operations + 1) && !fails(operations + 2));
      operations := operations + if previous.Some? then 3 else 1;
      if ok {
        content := previous;
      }
    }

    /** rotate_history_keyring. */
    method Rotate(d: Derivation, material: Token) returns (ok: bool)
      requires content.Some?
      modifies this
      ensures content == old(content) ||
              (|old(content).value.keys| < MAX_KEYS && content == Some(Rotated(d, old(content).value, material)))
      ensures ok ==> |old(content).value.keys| < MAX_KEYS && content == Some(Rotated(d, old(content).value, material))
      ensures |old(content).value.keys| < MAX_KEYS ==>
                && (content != old(content) <==> !fails(old(operations)) && !fails(old(operations) + 1))
                && (ok <==> WritesThrough(fails, old(operations)))
      ensures operations == old(operations) + (if |old(content).value.keys| < MAX_KEYS then 4 else 0)
    {
      if |content.value.keys| >= MAX_KEYS {
        return false;
      }
      ok := WriteAtomic(Rotated(d, content.value, material));
    }
  }
}
